// Polynomial chunks (internal/fractal/generator.go): a chunk whose byte at x is
// a*x^2 + b*x + c modulo 256 is stored as the 24-bit seed holding a, b and c.
module Polynomial {
  import opened Common
  import opened Modular

  // The byte the polynomial with coefficients a, b, c takes at x.
  function At(a: int, b: int, c: int, x: int): byte {
    (a * x * x + b * x + c) % 256
  }

  ghost predicate Generates(a: byte, b: byte, c: byte, target: Bytes) {
    forall x :: 0 <= x < |target| ==> target[x] == At(a, b, c, x)
  }

  // Some coefficients generate the target.
  ghost predicate IsPolynomial(target: Bytes) {
    exists a: byte, b: byte, c: byte :: Generates(a, b, c, target)
  }

  // seed & 0xFF and the two bytes above it, from the 64-bit pattern of the seed.
  function SeedA(seed: u64): byte { seed % 256 }
  function SeedB(seed: u64): byte { seed / 256 % 256 }
  function SeedC(seed: u64): byte { seed / 0x1_0000 % 256 }

  function Seed(a: byte, b: byte, c: byte): (s: u64)
    ensures s < 0x100_0000
    ensures SeedA(s) == a && SeedB(s) == b && SeedC(s) == c
  {
    a + 256 * b + 0x1_0000 * c
  }

  function Generated(seed: u64, length: nat): (out: Bytes)
    ensures |out| == length
    ensures Generates(SeedA(seed), SeedB(seed), SeedC(seed), out)
  {
    seq(length, x => At(SeedA(seed), SeedB(seed), SeedC(seed), x))
  }

  // ----- arithmetic modulo 256 and modulo 2^64 --------------------------------

  // Reducing modulo 2^64 first does not change the low byte.
  lemma ModNested(x: int)
    ensures x % TWO_TO_64 % 256 == x % 256
  {
    var k := TWO_TO_64 / 256;
    ModShift(x % TWO_TO_64, k * (x / TWO_TO_64), 256);
    assert x == x % TWO_TO_64 + 256 * (k * (x / TWO_TO_64));
  }

  // The uint64 expression of GeneratePolynomial, each operation wrapping at 2^64.
  function WordAt(a: byte, b: byte, c: byte, x: nat): byte {
    Add64(Add64(Mul64(Mul64(a, x), x), Mul64(b, x)), c) % 256
  }

  lemma WordAtIsAt(a: byte, b: byte, c: byte, x: nat)
    ensures WordAt(a, b, c, x) == At(a, b, c, x)
  {
    ModMul(a * x, x, TWO_TO_64);
    var u, v := a * x * x, b * x;
    assert WordAt(a, b, c, x) == Add64(Add64(u % TWO_TO_64, v % TWO_TO_64), c) % 256;
    ModAdd(u, v % TWO_TO_64, TWO_TO_64);
    ModAdd(u, v, TWO_TO_64);
    ModAdd(u + v, c, TWO_TO_64);
    ModNested(u + v + c);
  }

  // The byte expression of FindPolynomial, each operation wrapping at 256.
  function ByteAt(a: byte, b: byte, c: byte, x: byte): byte {
    ((a * x % 256 * x % 256 + b * x % 256) % 256 + c) % 256
  }

  lemma ByteAtIsAt(a: byte, b: byte, c: byte, i: nat)
    ensures ByteAt(a, b, c, i % 256) == At(a, b, c, i)
  {
    WrappedIsAt(a, b, c, i % 256);
    AtPeriod(a, b, c, i % 256, i / 256);
  }

  lemma WrappedIsAt(a: byte, b: byte, c: byte, x: byte)
    ensures ByteAt(a, b, c, x) == At(a, b, c, x)
  {
    ModMul(a * x, x, 256);
    var u, v := a * x * x, b * x;
    assert ByteAt(a, b, c, x) == ((u % 256 + v % 256) % 256 + c) % 256;
    ModAdd(u, v % 256, 256);
    ModAdd(u, v, 256);
    ModAdd(u + v, c, 256);
  }

  lemma AtPeriod(a: int, b: int, c: int, x: int, k: int)
    ensures At(a, b, c, x + 256 * k) == At(a, b, c, x)
  {
    var s := a * (2 * x * k + 256 * k * k);
    Square(a, x, k);
    Distribute(b, x, k);
    ModShift(a * x * x + b * x + c, s + b * k, 256);
  }

  lemma Distribute(b: int, x: int, k: int)
    ensures b * (x + 256 * k) == b * x + 256 * (b * k)
  {
  }

  lemma Square(a: int, x: int, k: int)
    ensures a * (x + 256 * k) * (x + 256 * k) == a * x * x + 256 * (a * (2 * x * k + 256 * k * k))
  {
    var y := x + 256 * k;
    assert y * y == x * x + 256 * (2 * x * k + 256 * k * k);
    assert a * y * y == a * (y * y);
    assert a * (x * x) == a * x * x;
  }

  lemma AtZeroOne(a: byte, b: byte, c: byte)
    ensures At(a, b, c, 0) == c && At(a, b, c, 1) == (a + b + c) % 256
  {
    assert a * 0 * 0 + b * 0 + c == c;
    assert a * 1 * 1 + b * 1 + c == a + b + c;
  }

  method GeneratePolynomial(seed: u64, length: nat) returns (r: Bytes)
    ensures r == Generated(seed, length)
  {
    var a, b, c := SeedA(seed), SeedB(seed), SeedC(seed);
    var out := new byte[length];
    for i := 0 to length
      invariant forall x :: 0 <= x < i ==> out[x] == At(a, b, c, x)
    {
      WordAtIsAt(a, b, c, i);
      out[i] := WordAt(a, b, c, i);
    }
    r := out[..];
    SameElements(r, Generated(seed, length));
  }

  // ----- the search -----------------------------------------------------------

  // b := byte(int(target[1]) - int(c) - a), converting through int.
  function SecondCoefficient(second: int, c: int, a: int): byte { (second - c - a) % 256 }

  lemma SecondByte(a: byte, b: byte, c: byte)
    ensures SecondCoefficient((a + b + c) % 256, c, a) == b
  {
    ModSub(a + b + c, c + a, 256);
  }

  lemma SecondBack(a: byte, second: byte, c: byte)
    ensures (a + SecondCoefficient(second, c, a) + c) % 256 == second
  {
    ModAdd(second - c - a, a + c, 256);
  }

  // The first two bytes leave one free coefficient.
  lemma FirstTwo(a: byte, b: byte, c: byte, target: Bytes)
    requires Generates(a, b, c, target) && |target| >= 2
    ensures c == target[0] && b == SecondCoefficient(target[1], c, a)
  {
    AtZeroOne(a, b, c);
    SecondByte(a, b, c);
  }

  // Adding 128 to both a and b changes nothing: x*(x+1) is even.
  lemma HalfTurn(a: byte, b: byte, c: byte, x: nat)
    requires a >= 128
    ensures At(a, b, c, x) == At(a - 128, (b + 128) % 256, c, x)
  {
    var q, h := (b + 128) / 256, x * (x - 1) / 2;
    EvenProduct(x);
    assert b + 128 == (b + 128) % 256 + 256 * q;
    HalfTurnSum(a, b, c, x, q, h);
    ModShift((a - 128) * x * x + (b + 128 - 256 * q) * x + c, h + q * x, 256);
  }

  lemma HalfTurnSum(a: int, b: int, c: int, x: int, q: int, h: int)
    requires x * (x - 1) == 2 * h
    ensures a * x * x + b * x + c == ((a - 128) * x * x + (b + 128 - 256 * q) * x + c) + 256 * (h + q * x)
  {
    var y := x * x;
    assert x * (x - 1) == y - x;
    assert a * x * x == a * y && (a - 128) * x * x == (a - 128) * y;
    assert (a - 128) * y == a * y - 128 * y;
    assert (b + 128 - 256 * q) * x == b * x + 128 * x - 256 * (q * x);
  }

  lemma {:induction false} EvenProduct(x: nat)
    ensures x * (x - 1) % 2 == 0
  {
    if x > 0 {
      EvenProduct(x - 1);
      assert x * (x - 1) == (x - 1) * (x - 2) + 2 * (x - 1);
    }
  }

  // A polynomial target has coefficients with a below 128.
  lemma SmallA(target: Bytes) returns (a: byte, b: byte, c: byte)
    requires IsPolynomial(target)
    ensures Generates(a, b, c, target) && a < 128
  {
    a, b, c :| Generates(a, b, c, target);
    if a >= 128 {
      forall x | 0 <= x < |target|
        ensures target[x] == At(a - 128, (b + 128) % 256, c, x)
      {
        HalfTurn(a, b, c, x);
      }
      a, b := a - 128, (b + 128) % 256;
    }
  }

  // Succeeds exactly on the polynomial targets, with a seed that regenerates the
  // target, at any length.
  method FindPolynomial(target: Bytes) returns (found: bool, seed: u64)
    ensures found <==> target != [] && IsPolynomial(target)
    ensures found ==> seed < 0x100_0000 && SeedA(seed) < 128 && Generated(seed, |target|) == target
  {
    if |target| == 0 {
      return false, 0;
    }
    var c := target[0];
    if |target| == 1 {
      assert Generates(0, 0, c, target);
      return true, Seed(0, 0, c);
    }
    for a := 0 to 256
      invariant forall a': byte, b: byte, c: byte :: a' < a ==> !Generates(a', b, c, target)
      invariant a <= 128 || !IsPolynomial(target)
    {
      var b := SecondCoefficient(target[1], c, a);
      var match_ := true;
      var i := 2;
      while i < |target|
        invariant 2 <= i <= |target| && match_
        invariant forall x :: 2 <= x < i ==> target[x] == At(a, b, c, x)
      {
        ByteAtIsAt(a, b, c, i);
        if ByteAt(a, b, c, i % 256) != target[i] {
          match_ := false;
          break;
        }
        i := i + 1;
      }
      if match_ {
        MatchGenerates(a, b, c, target);
        if a >= 128 {
          var a0, b0, c0 := SmallA(target);
          assert false;
        }
        SameElements(Generated(Seed(a, b, c), |target|), target);
        return true, Seed(a, b, c);
      }
      forall b': byte, c': byte
        ensures !Generates(a, b', c', target)
      {
        if Generates(a, b', c', target) { FirstTwo(a, b', c', target); }
      }
      if a >= 127 && IsPolynomial(target) {
        var a0, b0, c0 := SmallA(target);
      }
    }
    return false, 0;
  }

  lemma MatchGenerates(a: byte, b: byte, c: byte, target: Bytes)
    requires |target| >= 2 && c == target[0] && b == SecondCoefficient(target[1], c, a)
    requires forall x :: 2 <= x < |target| ==> target[x] == At(a, b, c, x)
    ensures Generates(a, b, c, target)
  {
    AtZeroOne(a, b, c);
    SecondBack(a, target[1], c);
    assert At(a, b, c, 1) == target[1];
  }
}
