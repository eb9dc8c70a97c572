// The rolling hash of the content-aligned chunker (internal/search/aligned.go).
module RollingHash {
  import opened Common
  import opened Modular

  const PRIME: u64 := 1099511628211

  // rollingHash: each step is h*prime + b in 64-bit arithmetic.
  function Hash(data: Bytes): u64 {
    if data == [] then 0
    else Add64(Mul64(Hash(data[..|data| - 1]), PRIME), data[|data| - 1])
  }

  // The same polynomial without wrap-around.
  ghost function Value(data: Bytes): int {
    if data == [] then 0
    else Value(data[..|data| - 1]) * PRIME + data[|data| - 1]
  }

  ghost function Power(n: nat): int {
    if n == 0 then 1 else Power(n - 1) * PRIME
  }

  lemma {:induction false} HashIsValue(data: Bytes)
    ensures Hash(data) == Value(data) % TWO_TO_64
  {
    if data != [] {
      var init, last := data[..|data| - 1], data[|data| - 1];
      HashIsValue(init);
      ModMul(Value(init), PRIME, TWO_TO_64);
      ModAdd(Value(init) * PRIME, last, TWO_TO_64);
    }
  }

  // The first byte weighs the highest power.
  lemma {:induction false} ValueFirst(data: Bytes)
    requires data != []
    ensures Value(data) == data[0] * Power(|data| - 1) + Value(data[1..])
  {
    if |data| == 1 {
      assert data[..0] == [];
    } else {
      var init, last := data[..|data| - 1], data[|data| - 1];
      ValueFirst(init);
      var tail := data[1..];
      assert tail[..|tail| - 1] == init[1..] && tail[|tail| - 1] == last;
      var f, q, v := data[0], Power(|data| - 2), Value(init[1..]);
      assert (f * q + v) * PRIME == f * (q * PRIME) + v * PRIME;
    }
  }

  // One step of the window: drop the first byte, append the next one.
  function Rolled(h: u64, top: u64, first: byte, next: byte): u64 {
    Add64(Mul64(Sub64(h, Mul64(first, top)), PRIME), next)
  }

  lemma HashNext(data: Bytes, next: byte)
    ensures Hash(data + [next]) == (Value(data) * PRIME + next) % TWO_TO_64
  {
    var moved := data + [next];
    assert moved[..|moved| - 1] == data;
    HashIsValue(moved);
  }

  // The incremental hash is the hash of the moved window.
  lemma Roll(window: Bytes, next: byte, top: u64)
    requires window != [] && top == Power(|window| - 1) % TWO_TO_64
    ensures Rolled(Hash(window), top, window[0], next) == Hash(window[1..] + [next])
  {
    HashIsValue(window);
    ValueFirst(window);
    RollStep(Hash(window), top, Value(window), Power(|window| - 1), window[0], next, Value(window[1..]));
    HashNext(window[1..], next);
  }

  lemma RollStep(h: u64, top: u64, v: int, p: int, first: byte, next: byte, rest: int)
    requires v == first * p + rest && h == v % TWO_TO_64 && top == p % TWO_TO_64
    ensures Rolled(h, top, first, next) == (rest * PRIME + next) % TWO_TO_64
  {
    var weight := first * p;
    ModMul(p, first, TWO_TO_64);
    assert p * first == weight && p % TWO_TO_64 * first == first * (p % TWO_TO_64);
    assert Mul64(first, top) == weight % TWO_TO_64;
    ModSub(v, weight % TWO_TO_64, TWO_TO_64);
    ModSub(v, weight, TWO_TO_64);
    assert Sub64(h, weight % TWO_TO_64) == rest % TWO_TO_64;
    ModMul(rest, PRIME, TWO_TO_64);
    ModAdd(rest * PRIME, next, TWO_TO_64);
  }
}
