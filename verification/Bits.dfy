// Bitwise exclusive or and bit counts, on the binary digits of a natural number.
module Bits {
  import opened Modular

  function Pow2(n: nat): (p: nat)
    ensures p > 0
  {
    if n == 0 then 1 else 2 * Pow2(n - 1)
  }

  function Xor(a: nat, b: nat): nat
    decreases a + b
  {
    if a == 0 && b == 0 then 0 else (a + b) % 2 + 2 * Xor(a / 2, b / 2)
  }

  function And(a: nat, b: nat): nat
    decreases a
  {
    if a == 0 || b == 0 then 0 else AndBit(a, b) + 2 * And(a / 2, b / 2)
  }

  // Digit by digit, both.
  lemma {:induction false} AndDigit(a: nat, b: nat, n: nat)
    ensures And(a, b) / Pow2(n) % 2 == 1 <==> a / Pow2(n) % 2 == 1 && b / Pow2(n) % 2 == 1
    decreases n
  {
    AndStep(a, b);
    hide And;
    if n > 0 {
      AndDigit(a / 2, b / 2, n - 1);
      Halved(And(a, b), n);
      Halved(a, n);
      Halved(b, n);
      hide Pow2;
    } else {
      assert Pow2(0) == 1;
    }
  }

  function AndBit(a: nat, b: nat): nat { if a % 2 == 1 && b % 2 == 1 then 1 else 0 }

  lemma AndUnfold(a: nat, b: nat)
    ensures And(a, b) == AndBit(a, b) + 2 * And(a / 2, b / 2)
  {
    if a == 0 || b == 0 { assert And(a / 2, b / 2) == 0; }
  }

  lemma AndStep(a: nat, b: nat)
    ensures And(a, b) % 2 == AndBit(a, b) && And(a, b) / 2 == And(a / 2, b / 2)
  {
    AndUnfold(a, b);
    hide And;
  }

  lemma Halved(a: nat, n: nat)
    requires n > 0
    ensures a / Pow2(n) == a / 2 / Pow2(n - 1)
  {
    DivDiv(a, 2, Pow2(n - 1));
  }

  lemma DivDiv(a: nat, x: nat, y: nat)
    requires x > 0 && y > 0
    ensures x * y > 0 && a / (x * y) == a / x / y
  {
    var q := a / x / y;
    var r1, r2 := a % x, a / x % y;
    assert a == x * (y * q + r2) + r1;
    assert a == (x * y) * q + (x * r2 + r1);
    assert 0 <= x * r2 + r1 < x * y by {
      assert x * r2 <= x * (y - 1);
    }
    Remainder(a, q, x * r2 + r1, x * y);
  }

  function PopCount(a: nat): nat {
    if a == 0 then 0 else a % 2 + PopCount(a / 2)
  }

  lemma XorStep(a: nat, b: nat)
    ensures Xor(a, b) == (a + b) % 2 + 2 * Xor(a / 2, b / 2)
    ensures Xor(a, b) / 2 == Xor(a / 2, b / 2) && Xor(a, b) % 2 == (a + b) % 2
  {
  }

  lemma {:induction false} XorBound(a: nat, b: nat, n: nat)
    requires a < Pow2(n) && b < Pow2(n)
    ensures Xor(a, b) < Pow2(n)
  {
    if n > 0 { XorBound(a / 2, b / 2, n - 1); }
  }

  lemma {:induction false} XorUndone(a: nat, b: nat)
    ensures Xor(Xor(a, b), b) == a
    decreases a + b
  {
    if a != 0 || b != 0 {
      XorUndone(a / 2, b / 2);
      XorStep(a, b);
      XorStep(Xor(a, b), b);
    }
  }

  lemma {:induction false} XorSymmetric(a: nat, b: nat)
    ensures Xor(a, b) == Xor(b, a)
    decreases a + b
  {
    if a != 0 || b != 0 { XorSymmetric(a / 2, b / 2); }
  }

  lemma {:induction false} XorZero(a: nat)
    ensures Xor(a, 0) == a
  {
    if a != 0 { XorZero(a / 2); }
  }

  // Exclusive or with n ones is the complement in n bits.
  lemma {:induction false} XorOnes(a: nat, n: nat)
    requires a < Pow2(n)
    ensures Xor(a, Pow2(n) - 1) == Pow2(n) - 1 - a
  {
    if n == 0 {
      assert a == 0;
    } else {
      XorOnes(a / 2, n - 1);
      OnesStep(a, Pow2(n - 1));
    }
  }

  lemma OnesStep(a: nat, p: nat)
    requires p > 0 && a < 2 * p && Xor(a / 2, p - 1) == p - 1 - a / 2
    ensures Xor(a, 2 * p - 1) == 2 * p - 1 - a
  {
    hide *;
    XorUnfold(a, 2 * p - 1);
    Halves(a / 2, a % 2, p);
  }

  lemma XorUnfold(a: nat, b: nat)
    ensures Xor(a, b) == (a + b) % 2 + 2 * Xor(a / 2, b / 2)
  {
  }

  lemma Halves(q: nat, r: nat, p: nat)
    requires p > 0 && r < 2
    ensures (2 * p - 1) / 2 == p - 1
    ensures (2 * q + r + (2 * p - 1)) % 2 == 1 - r
  {
    if r == 0 {
      assert 2 * q + r + (2 * p - 1) == 2 * (q + p - 1) + 1;
    } else {
      assert 2 * q + r + (2 * p - 1) == 2 * (q + p);
    }
  }

  lemma {:induction false} XorEqual(a: nat, b: nat)
    ensures Xor(a, b) == 0 <==> a == b
    decreases a + b
  {
    if a != 0 || b != 0 { XorEqual(a / 2, b / 2); }
  }

  lemma Powers()
    ensures Pow2(8) == 256 && Pow2(63) == 0x8000_0000_0000_0000 && Pow2(64) == 0x1_0000_0000_0000_0000
  {
    PowerOfEight(0);
    PowerOfEight(8);
    PowerOfEight(16);
    PowerOfEight(24);
    PowerOfEight(32);
    PowerOfEight(40);
    PowerOfEight(48);
    PowerOfEight(56);
    hide *;
    Double(63);
    One();
  }

  lemma One()
    ensures Pow2(0) == 1
  {
  }

  lemma Double(n: nat)
    ensures Pow2(n + 1) == 2 * Pow2(n)
  {
  }

  lemma PowerOfEight(n: nat)
    ensures Pow2(n + 8) == 256 * Pow2(n)
  {
    hide *;
    Double(n);
    Double(n + 1);
    Double(n + 2);
    Double(n + 3);
    Double(n + 4);
    Double(n + 5);
    Double(n + 6);
    Double(n + 7);
  }
}
