// Modular arithmetic for an arbitrary modulus.
module Modular {

  // Quotient and remainder are unique.
  lemma Remainder(x: int, q: int, r: int, m: int)
    requires m > 0 && x == m * q + r && 0 <= r < m
    ensures x % m == r && x / m == q
  {
    var d := x / m - q;
    assert m * d == r - x % m by {
      assert m * (x / m) - m * q == m * d;
    }
    AtLeast(m, d);
    AtLeast(m, -d);
    assert m * -d == -(m * d);
  }

  lemma AtLeast(m: int, d: int)
    requires m > 0
    ensures d >= 1 ==> m * d >= m
  {
    if d >= 1 { assert m * d == m + m * (d - 1) && m * (d - 1) >= 0; }
  }

  lemma ModShift(x: int, k: int, m: int)
    requires m > 0
    ensures (x + m * k) % m == x % m
  {
    assert m * (x / m) + m * k == m * (x / m + k);
    Remainder(x + m * k, x / m + k, x % m, m);
  }

  lemma ModAdd(x: int, y: int, m: int)
    requires m > 0
    ensures (x % m + y) % m == (x + y) % m
    ensures (x + y % m) % m == (x + y) % m
  {
    DivMod(x, m);
    DivMod(y, m);
    ModShift(x % m + y, x / m, m);
    ModShift(x + y % m, y / m, m);
  }

  lemma ModSub(x: int, y: int, m: int)
    requires m > 0
    ensures (x % m - y) % m == (x - y) % m
    ensures (x - y % m) % m == (x - y) % m
  {
    DivMod(x, m);
    DivMod(y, m);
    ModShift(x % m - y, x / m, m);
    ModShift(x - y, y / m, m);
  }

  lemma DivMod(x: int, m: int)
    requires m > 0
    ensures x == x % m + m * (x / m)
  {
  }

  lemma ModMul(x: int, y: int, m: int)
    requires m > 0
    ensures (x % m * y) % m == (x * y) % m
  {
    ModShift(x % m * y, x / m * y, m);
    assert x == m * (x / m) + x % m;
    assert (m * (x / m)) * y == m * (x / m * y);
    assert x * y == x % m * y + m * (x / m * y);
  }
}
