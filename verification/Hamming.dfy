// Hamming distance word by word (internal/search/search.go, search_simd.go).
module Hamming {
  import opened Common
  import opened Bits

  // ----- the distance, byte by byte ------------------------------------------------------

  function ByteDistance(a: byte, b: byte): nat { PopCount(Xor(a, b)) }

  // Position i: the differing bits, or all eight if one side has ended.
  function At(a: Bytes, b: Bytes, i: nat): nat {
    if i < |a| && i < |b| then ByteDistance(a[i], b[i]) else if i < |a| || i < |b| then 8 else 0
  }

  ghost function Upto(a: Bytes, b: Bytes, n: nat): nat {
    if n == 0 then 0 else Upto(a, b, n - 1) + At(a, b, n - 1)
  }

  ghost function Distance(a: Bytes, b: Bytes): nat { Upto(a, b, Max(|a|, |b|)) }

  lemma {:induction false} PastBoth(a: Bytes, b: Bytes, n: nat)
    requires n >= |a| && n >= |b|
    ensures Upto(a, b, n) == Distance(a, b)
  {
    if n > |a| && n > |b| {
      PastBoth(a, b, n - 1);
      hide At;
      assert At(a, b, n - 1) == 0 by { Nowhere(a, b, n - 1); }
    }
  }

  lemma Nowhere(a: Bytes, b: Bytes, i: nat)
    requires i >= |a| && i >= |b|
    ensures At(a, b, i) == 0
  {
  }

  // Every missing byte counts as eight bits.
  lemma {:induction false} Missing(a: Bytes, b: Bytes, n: nat)
    requires Min(|a|, |b|) <= n <= Max(|a|, |b|)
    ensures Upto(a, b, n) == Upto(a, b, Min(|a|, |b|)) + 8 * (n - Min(|a|, |b|))
  {
    if n > Min(|a|, |b|) {
      Missing(a, b, n - 1);
      hide Upto;
      UptoUnfold(a, b, n);
    }
  }

  lemma UptoUnfold(a: Bytes, b: Bytes, n: nat)
    requires n > 0
    ensures Upto(a, b, n) == Upto(a, b, n - 1) + At(a, b, n - 1)
  {
    hide At;
  }

  // ----- a metric -------------------------------------------------------------------------

  lemma {:induction false} CountOne(a: nat)
    ensures PopCount(a) == a % 2 + PopCount(a / 2)
  {
  }

  lemma {:induction false} BitTriangle(a: nat, b: nat, c: nat)
    ensures PopCount(Xor(a, c)) <= PopCount(Xor(a, b)) + PopCount(Xor(b, c))
    decreases a + b + c
  {
    if a == 0 && b == 0 && c == 0 {
    } else {
      BitTriangle(a / 2, b / 2, c / 2);
      XorStep(a, b);
      XorStep(b, c);
      XorStep(a, c);
      CountOne(Xor(a, b));
      CountOne(Xor(b, c));
      CountOne(Xor(a, c));
      hide Xor, PopCount;
      Parity(a, b, c);
    }
  }

  lemma Parity(a: nat, b: nat, c: nat)
    ensures (a + c) % 2 <= (a + b) % 2 + (b + c) % 2
  {
  }

  lemma {:induction false} CountBound(a: nat, n: nat)
    requires a < Pow2(n)
    ensures PopCount(a) <= n
  {
    if n > 0 { CountBound(a / 2, n - 1); }
  }

  lemma ByteBound(a: byte, b: byte)
    ensures ByteDistance(a, b) <= 8
  {
    Powers();
    XorBound(a, b, 8);
    CountBound(Xor(a, b), 8);
  }

  lemma AtTriangle(a: Bytes, b: Bytes, c: Bytes, i: nat)
    ensures At(a, c, i) <= At(a, b, i) + At(b, c, i)
  {
    if i < |a| && i < |c| {
      ByteBound(a[i], c[i]);
      if i < |b| { BitTriangle(a[i], b[i], c[i]); }
    }
    hide Xor, PopCount;
  }

  lemma {:induction false} UptoTriangle(a: Bytes, b: Bytes, c: Bytes, n: nat)
    ensures Upto(a, c, n) <= Upto(a, b, n) + Upto(b, c, n)
  {
    if n > 0 {
      UptoTriangle(a, b, c, n - 1);
      AtTriangle(a, b, c, n - 1);
      hide At;
    }
  }

  lemma {:induction false} UptoSymmetric(a: Bytes, b: Bytes, n: nat)
    ensures Upto(a, b, n) == Upto(b, a, n)
  {
    if n > 0 {
      UptoSymmetric(a, b, n - 1);
      if n - 1 < |a| && n - 1 < |b| { XorSymmetric(a[n - 1], b[n - 1]); }
      hide Xor, PopCount;
    }
  }

  lemma {:induction false} CountZero(a: nat)
    ensures PopCount(a) == 0 <==> a == 0
  {
    if a != 0 { CountZero(a / 2); }
  }

  lemma {:induction false} UptoZero(a: Bytes, b: Bytes, n: nat)
    ensures Upto(a, b, n) == 0 <==> forall i: nat :: i < n ==> At(a, b, i) == 0
  {
    if n > 0 {
      UptoZero(a, b, n - 1);
      hide At;
      assert Upto(a, b, n) == 0 ==> At(a, b, n - 1) == 0;
    }
  }

  lemma AtZero(a: Bytes, b: Bytes, i: nat)
    requires i < Max(|a|, |b|)
    ensures At(a, b, i) == 0 <==> i < |a| && i < |b| && a[i] == b[i]
  {
    if i < |a| && i < |b| {
      CountZero(Xor(a[i], b[i]));
      XorEqual(a[i], b[i]);
    }
    hide Xor, PopCount;
  }

  // Zero exactly between equal strings, symmetric, and no shorter by a detour.
  lemma IsMetric(a: Bytes, b: Bytes, c: Bytes)
    ensures Distance(a, b) == 0 <==> a == b
    ensures Distance(a, b) == Distance(b, a)
    ensures Distance(a, c) <= Distance(a, b) + Distance(b, c)
  {
    hide At, Upto;
    var n := Max(|a|, |b|);
    UptoZero(a, b, n);
    forall i: nat | i < n
      ensures At(a, b, i) == 0 <==> i < |a| && i < |b| && a[i] == b[i]
    {
      AtZero(a, b, i);
    }
    if Distance(a, b) == 0 { EqualEverywhere(a, b); }
    UptoSymmetric(a, b, n);
    var m := Max(n, |c|);
    PastBoth(a, b, m);
    PastBoth(b, c, m);
    PastBoth(a, c, m);
    UptoTriangle(a, b, c, m);
  }

  lemma EqualEverywhere(a: Bytes, b: Bytes)
    requires forall i: nat :: i < Max(|a|, |b|) ==> At(a, b, i) == 0
    requires forall i: nat :: i < Max(|a|, |b|) ==> (At(a, b, i) == 0 <==> i < |a| && i < |b| && a[i] == b[i])
    ensures a == b
  {
    hide At;
    var end: nat := Min(|a|, |b|);
    assert end < Max(|a|, |b|) ==> At(a, b, end) == 0;
    forall i | 0 <= i < |a|
      ensures i < |b| && a[i] == b[i]
    {
      assert At(a, b, i) == 0;
    }
  }

  // ----- words ----------------------------------------------------------------------------------

  lemma {:induction false} SplitXor(l: nat, h: nat, l': nat, h': nat, n: nat)
    requires l < Pow2(n) && l' < Pow2(n)
    ensures Xor(l + Pow2(n) * h, l' + Pow2(n) * h') == Xor(l, l') + Pow2(n) * Xor(h, h')
    decreases n
  {
    hide *;
    if n == 0 {
      One();
      XorNothing();
    } else {
      var p := Pow2(n - 1);
      Double(n - 1);
      SplitXor(l / 2, h, l' / 2, h', n - 1);
      Twice(Pow2(n), p, h);
      Twice(Pow2(n), p, h');
      Twice(Pow2(n), p, Xor(h, h'));
      HalfOf(l, p * h);
      HalfOf(l', p * h');
      XorUnfold(l + Pow2(n) * h, l' + Pow2(n) * h');
      XorUnfold(l, l');
      SameParity(l, l', p * h, p * h');
    }
  }

  lemma XorNothing()
    ensures Xor(0, 0) == 0
  {
  }

  lemma Twice(q: nat, p: nat, h: nat)
    requires q == 2 * p
    ensures q * h == 2 * (p * h)
  {
  }

  lemma HalfOf(l: nat, x: nat)
    ensures (l + 2 * x) / 2 == l / 2 + x && (l + 2 * x) % 2 == l % 2
  {
  }

  lemma SameParity(l: nat, l': nat, x: nat, y: nat)
    ensures ((l + 2 * x) + (l' + 2 * y)) % 2 == (l + l') % 2
  {
  }

  lemma {:induction false} SplitCount(l: nat, h: nat, n: nat)
    requires l < Pow2(n)
    ensures PopCount(l + Pow2(n) * h) == PopCount(l) + PopCount(h)
    decreases n
  {
    hide *;
    if n == 0 {
      One();
      CountNothing();
    } else {
      var p := Pow2(n - 1);
      Double(n - 1);
      SplitCount(l / 2, h, n - 1);
      Twice(Pow2(n), p, h);
      CountOne(l + Pow2(n) * h);
      CountOne(l);
      HalfOf(l, p * h);
    }
  }

  lemma CountNothing()
    ensures PopCount(0) == 0
  {
  }

  // The bits of a word are those of its bytes.
  lemma {:induction false} WordDistance(x: Bytes, y: Bytes)
    requires |x| == |y|
    ensures PopCount(Xor(GetLE(x), GetLE(y))) == Upto(x, y, |x|)
  {
    hide *;
    if x == [] {
      XorNothing();
      CountNothing();
      NothingYet(x, y);
      NoBytes(x);
      NoBytes(y);
    } else {
      var l: nat, l': nat, h, h' := x[0], y[0], GetLE(x[1..]), GetLE(y[1..]);
      WordDistance(x[1..], y[1..]);
      FirstOut(x, y, |x|);
      FirstByte(x);
      FirstByte(y);
      Powers();
      SplitXor(l, h, l', h', 8);
      XorBound(l, l', 8);
      SplitCount(Xor(l, l'), Xor(h, h'), 8);
      ByteBits(x[0], y[0]);
    }
  }

  lemma NoBytes(x: Bytes)
    ensures x == [] ==> GetLE(x) == 0
  {
  }

  lemma FirstByte(x: Bytes)
    requires x != []
    ensures GetLE(x) == x[0] + 256 * GetLE(x[1..])
  {
  }

  lemma ByteBits(a: byte, b: byte)
    ensures ByteDistance(a, b) == PopCount(Xor(a, b))
  {
  }

  lemma {:induction false} FirstOut(x: Bytes, y: Bytes, n: nat)
    requires 0 < n <= |x| == |y|
    ensures Upto(x, y, n) == ByteDistance(x[0], y[0]) + Upto(x[1..], y[1..], n - 1)
  {
    hide ByteDistance;
    if n > 1 { FirstOut(x, y, n - 1); }
  }

  // A stretch of equal length in the middle of both.
  lemma {:induction false} Stretch(a: Bytes, b: Bytes, at: nat, n: nat)
    requires at + n <= |a| && at + n <= |b|
    ensures Upto(a, b, at + n) == Upto(a, b, at) + Upto(a[at..at + n], b[at..at + n], n)
  {
    hide ByteDistance;
    if n > 0 {
      Stretch(a, b, at, n - 1);
      SamePrefix(a[at..at + n], b[at..at + n], n - 1);
      assert a[at..at + n][..n - 1] == a[at..at + n - 1] && b[at..at + n][..n - 1] == b[at..at + n - 1];
      UptoUnfold(a, b, at + n);
      UptoUnfold(a[at..at + n], b[at..at + n], n);
      hide Upto;
    }
  }

  lemma {:induction false} SamePrefix(a: Bytes, b: Bytes, n: nat)
    requires n <= |a| && n <= |b|
    ensures Upto(a, b, n) == Upto(a[..n], b[..n], n)
  {
    PrefixAt(a, b, n, n);
  }

  lemma {:induction false} PrefixAt(a: Bytes, b: Bytes, n: nat, k: nat)
    requires k <= n && n <= |a| && n <= |b|
    ensures Upto(a, b, k) == Upto(a[..n], b[..n], k)
  {
    hide ByteDistance;
    if k > 0 { PrefixAt(a, b, n, k - 1); }
  }

  // bits.OnesCount64 of two words read at the same place.
  function WordBits(a: Bytes, b: Bytes, at: nat): nat
    requires at + 8 <= |a| && at + 8 <= |b|
  {
    PopCount(Xor(GetU64(a[at..at + 8]), GetU64(b[at..at + 8])))
  }

  lemma WordCounts(a: Bytes, b: Bytes, at: nat)
    requires at + 8 <= |a| && at + 8 <= |b|
    ensures Upto(a, b, at + 8) == Upto(a, b, at) + WordBits(a, b, at)
  {
    Stretch(a, b, at, 8);
    WordDistance(a[at..at + 8], b[at..at + 8]);
    hide Upto, Xor, PopCount, GetLE;
  }

  // ----- the two loops ---------------------------------------------------------------------------

  // The bytes after the last whole word, and those one side lacks.
  method Finish(a: Bytes, b: Bytes, from: nat, dist0: nat) returns (dist: nat)
    requires from <= Min(|a|, |b|) && dist0 == Upto(a, b, from)
    ensures dist == Distance(a, b)
  {
    hide Upto, ByteDistance;
    dist := dist0;
    var minLen := if |b| < |a| then |b| else |a|;
    for i := from to minLen
      invariant dist == Upto(a, b, i)
    {
      UptoUnfold(a, b, i + 1);
      dist := dist + ByteDistance(a[i], b[i]);
    }
    Missing(a, b, Max(|a|, |b|));
    if |a| != |b| {
      dist := dist + (if |a| >= |b| then |a| - |b| else |b| - |a|) * 8;
    }
  }

  method HammingDistance(a: Bytes, b: Bytes) returns (dist: nat)
    ensures dist == Distance(a, b)
  {
    hide Upto, WordBits, Distance;
    dist := 0;
    var minLen := if |b| < |a| then |b| else |a|;
    var blocks := minLen / 8;
    NothingYet(a, b);
    for i := 0 to blocks
      invariant dist == Upto(a, b, i * 8)
    {
      WordCounts(a, b, i * 8);
      dist := dist + WordBits(a, b, i * 8);
    }
    dist := Finish(a, b, blocks * 8, dist);
  }

  method HammingDistanceSimd(a: Bytes, b: Bytes) returns (dist: nat)
    ensures dist == Distance(a, b)
  {
    hide Upto, WordBits, Distance;
    dist := 0;
    var minLen := if |b| < |a| then |b| else |a|;
    var blocks32 := minLen / 32;
    NothingYet(a, b);
    for i := 0 to blocks32
      invariant dist == Upto(a, b, i * 32)
    {
      var offset := i * 32;
      WordCounts(a, b, offset);
      WordCounts(a, b, offset + 8);
      WordCounts(a, b, offset + 16);
      WordCounts(a, b, offset + 24);
      dist := dist + (WordBits(a, b, offset) + WordBits(a, b, offset + 8) + WordBits(a, b, offset + 16) + WordBits(a, b, offset + 24));
    }
    var remStart := blocks32 * 32;
    var blocks8 := (minLen - remStart) / 8;
    for i := 0 to blocks8
      invariant dist == Upto(a, b, remStart + i * 8)
    {
      WordCounts(a, b, remStart + i * 8);
      dist := dist + WordBits(a, b, remStart + i * 8);
    }
    dist := Finish(a, b, remStart + blocks8 * 8, dist);
  }

  lemma NothingYet(a: Bytes, b: Bytes)
    ensures Upto(a, b, 0) == 0
  {
  }
}
