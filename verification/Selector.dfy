// Choosing the codewords of a brain (internal/trainer/selector.go): greedy by
// count, under a cap on the whole and a cap on each bucket.
module Selector {
  import opened Common

  const NUM_BUCKETS: nat := 0x1_0000

  datatype PatternEntry = PatternEntry(hash: u64, count: u32, data: Option<Bytes>, first: u64, bucket: u16)

  // The data of an entry may not have been read back yet; then its stored bucket counts.
  function BucketOf(e: PatternEntry): u16 {
    if e.data.Some? then ComputeLshBucket(e.data.value) else e.bucket
  }

  function ComputeLshBucket(data: Bytes): u16 {
    if |data| >= 2 then
      var low: nat, high: nat := data[0], data[1];
      low + 256 * high
    else 0
  }

  // Entries whose data are there share a bucket exactly if their first two bytes
  // are the same; shorter ones are in bucket 0, and without data the stored one counts.
  lemma SharedBucket(e: PatternEntry, f: PatternEntry)
    ensures e.data.None? ==> BucketOf(e) == e.bucket
    ensures e.data.Some? && |e.data.value| < 2 ==> BucketOf(e) == 0
    ensures e.data.Some? && f.data.Some? && |e.data.value| >= 2 && |f.data.value| >= 2 ==>
              (BucketOf(e) == BucketOf(f) <==> e.data.value[..2] == f.data.value[..2])
  {
    if e.data.Some? && f.data.Some? && |e.data.value| >= 2 && |f.data.value| >= 2 {
      var a, b := e.data.value[..2], f.data.value[..2];
      assert a == b <==> a[0] == b[0] && a[1] == b[1];
    }
  }

  // ----- counting --------------------------------------------------------------------

  // How many of the first n entries lie in a bucket and count at least v.
  ghost function Among(s: seq<PatternEntry>, n: nat, b: nat, v: nat): nat
    requires n <= |s|
  {
    if n == 0 then 0 else Among(s, n - 1, b, v) + if BucketOf(s[n - 1]) == b && s[n - 1].count >= v then 1 else 0
  }

  // The same over all buckets.
  ghost function AtLeast(s: seq<PatternEntry>, n: nat, v: nat): nat
    requires n <= |s|
  {
    if n == 0 then 0 else AtLeast(s, n - 1, v) + if s[n - 1].count >= v then 1 else 0
  }

  ghost function Sum(s: seq<PatternEntry>, n: nat): nat
    requires n <= |s|
  {
    if n == 0 then 0 else Sum(s, n - 1) + s[n - 1].count
  }

  // How many entries count at least 1, at least 2, and so on up to m.
  ghost function Levels(s: seq<PatternEntry>, n: nat, m: nat): nat
    requires n <= |s|
  {
    if m == 0 then 0 else Levels(s, n, m - 1) + AtLeast(s, n, m)
  }

  ghost function Spread(s: seq<PatternEntry>, n: nat, v: nat, buckets: nat): nat
    requires n <= |s|
  {
    if buckets == 0 then 0 else Spread(s, n, v, buckets - 1) + Among(s, n, buckets - 1, v)
  }

  lemma {:induction false} SpreadStep(s: seq<PatternEntry>, n: nat, v: nat, buckets: nat)
    requires n < |s|
    ensures Spread(s, n + 1, v, buckets) ==
            Spread(s, n, v, buckets) + if BucketOf(s[n]) < buckets && s[n].count >= v then 1 else 0
  {
    hide BucketOf;
    if buckets > 0 { SpreadStep(s, n, v, buckets - 1); }
  }

  lemma {:induction false} SpreadNone(s: seq<PatternEntry>, v: nat, buckets: nat)
    ensures Spread(s, 0, v, buckets) == 0
  {
    if buckets > 0 { SpreadNone(s, v, buckets - 1); }
  }

  // Every entry lies in exactly one bucket.
  lemma {:induction false} SpreadIsAll(s: seq<PatternEntry>, n: nat, v: nat)
    requires n <= |s|
    ensures Spread(s, n, v, NUM_BUCKETS) == AtLeast(s, n, v)
  {
    hide BucketOf, Spread;
    if n == 0 {
      SpreadNone(s, v, NUM_BUCKETS);
    } else {
      SpreadIsAll(s, n - 1, v);
      SpreadStep(s, n - 1, v, NUM_BUCKETS);
    }
  }

  lemma {:induction false} SpreadMonotone(s: seq<PatternEntry>, t: seq<PatternEntry>, v: nat, buckets: nat)
    requires forall b :: 0 <= b < buckets ==> Among(s, |s|, b, v) <= Among(t, |t|, b, v)
    ensures Spread(s, |s|, v, buckets) <= Spread(t, |t|, v, buckets)
  {
    if buckets > 0 { SpreadMonotone(s, t, v, buckets - 1); }
  }

  lemma {:induction false} LevelStep(s: seq<PatternEntry>, n: nat, m: nat)
    requires n < |s|
    ensures Levels(s, n + 1, m) == Levels(s, n, m) + if s[n].count < m then s[n].count else m
  {
    if m > 0 { LevelStep(s, n, m - 1); }
  }

  lemma {:induction false} LevelNone(s: seq<PatternEntry>, m: nat)
    ensures Levels(s, 0, m) == 0
  {
    if m > 0 { LevelNone(s, m - 1); }
  }

  // A sum of counts, level by level.
  lemma {:induction false} SumByLevels(s: seq<PatternEntry>, n: nat)
    requires n <= |s|
    ensures Sum(s, n) == Levels(s, n, TWO_TO_32)
  {
    hide Levels;
    if n == 0 {
      LevelNone(s, TWO_TO_32);
    } else {
      SumByLevels(s, n - 1);
      LevelStep(s, n - 1, TWO_TO_32);
    }
  }

  lemma {:induction false} LevelsMonotone(s: seq<PatternEntry>, t: seq<PatternEntry>, m: nat)
    requires forall v :: 1 <= v <= m ==> AtLeast(s, |s|, v) <= AtLeast(t, |t|, v)
    ensures Levels(s, |s|, m) <= Levels(t, |t|, m)
  {
    if m > 0 { LevelsMonotone(s, t, m - 1); }
  }

  // ----- sub-multisets ------------------------------------------------------------------

  lemma {:induction false} AmongSplit(a: seq<PatternEntry>, c: seq<PatternEntry>, n: nat, b: nat, v: nat)
    requires n <= |c|
    ensures Among(a + c, |a| + n, b, v) == Among(a, |a|, b, v) + Among(c, n, b, v)
  {
    hide BucketOf;
    if n == 0 {
      AmongPrefix(a, c, |a|, b, v);
    } else {
      AmongSplit(a, c, n - 1, b, v);
      assert (a + c)[|a| + n - 1] == c[n - 1];
    }
  }

  lemma {:induction false} AmongPrefix(a: seq<PatternEntry>, c: seq<PatternEntry>, n: nat, b: nat, v: nat)
    requires n <= |a|
    ensures Among(a + c, n, b, v) == Among(a, n, b, v)
  {
    hide BucketOf;
    if n > 0 { AmongPrefix(a, c, n - 1, b, v); }
  }

  // Taking the last entry of t out of both.
  lemma TakeOut(t: seq<PatternEntry>, s: seq<PatternEntry>) returns (j: nat)
    requires t != [] && multiset(t) <= multiset(s)
    ensures j < |s| && s[j] == t[|t| - 1] && multiset(s[..j] + s[j + 1..]) == multiset(s) - multiset{s[j]}
    ensures multiset(t[..|t| - 1]) == multiset(t) - multiset{s[j]} && multiset(t[..|t| - 1]) <= multiset(s[..j] + s[j + 1..])
    ensures t == t[..|t| - 1] + [s[j]] && s == s[..j] + ([s[j]] + s[j + 1..])
  {
    LastOut(t);
    j := Where(s, t[|t| - 1]);
    RemoveAt(s, j);
  }

  lemma LastOut(t: seq<PatternEntry>)
    requires t != []
    ensures t == t[..|t| - 1] + [t[|t| - 1]] && multiset(t) == multiset(t[..|t| - 1]) + multiset{t[|t| - 1]}
  {
    var n := |t| - 1;
    assert t == t[..n] + [t[n]];
  }

  lemma Where(s: seq<PatternEntry>, x: PatternEntry) returns (j: nat)
    requires x in multiset(s)
    ensures j < |s| && s[j] == x
  {
    j :| 0 <= j < |s| && s[j] == x;
  }

  lemma RemoveAt(s: seq<PatternEntry>, j: nat)
    requires j < |s|
    ensures s == s[..j] + ([s[j]] + s[j + 1..]) && multiset(s) == multiset(s[..j] + s[j + 1..]) + multiset{s[j]}
  {
    var left, right := s[..j], s[j + 1..];
    assert s == left + ([s[j]] + right);
    assert multiset([s[j]] + right) == multiset{s[j]} + multiset(right);
  }

  // A part of the entries has no more in any bucket, at any level.
  lemma {:induction false} AmongSubset(t: seq<PatternEntry>, s: seq<PatternEntry>, b: nat, v: nat)
    requires multiset(t) <= multiset(s)
    ensures Among(t, |t|, b, v) <= Among(s, |s|, b, v)
    decreases |t|
  {
    hide BucketOf;
    if t != [] {
      var j := TakeOut(t, s);
      var x, rest, left, right := s[j], t[..|t| - 1], s[..j], s[j + 1..];
      AmongSubset(rest, left + right, b, v);
      AmongSplit(left, right, |right|, b, v);
      AmongSplit(left, [x] + right, |right| + 1, b, v);
      AmongSplit([x], right, |right|, b, v);
      AmongSplit(rest, [x], 1, b, v);
      assert Among([x], 1, b, v) == Among([x], 0, b, v) + if BucketOf(x) == b && x.count >= v then 1 else 0;
    }
  }

  lemma {:induction false} AmongLevels(s: seq<PatternEntry>, n: nat, b: nat, v: nat)
    requires n <= |s|
    ensures Among(s, n, b, v) <= Among(s, n, b, 0) && AtLeast(s, n, v) <= n
  {
    hide BucketOf;
    if n > 0 { AmongLevels(s, n - 1, b, v); }
  }

  // ----- the greedy choice -------------------------------------------------------------------

  ghost predicate Descending(s: seq<PatternEntry>) {
    forall i, j :: 0 <= i < j < |s| ==> s[i].count >= s[j].count
  }

  // What is picked from the first n entries.
  function Picked(s: seq<PatternEntry>, n: nat, max: nat, cap: nat): (p: seq<PatternEntry>)
    requires n <= |s|
  {
    if n == 0 then []
    else
      var p, e := Picked(s, n - 1, max, cap), s[n - 1];
      if |p| >= max || InBucket(p, BucketOf(e)) >= cap then p else p + [e]
  }

  function InBucket(p: seq<PatternEntry>, b: u16): nat {
    if p == [] then 0 else InBucket(p[..|p| - 1], b) + if BucketOf(p[|p| - 1]) == b then 1 else 0
  }

  lemma {:induction false} InBucketIsAmong(p: seq<PatternEntry>, b: u16)
    ensures InBucket(p, b) == Among(p, |p|, b, 0)
  {
    hide BucketOf;
    if p != [] {
      var rest, x := p[..|p| - 1], p[|p| - 1];
      InBucketIsAmong(rest, b);
      AmongPrefix(rest, [x], |rest|, b, 0);
      assert rest + [x] == p;
    }
  }

  lemma AmongAppend(p: seq<PatternEntry>, x: PatternEntry, b: nat, v: nat)
    ensures Among(p + [x], |p| + 1, b, v) == Among(p, |p|, b, v) + if BucketOf(x) == b && x.count >= v then 1 else 0
  {
    hide BucketOf;
    AmongPrefix(p, [x], |p|, b, v);
  }

  // The picks keep both caps, come from the entries, and fill every bucket as far
  // as its cap and its entries allow, unless the whole is full.
  lemma {:induction false} GreedyFills(s: seq<PatternEntry>, n: nat, max: nat, cap: nat, b: nat)
    requires n <= |s| && b < NUM_BUCKETS
    ensures var p := Picked(s, n, max, cap);
            && |p| <= max && |p| <= n && Among(p, |p|, b, 0) <= cap
            && (|p| == max || Among(p, |p|, b, 0) == Min(cap, Among(s, n, b, 0)))
  {
    hide BucketOf, InBucket;
    if n > 0 {
      GreedyFills(s, n - 1, max, cap, b);
      var p, e := Picked(s, n - 1, max, cap), s[n - 1];
      InBucketIsAmong(p, BucketOf(e));
      AmongAppend(p, e, b, 0);
    }
  }

  // Among entries that all count at least v, the level makes no difference.
  lemma {:induction false} AllAtLevel(s: seq<PatternEntry>, k: nat, max: nat, cap: nat, b: nat, v: nat)
    requires k <= |s| && forall i :: 0 <= i < k ==> s[i].count >= v
    ensures var q := Picked(s, k, max, cap);
            Among(q, |q|, b, v) == Among(q, |q|, b, 0) && AtLeast(q, |q|, v) == |q|
    ensures Among(s, k, b, v) == Among(s, k, b, 0)
  {
    hide BucketOf, InBucket;
    if k > 0 {
      AllAtLevel(s, k - 1, max, cap, b, v);
      var q, e := Picked(s, k - 1, max, cap), s[k - 1];
      AmongAppend(q, e, b, v);
      AmongAppend(q, e, b, 0);
      AtLeastAppend(q, e, v);
      hide AtLeast;
    }
  }

  // In descending order the picks at a level are those made before it ends.
  lemma {:induction false} LevelPicks(s: seq<PatternEntry>, k: nat, n: nat, max: nat, cap: nat, b: nat, v: nat)
    requires k <= n <= |s|
    requires forall i :: 0 <= i < k ==> s[i].count >= v
    requires forall i :: k <= i < n ==> s[i].count < v
    ensures var p, q := Picked(s, n, max, cap), Picked(s, k, max, cap);
            && Among(p, |p|, b, v) == Among(q, |q|, b, 0) && AtLeast(p, |p|, v) == |q|
            && Among(s, n, b, v) == Among(s, k, b, 0)
  {
    hide BucketOf, InBucket;
    if n == k {
      AllAtLevel(s, k, max, cap, b, v);
      hide Picked, Among, AtLeast;
    } else {
      LevelPicks(s, k, n - 1, max, cap, b, v);
      var p, e := Picked(s, n - 1, max, cap), s[n - 1];
      AmongAppend(p, e, b, v);
      AtLeastAppend(p, e, v);
      hide AtLeast;
    }
  }

  lemma AtLeastAppend(p: seq<PatternEntry>, x: PatternEntry, v: nat)
    ensures AtLeast(p + [x], |p| + 1, v) == AtLeast(p, |p|, v) + if x.count >= v then 1 else 0
  {
    AtLeastPrefix(p, [x], |p|, v);
  }

  lemma {:induction false} AtLeastPrefix(a: seq<PatternEntry>, c: seq<PatternEntry>, n: nat, v: nat)
    requires n <= |a|
    ensures AtLeast(a + c, n, v) == AtLeast(a, n, v)
  {
    if n > 0 { AtLeastPrefix(a, c, n - 1, v); }
  }

  // Where the entries that count at least v end.
  ghost function LevelEnd(s: seq<PatternEntry>, v: nat, n: nat): (k: nat)
    requires n <= |s| && Descending(s) && forall i :: n <= i < |s| ==> s[i].count < v
    ensures k <= n && (forall i :: 0 <= i < k ==> s[i].count >= v) && forall i :: k <= i < |s| ==> s[i].count < v
  {
    if n == 0 then 0 else if s[n - 1].count >= v then n else LevelEnd(s, v, n - 1)
  }

  // No bucket has more than cap entries.
  ghost predicate BucketsWithin(t: seq<PatternEntry>, cap: nat) {
    forall b :: 0 <= b < NUM_BUCKETS ==> Among(t, |t|, b, 0) <= cap
  }

  // A choice of entries that keeps the caps.
  ghost predicate Allowed(all: seq<PatternEntry>, t: seq<PatternEntry>, max: nat, cap: nat) {
    multiset(t) <= multiset(all) && |t| <= max && BucketsWithin(t, cap)
  }

  // At every level the greedy choice has at least as many entries as any other.
  lemma LevelOptimal(s: seq<PatternEntry>, t: seq<PatternEntry>, max: nat, cap: nat, v: nat)
    requires Descending(s) && Allowed(s, t, max, cap)
    ensures var p := Picked(s, |s|, max, cap); AtLeast(t, |t|, v) <= AtLeast(p, |p|, v)
  {
    hide Among, AtLeast, Picked, BucketOf, Spread;
    var k := LevelEnd(s, v, |s|);
    var p, q := Picked(s, |s|, max, cap), Picked(s, k, max, cap);
    LevelPicks(s, k, |s|, max, cap, 0, v);
    GreedyFills(s, k, max, cap, 0);
    AmongLevels(t, |t|, 0, v);
    if |q| < max {
      forall b | 0 <= b < NUM_BUCKETS
        ensures Among(t, |t|, b, v) <= Among(p, |p|, b, v)
      {
        LevelPicks(s, k, |s|, max, cap, b, v);
        GreedyFills(s, k, max, cap, b);
        AmongSubset(t, s, b, v);
        AmongLevels(t, |t|, b, v);
      }
      SpreadMonotone(t, p, v, NUM_BUCKETS);
      SpreadIsAll(t, |t|, v);
      SpreadIsAll(p, |p|, v);
    }
  }

  // No choice within the caps has a larger sum of counts.
  lemma GreedyIsOptimal(s: seq<PatternEntry>, t: seq<PatternEntry>, max: nat, cap: nat)
    requires Descending(s) && Allowed(s, t, max, cap)
    ensures var p := Picked(s, |s|, max, cap); Sum(t, |t|) <= Sum(p, |p|)
  {
    hide Descending, Allowed, Picked, AtLeast, Levels, Sum;
    var p := Picked(s, |s|, max, cap);
    forall v | 1 <= v <= TWO_TO_32
      ensures AtLeast(t, |t|, v) <= AtLeast(p, |p|, v)
    {
      LevelOptimal(s, t, max, cap, v);
    }
    LevelsMonotone(t, p, TWO_TO_32);
    SumByLevels(t, |t|);
    SumByLevels(p, |p|);
  }

  // The picks are entries, each at most as often as it is there.
  lemma {:induction false} PickedFrom(s: seq<PatternEntry>, n: nat, max: nat, cap: nat)
    requires n <= |s|
    ensures multiset(Picked(s, n, max, cap)) <= multiset(s[..n])
  {
    hide BucketOf, InBucket;
    if n > 0 {
      PickedFrom(s, n - 1, max, cap);
      assert s[..n] == s[..n - 1] + [s[n - 1]];
    }
  }

  lemma GreedyIsAllowed(s: seq<PatternEntry>, max: nat, cap: nat)
    ensures Allowed(s, Picked(s, |s|, max, cap), max, cap)
  {
    hide Among, Picked;
    PickedFrom(s, |s|, max, cap);
    assert s[..|s|] == s;
    GreedyFills(s, |s|, max, cap, 0);
    forall b | 0 <= b < NUM_BUCKETS
      ensures Among(Picked(s, |s|, max, cap), |Picked(s, |s|, max, cap)|, b, 0) <= cap
    {
      GreedyFills(s, |s|, max, cap, b);
    }
  }

  // ----- order plays no part ------------------------------------------------------------------

  lemma {:induction false} SumSplit(a: seq<PatternEntry>, c: seq<PatternEntry>, n: nat)
    requires n <= |c|
    ensures Sum(a + c, |a| + n) == Sum(a, |a|) + Sum(c, n)
  {
    if n == 0 {
      SumPrefix(a, c, |a|);
    } else {
      SumSplit(a, c, n - 1);
      assert (a + c)[|a| + n - 1] == c[n - 1];
    }
  }

  lemma {:induction false} SumPrefix(a: seq<PatternEntry>, c: seq<PatternEntry>, n: nat)
    requires n <= |a|
    ensures Sum(a + c, n) == Sum(a, n)
  {
    if n > 0 { SumPrefix(a, c, n - 1); }
  }

  lemma {:induction false} SumReordered(t: seq<PatternEntry>, s: seq<PatternEntry>)
    requires multiset(t) == multiset(s)
    ensures Sum(t, |t|) == Sum(s, |s|)
    decreases |t|
  {
    if t == [] {
      assert |multiset(s)| == 0;
    } else {
      var j := TakeOut(t, s);
      var x, rest, left, right := s[j], t[..|t| - 1], s[..j], s[j + 1..];
      SumReordered(rest, left + right);
      SumWithout(rest, [x], []);
      SumWithout(left, [x], right);
      SumOne(x);
      hide Sum;
      assert rest + [] == rest && [x] + [] == [x];
    }
  }

  lemma SumWithout(left: seq<PatternEntry>, middle: seq<PatternEntry>, right: seq<PatternEntry>)
    ensures var s := left + (middle + right); Sum(s, |s|) == Sum(left + right, |left + right|) + Sum(middle, |middle|)
  {
    hide Sum;
    SumSplit(left, right, |right|);
    SumSplit(left, middle + right, |middle + right|);
    SumSplit(middle, right, |right|);
  }

  lemma SumOne(x: PatternEntry)
    ensures Sum([x], 1) == x.count
  {
    assert Sum([x], 0) == 0;
  }

  lemma AllowedReordered(all: seq<PatternEntry>, all': seq<PatternEntry>, t: seq<PatternEntry>, t': seq<PatternEntry>, max: nat, cap: nat)
    requires Allowed(all, t, max, cap) && multiset(all) == multiset(all') && multiset(t) == multiset(t')
    ensures Allowed(all', t', max, cap)
  {
    hide Among;
    assert |multiset(t)| == |t| && |multiset(t')| == |t'|;
    forall b | 0 <= b < NUM_BUCKETS
      ensures Among(t', |t'|, b, 0) <= cap
    {
      AmongSubset(t', t, b, 0);
    }
  }

  // ----- sorting ----------------------------------------------------------------------------

  function InsertByCount(s: seq<PatternEntry>, e: PatternEntry): seq<PatternEntry> {
    if s == [] || e.count >= s[0].count then [e] + s else [s[0]] + InsertByCount(s[1..], e)
  }

  lemma {:induction false} InsertedByCount(s: seq<PatternEntry>, e: PatternEntry)
    requires Descending(s)
    ensures var r := InsertByCount(s, e);
            && Descending(r) && multiset(r) == multiset(s) + multiset{e} && r != []
            && r[0].count == (if s == [] then e.count else Max(s[0].count, e.count))
  {
    if s == [] || e.count >= s[0].count {
      Prepended(e, s);
    } else {
      var rest := s[1..];
      assert Descending(rest);
      InsertedByCount(rest, e);
      assert s == [s[0]] + rest;
      assert rest != [] ==> s[0].count >= rest[0].count;
      hide Descending;
      Prepended(s[0], InsertByCount(rest, e));
    }
  }

  lemma Prepended(x: PatternEntry, s: seq<PatternEntry>)
    requires Descending(s) && (s != [] ==> x.count >= s[0].count)
    ensures Descending([x] + s)
  {
  }

  // sort.Slice by descending count: some such order, ties in any order at all.
  method SortByCount(all: seq<PatternEntry>) returns (s: seq<PatternEntry>)
    ensures Descending(s) && multiset(s) == multiset(all)
  {
    s := [];
    for i := 0 to |all|
      invariant Descending(s) && multiset(s) == multiset(all[..i])
    {
      InsertedByCount(s, all[i]);
      hide Descending;
      s := InsertByCount(s, all[i]);
      assert all[..i + 1] == all[..i] + [all[i]];
    }
    assert all[..|all|] == all;
  }

  function InsertByFirst(s: seq<PatternEntry>, e: PatternEntry): seq<PatternEntry> {
    if s == [] || s[|s| - 1].first <= e.first then s + [e] else InsertByFirst(s[..|s| - 1], e) + [s[|s| - 1]]
  }

  ghost predicate Ascending(s: seq<PatternEntry>) {
    forall i, j :: 0 <= i < j < |s| ==> s[i].first <= s[j].first
  }

  // The entries with one position, in their order.
  ghost function OfFirst(s: seq<PatternEntry>, f: u64): seq<PatternEntry> {
    if s == [] then [] else OfFirst(s[..|s| - 1], f) + if s[|s| - 1].first == f then [s[|s| - 1]] else []
  }

  lemma {:induction false} InsertedByFirst(s: seq<PatternEntry>, e: PatternEntry)
    requires Ascending(s)
    ensures var r := InsertByFirst(s, e);
            Ascending(r) && r != [] && r[|r| - 1].first == (if s == [] then e.first else Max(s[|s| - 1].first, e.first))
  {
    if s == [] || s[|s| - 1].first <= e.first {
      Appended(s, e);
    } else {
      var init, last := s[..|s| - 1], s[|s| - 1];
      AscendingInit(s);
      InsertedByFirst(init, e);
      hide Ascending;
      Appended(InsertByFirst(init, e), last);
    }
  }

  lemma AscendingInit(s: seq<PatternEntry>)
    requires Ascending(s) && s != []
    ensures Ascending(s[..|s| - 1]) && (|s| > 1 ==> s[..|s| - 1][|s| - 2].first <= s[|s| - 1].first)
  {
  }

  lemma {:induction false} InsertedMembers(s: seq<PatternEntry>, e: PatternEntry)
    ensures multiset(InsertByFirst(s, e)) == multiset(s) + multiset{e}
  {
    if s != [] && s[|s| - 1].first > e.first {
      InsertedMembers(s[..|s| - 1], e);
      assert s == s[..|s| - 1] + [s[|s| - 1]];
    }
  }

  lemma Appended(s: seq<PatternEntry>, x: PatternEntry)
    requires Ascending(s) && (s != [] ==> s[|s| - 1].first <= x.first)
    ensures Ascending(s + [x])
  {
  }

  lemma {:induction false} InsertedStably(s: seq<PatternEntry>, e: PatternEntry, f: u64)
    ensures OfFirst(InsertByFirst(s, e), f) == OfFirst(s, f) + if e.first == f then [e] else []
  {
    if s == [] || s[|s| - 1].first <= e.first {
      assert (s + [e])[..|s|] == s;
    } else {
      var init, last := s[..|s| - 1], s[|s| - 1];
      InsertedStably(init, e, f);
      var r := InsertByFirst(init, e);
      assert (r + [last])[..|r|] == r;
    }
  }

  lemma OfFirstAppend(s: seq<PatternEntry>, e: PatternEntry, f: u64)
    ensures OfFirst(s + [e], f) == OfFirst(s, f) + if e.first == f then [e] else []
  {
    assert (s + [e])[..|s|] == s;
  }

  // sort.SliceStable by first occurrence: entries of one position keep their order.
  method SortByFirst(picked: seq<PatternEntry>) returns (s: seq<PatternEntry>)
    ensures Ascending(s) && multiset(s) == multiset(picked) && forall f: u64 :: OfFirst(s, f) == OfFirst(picked, f)
  {
    s := [];
    for i := 0 to |picked|
      invariant Ascending(s) && multiset(s) == multiset(picked[..i])
      invariant forall f: u64 :: OfFirst(s, f) == OfFirst(picked[..i], f)
    {
      assert picked[..i + 1] == picked[..i] + [picked[i]];
      InsertedByFirst(s, picked[i]);
      InsertedMembers(s, picked[i]);
      hide Ascending, OfFirst;
      forall f: u64
        ensures OfFirst(InsertByFirst(s, picked[i]), f) == OfFirst(picked[..i + 1], f)
      {
        InsertedStably(s, picked[i], f);
        OfFirstAppend(picked[..i], picked[i], f);
      }
      s := InsertByFirst(s, picked[i]);
    }
    assert picked[..|picked|] == picked;
  }

  // ----- the selection -------------------------------------------------------------------------

  // bucketCount holds the number of picks of every bucket.
  ghost predicate Counted(bucketCount: map<u16, nat>, picked: seq<PatternEntry>) {
    forall b: u16 :: InBucket(picked, b) == if b in bucketCount then bucketCount[b] else 0
  }

  lemma CountedMore(bucketCount: map<u16, nat>, picked: seq<PatternEntry>, e: PatternEntry)
    requires Counted(bucketCount, picked)
    ensures Counted(bucketCount[BucketOf(e) := InBucket(picked, BucketOf(e)) + 1], picked + [e])
  {
    hide BucketOf;
    assert (picked + [e])[..|picked|] == picked;
  }

  // The entries picked greedily, for some descending order of the table.
  method Pick(sorted: seq<PatternEntry>, maxCodewords: nat, cap: nat) returns (picked: seq<PatternEntry>)
    ensures picked == Picked(sorted, |sorted|, maxCodewords, cap)
  {
    hide BucketOf, InBucket;
    picked := [];
    var bucketCount: map<u16, nat> := map[];
    NoneCounted();
    var i := 0;
    while i < |sorted|
      invariant i <= |sorted| && picked == Picked(sorted, i, maxCodewords, cap)
      invariant Counted(bucketCount, picked)
    {
      if |picked| >= maxCodewords {
        FullStays(sorted, i, |sorted|, maxCodewords, cap);
        return;
      }
      var bucket := BucketOf(sorted[i]);
      var count := if bucket in bucketCount then bucketCount[bucket] else 0;
      if count < cap {
        CountedMore(bucketCount, picked, sorted[i]);
        picked := picked + [sorted[i]];
        bucketCount := bucketCount[bucket := count + 1];
      }
      i := i + 1;
    }
  }

  lemma NoneCounted()
    ensures Counted(map[], [])
  {
  }

  lemma {:induction false} FullStays(s: seq<PatternEntry>, i: nat, n: nat, max: nat, cap: nat)
    requires i <= n <= |s| && |Picked(s, i, max, cap)| >= max
    ensures Picked(s, n, max, cap) == Picked(s, i, max, cap)
  {
    hide BucketOf, InBucket;
    if i < n { FullStays(s, i, n - 1, max, cap); }
  }

  // In no bucket there are more entries than in all.
  lemma {:induction false} AmongAll(s: seq<PatternEntry>, n: nat, b: nat)
    requires n <= |s|
    ensures Among(s, n, b, 0) <= n
  {
    hide BucketOf;
    if n > 0 { AmongAll(s, n - 1, b); }
  }

  // Entries of one position stay in descending order of count.
  ghost predicate CountsDescend(s: seq<PatternEntry>) {
    forall i, j :: 0 <= i < j < |s| && s[i].first == s[j].first ==> s[i].count >= s[j].count
  }

  // Picks stand in the order of the entries.
  lemma {:induction false} PickedDescends(s: seq<PatternEntry>, n: nat, max: nat, cap: nat)
    requires n <= |s| && Descending(s)
    ensures var p := Picked(s, n, max, cap);
            Descending(p) && (p != [] ==> n > 0 && p[|p| - 1].count >= s[n - 1].count)
  {
    hide BucketOf, InBucket;
    if n > 0 { PickedDescends(s, n - 1, max, cap); }
  }

  lemma {:induction false} OneOfFirst(s: seq<PatternEntry>, j: nat) returns (b: nat)
    requires j < |s|
    ensures b < |OfFirst(s, s[j].first)| && OfFirst(s, s[j].first)[b] == s[j]
  {
    var f, n := s[j].first, |s| - 1;
    if j < n {
      b := OneOfFirst(s[..n], j);
    } else {
      b := |OfFirst(s[..n], f)|;
    }
  }

  lemma {:induction false} TwoOfFirst(s: seq<PatternEntry>, i: nat, j: nat) returns (a: nat, b: nat)
    requires i < j < |s| && s[i].first == s[j].first
    ensures a < b < |OfFirst(s, s[j].first)| && OfFirst(s, s[j].first)[a] == s[i] && OfFirst(s, s[j].first)[b] == s[j]
  {
    var f, n := s[j].first, |s| - 1;
    if j < n {
      a, b := TwoOfFirst(s[..n], i, j);
    } else {
      a := OneOfFirst(s[..n], i);
      b := |OfFirst(s[..n], f)|;
    }
  }

  lemma {:induction false} OfFirstDescends(s: seq<PatternEntry>, f: u64)
    requires Descending(s)
    ensures Descending(OfFirst(s, f)) && forall e :: e in OfFirst(s, f) ==> e in s
  {
    if s != [] {
      var n := |s| - 1;
      OfFirstDescends(s[..n], f);
      assert s == s[..n] + [s[n]];
      forall e | e in s[..n]
        ensures e.count >= s[n].count
      {
        var i :| 0 <= i < n && s[..n][i] == e;
        assert s[i] == e;
      }
    }
  }

  lemma StillDescending(picked: seq<PatternEntry>, r: seq<PatternEntry>)
    requires Descending(picked) && forall f: u64 :: OfFirst(r, f) == OfFirst(picked, f)
    ensures CountsDescend(r)
  {
    hide OfFirst;
    forall i, j | 0 <= i < j < |r| && r[i].first == r[j].first
      ensures r[i].count >= r[j].count
    {
      OfFirstDescends(picked, r[j].first);
      var a, b := TwoOfFirst(r, i, j);
    }
  }

  // The best selection under the caps, in reading order, whatever the order of
  // the table and of the ties. A cap of zero or less for the buckets is none.
  method SelectPicked(all: seq<PatternEntry>, maxCodewords: nat, maxPerBucket: int) returns (r: seq<PatternEntry>)
    ensures multiset(r) <= multiset(all) && |r| <= maxCodewords
    ensures maxPerBucket > 0 ==> BucketsWithin(r, maxPerBucket)
    ensures maxPerBucket <= 0 ==>
              forall t :: multiset(t) <= multiset(all) && |t| <= maxCodewords ==> Sum(t, |t|) <= Sum(r, |r|)
    ensures maxPerBucket > 0 ==>
              forall t :: multiset(t) <= multiset(all) && |t| <= maxCodewords && BucketsWithin(t, maxPerBucket) ==> Sum(t, |t|) <= Sum(r, |r|)
    ensures Ascending(r) && CountsDescend(r)
  {
    hide *;
    var sorted := SortByCount(all);
    var cap := if maxPerBucket <= 0 then maxCodewords else maxPerBucket;
    var picked := Pick(sorted, maxCodewords, cap);
    r := SortByFirst(picked);
    PickedDescends(sorted, |sorted|, maxCodewords, cap);
    StillDescending(picked, r);
    GreedyIsAllowed(sorted, maxCodewords, cap);
    AllowedReordered(sorted, all, picked, r, maxCodewords, cap);
    AllowedIs(all, r, maxCodewords, cap);
    SumReordered(picked, r);
    forall t | multiset(t) <= multiset(all) && |t| <= maxCodewords && (maxPerBucket > 0 ==> BucketsWithin(t, maxPerBucket))
      ensures Sum(t, |t|) <= Sum(r, |r|)
    {
      if maxPerBucket <= 0 { NoBucketCap(t, cap); }
      AllowedIs(all, t, maxCodewords, cap);
      AllowedReordered(all, sorted, t, t, maxCodewords, cap);
      GreedyIsOptimal(sorted, t, maxCodewords, cap);
    }
  }

  lemma NoBucketCap(t: seq<PatternEntry>, cap: nat)
    requires |t| <= cap
    ensures BucketsWithin(t, cap)
  {
    hide Among;
    forall b | 0 <= b < NUM_BUCKETS
      ensures Among(t, |t|, b, 0) <= cap
    {
      AmongAll(t, |t|, b);
    }
  }

  lemma AllowedIs(all: seq<PatternEntry>, t: seq<PatternEntry>, max: nat, cap: nat)
    ensures Allowed(all, t, max, cap) <==> multiset(t) <= multiset(all) && |t| <= max && BucketsWithin(t, cap)
  {
    hide BucketsWithin;
  }
}
