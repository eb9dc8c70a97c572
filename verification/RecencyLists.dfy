// What a byte-bounded LRU cache holds, as a list with the most recent item first.
module RecencyLists {
  import opened Common

  // Pools are cached by block, chunks by their index; the two never meet.
  datatype Key = PoolKey(block: nat) | ChunkKey(index: nat)
  datatype Item = Item(key: Key, data: Bytes)

  ghost function Total(r: seq<Item>): nat {
    if r == [] then 0 else |r[0].data| + Total(r[1..])
  }

  ghost predicate Distinct(r: seq<Item>) {
    forall i, j :: 0 <= i < j < |r| ==> r[i].key != r[j].key
  }

  ghost function Find(r: seq<Item>, k: Key): Option<Bytes> {
    if r == [] then None else if r[0].key == k then Some(r[0].data) else Find(r[1..], k)
  }

  ghost function Without(r: seq<Item>, k: Key): seq<Item> {
    if r == [] then [] else if r[0].key == k then r[1..] else [r[0]] + Without(r[1..], k)
  }

  // Evicts from the old end until the rest fits.
  ghost function Fit(r: seq<Item>, max: int): seq<Item> {
    if r == [] || Total(r) <= max then r else Fit(r[..|r| - 1], max)
  }

  // What Get and Put make of the recency list.
  ghost function AfterGet(r: seq<Item>, k: Key): seq<Item> {
    var found := Find(r, k);
    if found.None? then r else [Item(k, found.value)] + Without(r, k)
  }

  ghost function AfterPut(r: seq<Item>, k: Key, data: Bytes, max: int): seq<Item> {
    Fit([Item(k, data)] + Without(r, k), max)
  }

  // ----- what eviction leaves -----------------------------------------------------------

  lemma {:induction false} TotalAppend(a: seq<Item>, b: seq<Item>)
    ensures Total(a + b) == Total(a) + Total(b)
  {
    if a == [] {
      assert a + b == b;
    } else {
      assert (a + b)[1..] == a[1..] + b;
      TotalAppend(a[1..], b);
    }
  }

  lemma TotalSplit(r: seq<Item>, n: nat)
    requires n <= |r|
    ensures Total(r) == Total(r[..n]) + Total(r[n..])
  {
    assert r == r[..n] + r[n..];
    TotalAppend(r[..n], r[n..]);
  }

  // Eviction leaves the longest prefix, most recent first, that fits.
  lemma {:induction false} FitIsLongest(r: seq<Item>, max: int, n: nat)
    requires n <= |r|
    ensures |Fit(r, max)| <= |r| && Fit(r, max) == r[..|Fit(r, max)|]
    ensures Fit(r, max) == [] || Total(Fit(r, max)) <= max
    ensures Total(r[..n]) <= max ==> n <= |Fit(r, max)|
  {
    if r == [] || Total(r) <= max {
      assert r[..|r|] == r;
    } else {
      var init := r[..|r| - 1];
      if n == |r| {
        assert r[..n] == r;
        FitIsLongest(init, max, 0);
      } else {
        FitIsLongest(init, max, n);
        assert init[..n] == r[..n];
      }
      assert init[..|Fit(init, max)|] == r[..|Fit(init, max)|];
    }
  }

  // An item too large for the whole cache leaves it empty.
  lemma OversizedEmpties(r: seq<Item>, k: Key, data: Bytes, max: int)
    requires 0 <= max < |data|
    ensures AfterPut(r, k, data, max) == []
  {
    var all := [Item(k, data)] + Without(r, k);
    FitIsLongest(all, max, 0);
    PrefixTotal(all, |Fit(all, max)|);
  }

  // What was looked up or put last is the most recent item, if it fits at all.
  lemma GotIsFirst(r: seq<Item>, k: Key)
    requires Find(r, k).Some?
    ensures AfterGet(r, k) != [] && AfterGet(r, k)[0] == Item(k, Find(r, k).value)
  {
    hide Find, Without;
  }

  lemma PutIsFirst(r: seq<Item>, k: Key, data: Bytes, max: int)
    requires |data| <= max
    ensures AfterPut(r, k, data, max) != [] && AfterPut(r, k, data, max)[0] == Item(k, data)
  {
    var all := [Item(k, data)] + Without(r, k);
    FitIsLongest(all, max, 1);
    assert all[..1][1..] == [] && Total(all[..1]) == |data|;
    hide Fit, Without;
  }

  lemma PrefixTotal(r: seq<Item>, n: nat)
    requires n <= |r| && r != []
    ensures n > 0 ==> Total(r[..n]) >= |r[0].data|
  {
  }

  // ----- lookups over a history -----------------------------------------------------------

  lemma {:induction false} FindPrefix(r: seq<Item>, n: nat, k: Key)
    requires n <= |r|
    ensures Find(r[..n], k).Some? ==> Find(r[..n], k) == Find(r, k)
  {
    if n > 0 {
      assert r[..n][1..] == r[1..][..n - 1];
      FindPrefix(r[1..], n - 1, k);
    }
  }

  lemma {:induction false} FindWithout(r: seq<Item>, k: Key, k': Key)
    requires k != k'
    ensures Find(Without(r, k), k') == Find(r, k')
  {
    if r != [] && r[0].key != k {
      FindWithout(r[1..], k, k');
      assert ([r[0]] + Without(r[1..], k))[1..] == Without(r[1..], k);
    }
  }

  datatype Op = Get(key: Key) | Put(key: Key, data: Bytes)

  ghost function Run(ops: seq<Op>, max: int): seq<Item> {
    if ops == [] then []
    else
      var before, last := Run(ops[..|ops| - 1], max), ops[|ops| - 1];
      match last
      case Get(k) => AfterGet(before, k)
      case Put(k, data) => AfterPut(before, k, data, max)
  }

  ghost function LastPut(ops: seq<Op>, k: Key): Option<Bytes> {
    if ops == [] then None
    else
      var last := ops[|ops| - 1];
      if last.Put? && last.key == k then Some(last.data) else LastPut(ops[..|ops| - 1], k)
  }

  // After any history a hit returns the value last put under the key.
  lemma {:induction false} HitIsLastPut(ops: seq<Op>, max: int, k: Key)
    ensures Find(Run(ops, max), k).Some? ==> Find(Run(ops, max), k) == LastPut(ops, k)
  {
    if ops != [] {
      var init, last := ops[..|ops| - 1], ops[|ops| - 1];
      HitIsLastPut(init, max, k);
      var before := Run(init, max);
      FindAfterGet(before, last.key, k);
      if last.Put? { FindAfterPut(before, last.key, last.data, max, k); }
    }
  }

  lemma FindAfterGet(r: seq<Item>, k: Key, k': Key)
    ensures Find(AfterGet(r, k), k') == Find(r, k')
  {
    if Find(r, k).Some? {
      var front := [Item(k, Find(r, k).value)] + Without(r, k);
      assert front[1..] == Without(r, k);
      if k != k' { FindWithout(r, k, k'); }
    }
  }

  lemma FindAfterPut(r: seq<Item>, k: Key, data: Bytes, max: int, k': Key)
    ensures var found := Find(AfterPut(r, k, data, max), k');
            found.Some? ==> if k == k' then found == Some(data) else found == Find(r, k')
  {
    var front := [Item(k, data)] + Without(r, k);
    assert front[1..] == Without(r, k);
    FitIsLongest(front, max, 0);
    FindPrefix(front, |Fit(front, max)|, k');
    if k != k' { FindWithout(r, k, k'); }
  }

  // ----- keys stay distinct ------------------------------------------------------------------

  lemma {:induction false} WithoutIs(r: seq<Item>, i: nat)
    requires i < |r| && Distinct(r)
    ensures Without(r, r[i].key) == r[..i] + r[i + 1..] && Find(r, r[i].key) == Some(r[i].data)
  {
    if i > 0 {
      assert r[1..][i - 1] == r[i];
      WithoutIs(r[1..], i - 1);
      assert r[1..][..i - 1] == r[1..i] && r[1..][i..] == r[i + 1..];
      assert [r[0]] + (r[1..i] + r[i + 1..]) == r[..i] + r[i + 1..];
    }
  }

  lemma {:induction false} WithoutAbsent(r: seq<Item>, k: Key)
    requires forall i :: 0 <= i < |r| ==> r[i].key != k
    ensures Without(r, k) == r && Find(r, k) == None
  {
    if r != [] { WithoutAbsent(r[1..], k); }
  }

  lemma {:induction false} WithoutKeys(r: seq<Item>, k: Key)
    requires Distinct(r)
    ensures Distinct(Without(r, k)) && forall i :: 0 <= i < |Without(r, k)| ==> Without(r, k)[i].key != k && Without(r, k)[i] in r
  {
    if r != [] && r[0].key != k {
      WithoutKeys(r[1..], k);
    }
  }

  lemma FrontDistinct(r: seq<Item>, k: Key, data: Bytes)
    requires Distinct(r)
    ensures Distinct([Item(k, data)] + Without(r, k))
  {
    WithoutKeys(r, k);
    var front := [Item(k, data)] + Without(r, k);
    forall i, j | 0 <= i < j < |front|
      ensures front[i].key != front[j].key
    {
      assert front[j] == Without(r, k)[j - 1];
      if i > 0 { assert front[i] == Without(r, k)[i - 1]; }
    }
  }

  // Taking an item out takes its size off the total.
  lemma {:induction false} WithoutTotal(r: seq<Item>, k: Key)
    ensures Total(r) == Total(Without(r, k)) + (if Find(r, k).Some? then |Find(r, k).value| else 0)
  {
    if r != [] && r[0].key != k {
      WithoutTotal(r[1..], k);
      assert ([r[0]] + Without(r[1..], k))[1..] == Without(r[1..], k);
    }
  }

  lemma FrontTotal(r: seq<Item>, k: Key, data: Bytes)
    ensures Total([Item(k, data)] + Without(r, k)) == Total(r) + |data| - (if Find(r, k).Some? then |Find(r, k).value| else 0)
  {
    WithoutTotal(r, k);
    assert ([Item(k, data)] + Without(r, k))[1..] == Without(r, k);
  }
}
