// The LRU cache of the random reader (internal/vfs/cache.go).
module Caches {
  import opened Common
  import opened RecencyLists

  // An element of the list. The map leads to the same elements by their keys.
  datatype CacheItem = CacheItem(key: Key, data: Bytes, bytes: nat)

  ghost function Contents(list: seq<CacheItem>): (r: seq<Item>)
    ensures |r| == |list| && forall i :: 0 <= i < |list| ==> r[i] == Item(list[i].key, list[i].data)
  {
    seq(|list|, i requires 0 <= i < |list| => Item(list[i].key, list[i].data))
  }

  // Map and list hold the same items, each with its exact size.
  ghost predicate Linked(items: map<Key, CacheItem>, list: seq<CacheItem>) {
    && (forall k :: k in items ==> items[k] in list && items[k].key == k)
    && (forall e :: e in list ==> e.key in items && items[e.key] == e && e.bytes == |e.data|)
  }

  // The list without element i.
  function Removed(list: seq<CacheItem>, i: nat): seq<CacheItem>
    requires i < |list|
  {
    list[..i] + list[i + 1..]
  }

  // Element i taken out of the list and another item for its key put in front.
  lemma Refronted(items: map<Key, CacheItem>, list: seq<CacheItem>, i: nat, ent: CacheItem)
    requires i < |list| && Linked(items, list) && Distinct(Contents(list)) && ent.key == list[i].key && ent.bytes == |ent.data|
    ensures var after := [ent] + Removed(list, i);
            && Linked(items[ent.key := ent], after) && Distinct(Contents(after))
            && Contents(after) == [Item(ent.key, ent.data)] + Without(Contents(list), ent.key)
            && Total(Contents(after)) == Total(Contents(list)) + ent.bytes - list[i].bytes
            && Find(Contents(list), ent.key) == Some(list[i].data) && list[i].bytes == |list[i].data|
  {
    var r, after := Contents(list), [ent] + Removed(list, i);
    assert list[i] in list;
    WithoutIs(r, i);
    FrontDistinct(r, ent.key, ent.data);
    FrontTotal(r, ent.key, ent.data);
    hide Distinct, Total, Without, Find;
    SameElements(Contents(after), [Item(ent.key, ent.data)] + (r[..i] + r[i + 1..]));
    hide Contents, Removed;
    RemovedLinks(items, list, i, ent);
  }

  lemma RemovedLinks(items: map<Key, CacheItem>, list: seq<CacheItem>, i: nat, ent: CacheItem)
    requires i < |list| && Linked(items, list) && Distinct(Contents(list)) && ent.key == list[i].key && ent.bytes == |ent.data|
    ensures Linked(items[ent.key := ent], [ent] + Removed(list, i))
  {
    var r, after, items' := Contents(list), [ent] + Removed(list, i), items[ent.key := ent];
    forall k | k in items'
      ensures items'[k] in after && items'[k].key == k
    {
      if k == ent.key {
        assert after[0] == ent;
      } else {
        var j :| 0 <= j < |list| && list[j] == items[k];
        assert after[if j < i then j + 1 else j] == list[j];
      }
    }
    forall e | e in after
      ensures e.key in items' && items'[e.key] == e && e.bytes == |e.data|
    {
      if e != ent {
        var j :| 0 <= j < |list| && list[j] == e && j != i;
        assert list[j] in list && r[j].key != r[i].key;
      }
    }
  }

  lemma Pushed(items: map<Key, CacheItem>, list: seq<CacheItem>, ent: CacheItem)
    requires Linked(items, list) && Distinct(Contents(list)) && ent.key !in items && ent.bytes == |ent.data|
    ensures var after := [ent] + list;
            && Linked(items[ent.key := ent], after) && Distinct(Contents(after))
            && Contents(after) == [Item(ent.key, ent.data)] + Without(Contents(list), ent.key)
            && Total(Contents(after)) == Total(Contents(list)) + ent.bytes
  {
    var r, after := Contents(list), [ent] + list;
    assert forall i :: 0 <= i < |r| ==> list[i] in list && r[i].key != ent.key;
    WithoutAbsent(r, ent.key);
    FrontDistinct(r, ent.key, ent.data);
    FrontTotal(r, ent.key, ent.data);
    hide Distinct, Total, Without, Find;
    SameElements(Contents(after), [Item(ent.key, ent.data)] + r);
    hide Contents;
    PushedLinks(items, list, ent);
  }

  lemma PushedLinks(items: map<Key, CacheItem>, list: seq<CacheItem>, ent: CacheItem)
    requires Linked(items, list) && ent.key !in items && ent.bytes == |ent.data|
    ensures Linked(items[ent.key := ent], [ent] + list)
  {
    forall k | k in items
      ensures items[k] in [ent] + list
    {
      var j :| 0 <= j < |list| && list[j] == items[k];
      assert ([ent] + list)[j + 1] == list[j];
    }
    assert ([ent] + list)[0] == ent;
  }

  lemma DroppedLast(items: map<Key, CacheItem>, list: seq<CacheItem>)
    requires list != [] && Linked(items, list) && Distinct(Contents(list))
    ensures var n := |list| - 1;
            && Linked(items - {list[n].key}, list[..n]) && Distinct(Contents(list[..n]))
            && Contents(list[..n]) == Contents(list)[..n]
            && Total(Contents(list)) == Total(Contents(list[..n])) + list[n].bytes
  {
    var n, r := |list| - 1, Contents(list);
    assert list[n] in list;
    SameElements(Contents(list[..n]), r[..n]);
    DroppedTotal(r);
    DroppedLinks(items, list);
    hide Linked, Total, Contents;
  }

  lemma DroppedTotal(r: seq<Item>)
    requires r != []
    ensures Total(r) == Total(r[..|r| - 1]) + |r[|r| - 1].data|
  {
    var n := |r| - 1;
    TotalSplit(r, n);
    assert r[n..] == [r[n]] && Total(r[n..][1..]) == 0;
  }

  lemma DroppedLinks(items: map<Key, CacheItem>, list: seq<CacheItem>)
    requires list != [] && Linked(items, list) && Distinct(Contents(list))
    ensures Linked(items - {list[|list| - 1].key}, list[..|list| - 1])
  {
    var n, r := |list| - 1, Contents(list);
    assert list[n] in list;
    forall e | e in list[..n]
      ensures e.key != list[n].key && e in list
    {
      var i :| 0 <= i < n && list[i] == e;
      assert r[i].key != r[n].key;
    }
    forall k | k in items && k != list[n].key
      ensures items[k] in list[..n]
    {
      var i :| 0 <= i < |list| && list[i] == items[k];
      assert i < n && list[..n][i] == items[k];
    }
  }

  lemma AbsentKey(items: map<Key, CacheItem>, list: seq<CacheItem>, key: Key)
    requires Linked(items, list) && key !in items
    ensures Find(Contents(list), key) == None
  {
    var r := Contents(list);
    assert forall i :: 0 <= i < |r| ==> list[i] in list && r[i].key != key;
    WithoutAbsent(r, key);
  }

  lemma FitDrops(r: seq<Item>, max: int)
    ensures r != [] && Total(r) > max ==> Fit(r, max) == Fit(r[..|r| - 1], max)
    ensures r == [] || Total(r) <= max ==> Fit(r, max) == r
  {
  }

  class MemoryCache {
    const maxBytes: int
    var totalBytes: int
    var items: map<Key, CacheItem>
    var evictList: seq<CacheItem>

    // The stored items, most recently used first.
    ghost function Recency(): seq<Item>
      reads this
    {
      Contents(evictList)
    }

    // Map and list in bijection, one item for each key, the byte count exact.
    ghost predicate Valid()
      reads this
    {
      maxBytes >= 0 && Linked(items, evictList) && Distinct(Recency()) && totalBytes == Total(Recency())
    }

    constructor (maxMB: int)
      ensures Valid() && Recency() == []
      ensures maxBytes == (if maxMB <= 0 then 64 else maxMB) * 1024 * 1024
    {
      maxBytes := (if maxMB <= 0 then 64 else maxMB) * 1024 * 1024;
      totalBytes, items, evictList := 0, map[], [];
    }

    method Get(key: Key) returns (r: Option<Bytes>)
      requires Valid()
      modifies this
      ensures Valid()
      ensures r == Find(old(Recency()), key) && Recency() == AfterGet(old(Recency()), key)
    {
      hide Linked, Distinct, Total, Without, Find, Contents, Removed;
      if key !in items {
        AbsentKey(items, evictList, key);
        return None;
      }
      var i := Position(items, evictList, key);
      var ent := evictList[i];
      SameItem(items, evictList, i);
      Refronted(items, evictList, i, ent);
      evictList := [ent] + Removed(evictList, i);
      r := Some(ent.data);
    }

    // Evicts the oldest items until the rest fits; the totals are exact meanwhile.
    method EvictToFit()
      requires Valid()
      modifies this
      ensures Valid() && Recency() == Fit(old(Recency()), maxBytes)
    {
      hide Linked, Distinct, Total, Fit, Contents;
      while totalBytes > maxBytes && |evictList| > 0
        invariant Valid() && Fit(Recency(), maxBytes) == Fit(old(Recency()), maxBytes)
        decreases |evictList|
      {
        FitDrops(Recency(), maxBytes);
        RemoveOldest();
      }
      FitDrops(Recency(), maxBytes);
    }

    method RemoveOldest()
      requires Valid() && evictList != []
      modifies this
      ensures Valid() && Recency() == old(Recency())[..|old(Recency())| - 1] && |evictList| == |old(evictList)| - 1
    {
      hide Linked, Distinct, Total;
      DroppedLast(items, evictList);
      var n := |evictList| - 1;
      items := items - {evictList[n].key};
      totalBytes := totalBytes - evictList[n].bytes;
      evictList := evictList[..n];
    }

    method Put(key: Key, data: Bytes)
      requires Valid()
      modifies this
      ensures Valid()
      ensures Recency() == AfterPut(old(Recency()), key, data, maxBytes)
    {
      hide Linked, Distinct, Total, Without, Fit, Contents, Removed;
      var ent := CacheItem(key, data, |data|);
      if key in items {
        var i := Position(items, evictList, key);
        Refronted(items, evictList, i, ent);
        totalBytes := totalBytes + |data| - evictList[i].bytes;
        evictList := [ent] + Removed(evictList, i);
      } else {
        Pushed(items, evictList, ent);
        totalBytes := totalBytes + |data|;
        evictList := [ent] + evictList;
      }
      items := items[key := ent];
      EvictToFit();
    }
  }

  // Where the item of a key stands in the list.
  method Position(items: map<Key, CacheItem>, list: seq<CacheItem>, key: Key) returns (i: nat)
    requires Linked(items, list) && key in items
    ensures i < |list| && list[i].key == key
  {
    var ent := items[key];
    i :| 0 <= i < |list| && list[i] == ent;
  }

  lemma SameItem(items: map<Key, CacheItem>, list: seq<CacheItem>, i: nat)
    requires i < |list| && Linked(items, list)
    ensures items[list[i].key := list[i]] == items && list[i].bytes == |list[i].data|
  {
    assert list[i] in list;
  }
}
