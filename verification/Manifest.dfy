// The content-addressable map of a file that two nodes compare (pkg/sync/manifest.go).
module Manifests {
  import opened Common
  import opened Modular

  const HEADER_SIZE: nat := 46
  const ENTRY_SIZE: nat := 21

  datatype ManifestEntry = ManifestEntry(id: u64, hash: u64, size: u32, index: byte)
  datatype Manifest = Manifest(version: u16, originalHash: Bytes, originalSize: u64, chunkCount: u32, entries: seq<ManifestEntry>)
  {
    // What GenerateManifest produces: the count is that of the entries.
    ghost predicate Valid() { |originalHash| == 32 && chunkCount == |entries| }
  }

  // ----- the binary form ---------------------------------------------------------------

  function Prev(es: seq<ManifestEntry>, i: nat): u64
    requires i <= |es|
  {
    if i == 0 then 0 else es[i - 1].id
  }

  // Entry i in the four columns of a table of n entries: its ID as a difference
  // to the one before, its hash, size and index.
  ghost predicate Stored(b: Bytes, n: nat, i: nat, e: ManifestEntry, prev: u64)
    requires i < n && |b| >= HEADER_SIZE + n * ENTRY_SIZE
  {
    && Field(b, HEADER_SIZE + i * 8, 8) == U64(Sub64(e.id, prev))
    && Field(b, HEADER_SIZE + n * 8 + i * 8, 8) == U64(e.hash)
    && Field(b, HEADER_SIZE + n * 16 + i * 4, 4) == U32(e.size)
    && b[HEADER_SIZE + n * 20 + i] == e.index
  }

  ghost predicate Columns(b: Bytes, es: seq<ManifestEntry>, k: nat)
    requires k <= |es|
  {
    && |b| >= HEADER_SIZE + |es| * ENTRY_SIZE
    && forall i :: 0 <= i < k ==> Stored(b, |es|, i, es[i], Prev(es, i))
  }

  ghost predicate Head(b: Bytes, m: Manifest) {
    && |b| >= HEADER_SIZE
    && Field(b, 0, 2) == U16(m.version) && Field(b, 2, 32) == m.originalHash
    && Field(b, 34, 8) == U64(m.originalSize) && Field(b, 42, 4) == U32(m.chunkCount)
  }

  // The layout: 46 bytes, then columns of 8, 8, 4 and 1 bytes an entry.
  ghost predicate IsBinary(b: Bytes, m: Manifest) {
    |b| == HEADER_SIZE + |m.entries| * ENTRY_SIZE && Head(b, m) && Columns(b, m.entries, |m.entries|)
  }

  // b with another string written into it.
  function Overwritten(b: Bytes, at: nat, src: Bytes): (r: Bytes)
    requires at + |src| <= |b|
    ensures |r| == |b|
  {
    b[..at] + src + b[at + |src|..]
  }

  lemma OverwrittenField(b: Bytes, at: nat, src: Bytes, from: nat, n: nat)
    requires at + |src| <= |b| && from + n <= |b|
    ensures from == at && n == |src| ==> Field(Overwritten(b, at, src), from, n) == src
    ensures from + n <= at || at + |src| <= from ==> Field(Overwritten(b, at, src), from, n) == Field(b, from, n)
  {
    var r := Overwritten(b, at, src);
    if from + n <= at || at + |src| <= from {
      SameElements(Field(r, from, n), Field(b, from, n));
    } else if from == at && n == |src| {
      SameElements(Field(r, from, n), src);
    }
  }

  method Write(buf: array<byte>, at: nat, src: Bytes)
    requires at + |src| <= buf.Length
    modifies buf
    ensures buf[..] == Overwritten(old(buf[..]), at, src)
  {
    forall k | 0 <= k < |src| {
      buf[at + k] := src[k];
    }
    SameElements(buf[..], Overwritten(old(buf[..]), at, src));
  }

  // The buffer after entry i of n has been written.
  ghost function WithEntry(b: Bytes, n: nat, i: nat, e: ManifestEntry, prev: u64): (r: Bytes)
    requires i < n && |b| == HEADER_SIZE + n * ENTRY_SIZE
    ensures |r| == |b|
  {
    var b1 := Overwritten(b, HEADER_SIZE + i * 8, U64(Sub64(e.id, prev)));
    var b2 := Overwritten(b1, HEADER_SIZE + n * 8 + i * 8, U64(e.hash));
    var b3 := Overwritten(b2, HEADER_SIZE + n * 16 + i * 4, U32(e.size));
    Overwritten(b3, HEADER_SIZE + n * 20 + i, [e.index])
  }

  // A field outside the four that entry i takes is left alone.
  lemma FieldKept(b: Bytes, n: nat, i: nat, e: ManifestEntry, prev: u64, from: nat, len: nat)
    requires i < n && |b| == HEADER_SIZE + n * ENTRY_SIZE && from + len <= |b|
    requires from + len <= HEADER_SIZE + i * 8 || HEADER_SIZE + i * 8 + 8 <= from
    requires from + len <= HEADER_SIZE + n * 8 + i * 8 || HEADER_SIZE + n * 8 + i * 8 + 8 <= from
    requires from + len <= HEADER_SIZE + n * 16 + i * 4 || HEADER_SIZE + n * 16 + i * 4 + 4 <= from
    requires from + len <= HEADER_SIZE + n * 20 + i || HEADER_SIZE + n * 20 + i + 1 <= from
    ensures Field(WithEntry(b, n, i, e, prev), from, len) == Field(b, from, len)
  {
    hide Overwritten, Field, U64, U32, Sub64;
    var b1 := Overwritten(b, HEADER_SIZE + i * 8, U64(Sub64(e.id, prev)));
    var b2 := Overwritten(b1, HEADER_SIZE + n * 8 + i * 8, U64(e.hash));
    var b3 := Overwritten(b2, HEADER_SIZE + n * 16 + i * 4, U32(e.size));
    OverwrittenField(b, HEADER_SIZE + i * 8, U64(Sub64(e.id, prev)), from, len);
    OverwrittenField(b1, HEADER_SIZE + n * 8 + i * 8, U64(e.hash), from, len);
    OverwrittenField(b2, HEADER_SIZE + n * 16 + i * 4, U32(e.size), from, len);
    OverwrittenField(b3, HEADER_SIZE + n * 20 + i, [e.index], from, len);
  }

  lemma EntryStored(b: Bytes, n: nat, i: nat, e: ManifestEntry, prev: u64)
    requires i < n && |b| == HEADER_SIZE + n * ENTRY_SIZE
    ensures Stored(WithEntry(b, n, i, e, prev), n, i, e, prev)
  {
    hide Overwritten, U64, U32, Sub64;
    var p0, p1, p2, p3 := HEADER_SIZE + i * 8, HEADER_SIZE + n * 8 + i * 8, HEADER_SIZE + n * 16 + i * 4, HEADER_SIZE + n * 20 + i;
    var b1 := Overwritten(b, p0, U64(Sub64(e.id, prev)));
    var b2 := Overwritten(b1, p1, U64(e.hash));
    var b3 := Overwritten(b2, p2, U32(e.size));
    OverwrittenField(b, p0, U64(Sub64(e.id, prev)), p0, 8);
    OverwrittenField(b1, p1, U64(e.hash), p0, 8);
    OverwrittenField(b1, p1, U64(e.hash), p1, 8);
    OverwrittenField(b2, p2, U32(e.size), p0, 8);
    OverwrittenField(b2, p2, U32(e.size), p1, 8);
    OverwrittenField(b2, p2, U32(e.size), p2, 4);
    OverwrittenField(b3, p3, [e.index], p0, 8);
    OverwrittenField(b3, p3, [e.index], p1, 8);
    OverwrittenField(b3, p3, [e.index], p2, 4);
    OverwrittenField(b3, p3, [e.index], p3, 1);
    assert WithEntry(b, n, i, e, prev)[p3] == Field(WithEntry(b, n, i, e, prev), p3, 1)[0];
  }

  lemma OthersKept(b: Bytes, n: nat, i: nat, e: ManifestEntry, prev: u64, k: nat, e': ManifestEntry, prev': u64)
    requires k < i < n && |b| == HEADER_SIZE + n * ENTRY_SIZE && Stored(b, n, k, e', prev')
    ensures Stored(WithEntry(b, n, i, e, prev), n, k, e', prev')
  {
    hide WithEntry, U64, U32, Sub64;
    FieldKept(b, n, i, e, prev, HEADER_SIZE + k * 8, 8);
    FieldKept(b, n, i, e, prev, HEADER_SIZE + n * 8 + k * 8, 8);
    FieldKept(b, n, i, e, prev, HEADER_SIZE + n * 16 + k * 4, 4);
    FieldKept(b, n, i, e, prev, HEADER_SIZE + n * 20 + k, 1);
    assert b[HEADER_SIZE + n * 20 + k] == Field(b, HEADER_SIZE + n * 20 + k, 1)[0];
    assert WithEntry(b, n, i, e, prev)[HEADER_SIZE + n * 20 + k] == Field(WithEntry(b, n, i, e, prev), HEADER_SIZE + n * 20 + k, 1)[0];
  }

  lemma ColumnsGrow(b: Bytes, es: seq<ManifestEntry>, i: nat)
    requires i < |es| && |b| == HEADER_SIZE + |es| * ENTRY_SIZE && Columns(b, es, i)
    ensures Columns(WithEntry(b, |es|, i, es[i], Prev(es, i)), es, i + 1)
  {
    hide Stored, WithEntry;
    var after := WithEntry(b, |es|, i, es[i], Prev(es, i));
    forall k | 0 <= k < i + 1
      ensures Stored(after, |es|, k, es[k], Prev(es, k))
    {
      if k == i { EntryStored(b, |es|, i, es[i], Prev(es, i)); }
      else { OthersKept(b, |es|, i, es[i], Prev(es, i), k, es[k], Prev(es, k)); }
    }
  }

  lemma HeadKept(b: Bytes, m: Manifest, i: nat)
    requires i < |m.entries| && |b| == HEADER_SIZE + |m.entries| * ENTRY_SIZE && Head(b, m)
    ensures Head(WithEntry(b, |m.entries|, i, m.entries[i], Prev(m.entries, i)), m)
  {
    hide WithEntry, Field, U16, U32, U64;
    var n, e, prev := |m.entries|, m.entries[i], Prev(m.entries, i);
    FieldKept(b, n, i, e, prev, 0, 2);
    FieldKept(b, n, i, e, prev, 2, 32);
    FieldKept(b, n, i, e, prev, 34, 8);
    FieldKept(b, n, i, e, prev, 42, 4);
  }

  lemma HeadWritten(b: Bytes, m: Manifest)
    requires |b| >= HEADER_SIZE && m.Valid()
    ensures var b1 := Overwritten(b, 0, U16(m.version));
            var b2 := Overwritten(b1, 2, m.originalHash);
            var b3 := Overwritten(b2, 34, U64(m.originalSize));
            Head(Overwritten(b3, 42, U32(m.chunkCount)), m)
  {
    hide Overwritten, Field, U16, U32, U64;
    var b1 := Overwritten(b, 0, U16(m.version));
    var b2 := Overwritten(b1, 2, m.originalHash);
    var b3 := Overwritten(b2, 34, U64(m.originalSize));
    OverwrittenField(b, 0, U16(m.version), 0, 2);
    OverwrittenField(b1, 2, m.originalHash, 0, 2);
    OverwrittenField(b1, 2, m.originalHash, 2, 32);
    OverwrittenField(b2, 34, U64(m.originalSize), 0, 2);
    OverwrittenField(b2, 34, U64(m.originalSize), 2, 32);
    OverwrittenField(b2, 34, U64(m.originalSize), 34, 8);
    OverwrittenField(b3, 42, U32(m.chunkCount), 0, 2);
    OverwrittenField(b3, 42, U32(m.chunkCount), 2, 32);
    OverwrittenField(b3, 42, U32(m.chunkCount), 34, 8);
    OverwrittenField(b3, 42, U32(m.chunkCount), 42, 4);
  }

  method WriteHead(buf: array<byte>, m: Manifest)
    requires m.Valid() && buf.Length >= HEADER_SIZE
    modifies buf
    ensures Head(buf[..], m)
  {
    hide Head, Overwritten, U16, U32, U64;
    HeadWritten(buf[..], m);
    Write(buf, 0, U16(m.version));
    Write(buf, 2, m.originalHash);
    Write(buf, 34, U64(m.originalSize));
    Write(buf, 42, U32(m.chunkCount));
  }

  method WriteEntry(buf: array<byte>, n: nat, i: nat, e: ManifestEntry, prev: u64)
    requires i < n && buf.Length == HEADER_SIZE + n * ENTRY_SIZE
    modifies buf
    ensures buf[..] == WithEntry(old(buf[..]), n, i, e, prev)
  {
    hide Overwritten, U32, U64, Sub64;
    Write(buf, HEADER_SIZE + i * 8, U64(Sub64(e.id, prev)));
    Write(buf, HEADER_SIZE + n * 8 + i * 8, U64(e.hash));
    Write(buf, HEADER_SIZE + n * 16 + i * 4, U32(e.size));
    Write(buf, HEADER_SIZE + n * 20 + i, [e.index]);
  }

  method ToBinary(m: Manifest) returns (b: Bytes)
    requires m.Valid()
    ensures IsBinary(b, m)
  {
    hide Head, WithEntry, Stored;
    var n := |m.entries|;
    var buf := new byte[HEADER_SIZE + n * ENTRY_SIZE];
    WriteHead(buf, m);
    var prevId: u64 := 0;
    for i := 0 to n
      invariant prevId == Prev(m.entries, i)
      invariant Head(buf[..], m) && Columns(buf[..], m.entries, i)
    {
      HeadKept(buf[..], m, i);
      ColumnsGrow(buf[..], m.entries, i);
      WriteEntry(buf, n, i, m.entries[i], prevId);
      prevId := m.entries[i].id;
    }
    b := buf[..];
  }

  // ----- reading it -----------------------------------------------------------------------

  function EntryAt(b: Bytes, n: nat, i: nat, prev: u64): ManifestEntry
    requires i < n && |b| >= HEADER_SIZE + n * ENTRY_SIZE
  {
    ManifestEntry(Add64(prev, GetU64(Field(b, HEADER_SIZE + i * 8, 8))), GetU64(Field(b, HEADER_SIZE + n * 8 + i * 8, 8)),
                  GetU32(Field(b, HEADER_SIZE + n * 16 + i * 4, 4)), b[HEADER_SIZE + n * 20 + i])
  }

  // What FromBinary makes of any input; bytes past the last column are ignored.
  ghost predicate Parses(b: Bytes, m: Manifest) {
    && |b| >= HEADER_SIZE && m.Valid() && |b| >= HEADER_SIZE + |m.entries| * ENTRY_SIZE
    && m.version == GetU16(Field(b, 0, 2)) && m.originalHash == Field(b, 2, 32)
    && m.originalSize == GetU64(Field(b, 34, 8)) && m.chunkCount == GetU32(Field(b, 42, 4))
    && forall i :: 0 <= i < |m.entries| ==> m.entries[i] == EntryAt(b, |m.entries|, i, Prev(m.entries, i))
  }

  method FromBinary(b: Bytes) returns (r: Result<Manifest>)
    ensures r.Ok? ==> Parses(b, r.value)
    ensures r.Ok? <==> |b| >= HEADER_SIZE && |b| >= HEADER_SIZE + GetU32(Field(b, 42, 4)) * ENTRY_SIZE
  {
    hide GetU16, GetU32, GetU64, Field, EntryAt;
    if |b| < HEADER_SIZE {
      return Err(ShortRead);
    }
    var n := GetU32(Field(b, 42, 4));
    if |b| < HEADER_SIZE + n * ENTRY_SIZE {
      return Err(ShortRead);
    }
    var entries := [];
    var prevId: u64 := 0;
    for i := 0 to n
      invariant |entries| == i && prevId == Prev(entries, i)
      invariant forall k :: 0 <= k < i ==> entries[k] == EntryAt(b, n, k, Prev(entries, k))
    {
      ghost var before := entries;
      var e := EntryAt(b, n, i, prevId);
      entries := entries + [e];
      prevId := e.id;
      assert forall k :: 0 <= k <= i ==> Prev(entries, k) == Prev(before, k);
    }
    return Ok(Manifest(GetU16(Field(b, 0, 2)), Field(b, 2, 32), GetU64(Field(b, 34, 8)), n, entries));
  }

  lemma EntryReadBack(b: Bytes, n: nat, i: nat, e: ManifestEntry, prev: u64)
    requires i < n && |b| >= HEADER_SIZE + n * ENTRY_SIZE && Stored(b, n, i, e, prev)
    ensures EntryAt(b, n, i, prev) == e
  {
    hide Field, U64, U32, GetU64, GetU32;
    GetU64Put(Sub64(e.id, prev));
    GetU64Put(e.hash);
    GetU32Put(e.size);
    DifferenceUndone(prev, e.id);
  }

  lemma DifferenceUndone(prev: u64, id: u64)
    ensures Add64(prev, Sub64(id, prev)) == id
  {
    ModAdd(prev, id - prev, TWO_TO_64);
  }

  // A manifest read from the binary form of m is m, whatever follows it.
  lemma ManifestReadBack(b: Bytes, rest: Bytes, m: Manifest, m': Manifest)
    requires m.Valid() && IsBinary(b, m) && Parses(b + rest, m')
    ensures m' == m
  {
    hide *;
    HeadReadBack(b, rest, m, m');
    EntriesReadBack(b, rest, m, m', |m.entries|);
    SameElements(m.entries, m'.entries);
  }

  lemma Extended(b: Bytes, rest: Bytes, at: nat, n: nat)
    requires at + n <= |b|
    ensures Field(b + rest, at, n) == Field(b, at, n)
  {
    SameElements(Field(b + rest, at, n), Field(b, at, n));
  }

  lemma HeadReadBack(b: Bytes, rest: Bytes, m: Manifest, m': Manifest)
    requires m.Valid() && IsBinary(b, m) && Parses(b + rest, m')
    ensures |m.entries| == |m'.entries| && m'.(entries := m.entries) == m
  {
    hide Columns, EntryAt, Field, U16, U32, U64, GetU16, GetU32, GetU64;
    Extended(b, rest, 0, 2);
    Extended(b, rest, 2, 32);
    Extended(b, rest, 34, 8);
    Extended(b, rest, 42, 4);
    GetU16Put(m.version);
    GetU64Put(m.originalSize);
    GetU32Put(m.chunkCount);
  }

  lemma {:induction false} EntriesReadBack(b: Bytes, rest: Bytes, m: Manifest, m': Manifest, k: nat)
    requires m.Valid() && IsBinary(b, m) && Parses(b + rest, m') && |m'.entries| == |m.entries| && k <= |m.entries|
    ensures forall i :: 0 <= i < k ==> m'.entries[i] == m.entries[i]
  {
    hide Head, Field, U16, U32, U64, GetU16, GetU32, GetU64, Stored, EntryAt;
    if k > 0 {
      EntriesReadBack(b, rest, m, m', k - 1);
      var i, n := k - 1, |m.entries|;
      assert Stored(b, n, i, m.entries[i], Prev(m.entries, i));
      StoredExtended(b, rest, n, i, m.entries[i], Prev(m.entries, i));
      EntryReadBack(b + rest, n, i, m.entries[i], Prev(m.entries, i));
    }
  }

  lemma StoredExtended(b: Bytes, rest: Bytes, n: nat, i: nat, e: ManifestEntry, prev: u64)
    requires i < n && |b| >= HEADER_SIZE + n * ENTRY_SIZE && Stored(b, n, i, e, prev)
    ensures Stored(b + rest, n, i, e, prev)
  {
    hide Field, U64, U32;
    Extended(b, rest, HEADER_SIZE + i * 8, 8);
    Extended(b, rest, HEADER_SIZE + n * 8 + i * 8, 8);
    Extended(b, rest, HEADER_SIZE + n * 16 + i * 4, 4);
  }

  // ----- comparing -------------------------------------------------------------------------

  // What chunks are compared by.
  datatype ChunkKey = ChunkKey(id: u64, hash: u64)

  function KeyOf(e: ManifestEntry): ChunkKey { ChunkKey(e.id, e.hash) }

  function Keys(es: seq<ManifestEntry>, n: nat): set<ChunkKey>
    requires n <= |es|
  {
    if n == 0 then {} else Keys(es, n - 1) + {KeyOf(es[n - 1])}
  }

  // The first n entries whose key is not in the set, in order.
  function Without(es: seq<ManifestEntry>, n: nat, keys: set<ChunkKey>): seq<ManifestEntry>
    requires n <= |es|
  {
    if n == 0 then []
    else Without(es, n - 1, keys) + if KeyOf(es[n - 1]) in keys then [] else [es[n - 1]]
  }

  datatype DiffResult = DiffResult(missing: seq<ManifestEntry>, extra: seq<ManifestEntry>)

  method KeySet(es: seq<ManifestEntry>) returns (keys: set<ChunkKey>)
    ensures keys == Keys(es, |es|)
  {
    keys := {};
    for i := 0 to |es|
      invariant keys == Keys(es, i)
    {
      keys := keys + {KeyOf(es[i])};
    }
  }

  method Absent(es: seq<ManifestEntry>, keys: set<ChunkKey>) returns (r: seq<ManifestEntry>)
    ensures r == Without(es, |es|, keys)
  {
    r := [];
    for i := 0 to |es|
      invariant r == Without(es, i, keys)
    {
      if KeyOf(es[i]) !in keys {
        r := r + [es[i]];
      }
    }
  }

  method Diff(local: Manifest, remote: Manifest) returns (d: DiffResult)
    ensures d.missing == Without(remote.entries, |remote.entries|, Keys(local.entries, |local.entries|))
    ensures d.extra == Without(local.entries, |local.entries|, Keys(remote.entries, |remote.entries|))
    // Entry for entry, as often as it stands in its own manifest.
    ensures forall e :: multiset(d.missing)[e] == if Has(local.entries, KeyOf(e)) then 0 else multiset(remote.entries)[e]
    ensures forall e :: multiset(d.extra)[e] == if Has(remote.entries, KeyOf(e)) then 0 else multiset(local.entries)[e]
  {
    hide *;
    WithoutCounts(remote.entries, local.entries);
    WithoutCounts(local.entries, remote.entries);
    var localSet := KeySet(local.entries);
    var remoteSet := KeySet(remote.entries);
    var missing := Absent(remote.entries, localSet);
    var extra := Absent(local.entries, remoteSet);
    d := DiffResult(missing, extra);
  }

  ghost predicate Has(es: seq<ManifestEntry>, key: ChunkKey) {
    exists i :: 0 <= i < |es| && KeyOf(es[i]) == key
  }

  lemma {:induction false} WithoutCount(es: seq<ManifestEntry>, n: nat, others: seq<ManifestEntry>, e: ManifestEntry)
    requires n <= |es|
    ensures multiset(Without(es, n, Keys(others, |others|)))[e] == if Has(others, KeyOf(e)) then 0 else multiset(es[..n])[e]
  {
    hide Keys, Has;
    if n > 0 {
      WithoutCount(es, n - 1, others, e);
      assert es[..n] == es[..n - 1] + [es[n - 1]];
      HasIs(others, KeyOf(es[n - 1]));
    }
  }

  lemma HasIs(es: seq<ManifestEntry>, key: ChunkKey)
    ensures key in Keys(es, |es|) <==> Has(es, key)
  {
    KeysAre(es, |es|, key);
    hide Keys;
  }

  lemma WithoutCounts(es: seq<ManifestEntry>, others: seq<ManifestEntry>)
    ensures forall e :: multiset(Without(es, |es|, Keys(others, |others|)))[e] == if Has(others, KeyOf(e)) then 0 else multiset(es)[e]
  {
    hide *;
    assert es[..|es|] == es;
    forall e
      ensures multiset(Without(es, |es|, Keys(others, |others|)))[e] == if Has(others, KeyOf(e)) then 0 else multiset(es)[e]
    {
      WithoutCount(es, |es|, others, e);
    }
  }

  lemma {:induction false} KeysAre(es: seq<ManifestEntry>, n: nat, k: ChunkKey)
    requires n <= |es|
    ensures k in Keys(es, n) <==> exists i :: 0 <= i < n && KeyOf(es[i]) == k
  {
    if n > 0 { KeysAre(es, n - 1, k); }
  }

  // The keys missing are exactly those of the remote side that are not local.
  lemma {:induction false} MissingKeys(es: seq<ManifestEntry>, n: nat, keys: set<ChunkKey>)
    requires n <= |es|
    ensures Keys(Without(es, n, keys), |Without(es, n, keys)|) == Keys(es, n) - keys
  {
    if n > 0 {
      MissingKeys(es, n - 1, keys);
      var before := Without(es, n - 1, keys);
      if KeyOf(es[n - 1]) !in keys {
        KeysPrefix(before, [es[n - 1]], |before|);
      } else {
        assert before + [] == before;
      }
    }
  }

  lemma {:induction false} KeysPrefix(a: seq<ManifestEntry>, b: seq<ManifestEntry>, n: nat)
    requires n <= |a|
    ensures Keys(a + b, n) == Keys(a, n)
  {
    if n > 0 { KeysPrefix(a, b, n - 1); }
  }
}
