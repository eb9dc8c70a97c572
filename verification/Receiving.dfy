// The receiver of a sync: residuals from the wire, the others from the local
// version, and a new file from both (internal/network/bitswap.go).
module Receiving {
  import opened Common
  import opened Tooling
  import opened Headers
  import opened ChunkTable
  import opened Codebooks
  import opened Blocks
  import opened Container
  import opened Unpacker
  import opened Residues
  import opened Seeding
  import M = Manifests
  import Modular

  const MAX_PATCH_OVERHEAD: nat := 256

  // ----- the spill file ----------------------------------------------------------------

  // Where a residual waits.
  datatype Spilled = Spilled(off: nat, size: nat)

  ghost predicate RefIs(spill: Bytes, ref: Spilled, data: Bytes) {
    ref.off + ref.size <= |spill| && spill[ref.off..ref.off + ref.size] == data
  }

  lemma RefGrows(spill: Bytes, more: Bytes, ref: Spilled, data: Bytes)
    requires RefIs(spill, ref, data)
    ensures RefIs(spill + more, ref, data)
  {
    SameElements((spill + more)[ref.off..ref.off + ref.size], data);
  }

  lemma RefNew(spill: Bytes, data: Bytes)
    ensures RefIs(spill + data, Spilled(|spill|, |data|), data)
  {
  }

  // ----- from the wire -------------------------------------------------------------------

  type Refs = map<u32, Spilled>

  // Every residual received is the sender's for that chunk.
  ghost predicate Received(spill: Bytes, refs: Refs, rs: seq<Bytes>) {
    forall idx :: idx in refs ==> idx < |rs| && RefIs(spill, refs[idx], rs[idx])
  }

  lemma ReceivedMore(spill: Bytes, refs: Refs, rs: seq<Bytes>, idx: u32, data: Bytes)
    requires Received(spill, refs, rs) && idx < |rs| && data == rs[idx]
    ensures Received(spill + data, refs[idx := Spilled(|spill|, |data|)], rs)
  {
    hide RefIs;
    RefNew(spill, data);
    forall k | k in refs
      ensures RefIs(spill + data, refs[k], rs[k])
    {
      RefGrows(spill, data, refs[k], rs[k]);
    }
  }

  lemma ReceivedLater(spill: Bytes, more: Bytes, refs: Refs, rs: seq<Bytes>)
    requires Received(spill, refs, rs)
    ensures Received(spill + more, refs, rs)
  {
    hide RefIs;
    forall k | k in refs
      ensures RefIs(spill + more, refs[k], rs[k])
    {
      RefGrows(spill, more, refs[k], rs[k]);
    }
  }

  // The limit a peer's residual must keep; the sum is a 32-bit one.
  function Limit(size: u32): nat { (size + MAX_PATCH_OVERHEAD) % TWO_TO_32 }

  // Residuals that the receiver accepts under this manifest.
  ghost predicate Acceptable(m: M.Manifest, rs: seq<Bytes>) {
    && |rs| == |m.entries| == m.chunkCount
    && forall i :: 0 <= i < |rs| ==> |rs[i]| <= Limit(m.entries[i].size)
  }

  // Everything asked for is below the number of chunks, and is on the wire.
  ghost predicate OnWire(rs: seq<Bytes>, ordered: seq<u32>, i: nat, stream: Bytes) {
    && i <= |ordered| && stream == Wire(rs, ordered, i)
    && forall j :: 0 <= j < |ordered| ==> ordered[j] < |rs|
  }

  // What the reader takes off the wire for one message.
  lemma OnWireStep(m: M.Manifest, rs: seq<Bytes>, ordered: seq<u32>, i: nat, stream: Bytes)
    requires Acceptable(m, rs) && OnWire(rs, ordered, i, stream) && i < |ordered|
    ensures stream != [] && ordered[i] < |rs| == |m.entries| == m.chunkCount
    ensures var idx, res := ordered[i], rs[ordered[i]];
            && |res| < TWO_TO_32 && |res| <= Limit(m.entries[idx].size)
            && ReadFull(stream, 8) == Ok((U32(idx) + U32(|res|), res + Wire(rs, ordered, i + 1)))
            && ReadFull(res + Wire(rs, ordered, i + 1), |res|) == Ok((res, Wire(rs, ordered, i + 1)))
            && OnWire(rs, ordered, i + 1, Wire(rs, ordered, i + 1))
  {
    hide *;
    OnWireIs(rs, ordered, i, stream);
    OnWireIs(rs, ordered, i + 1, Wire(rs, ordered, i + 1));
    AcceptableAt(m, rs, ordered[i]);
    WireUnfold(rs, ordered, i);
    var idx, res, rest := ordered[i], rs[ordered[i]], Wire(rs, ordered, i + 1);
    MessageSplit(idx, res, rest);
    ReadExactly(U32(idx) + U32(|res|), res + rest);
    ReadExactly(res, rest);
  }

  lemma OnWireIs(rs: seq<Bytes>, ordered: seq<u32>, i: nat, stream: Bytes)
    ensures OnWire(rs, ordered, i, stream) <==>
              i <= |ordered| && stream == Wire(rs, ordered, i) && forall j :: 0 <= j < |ordered| ==> ordered[j] < |rs|
  {
    hide Wire;
  }

  lemma AcceptableAt(m: M.Manifest, rs: seq<Bytes>, idx: nat)
    requires Acceptable(m, rs)
    ensures |rs| == |m.entries| == m.chunkCount
    ensures idx < |rs| ==> |rs[idx]| <= Limit(m.entries[idx].size) && |rs[idx]| < TWO_TO_32
  {
  }

  lemma MessageSplit(idx: u32, res: Bytes, rest: Bytes)
    requires |res| < TWO_TO_32
    ensures var head := U32(idx) + U32(|res|);
            |head| == 8 && ChunkMessage(idx, res) + rest == head + (res + rest) && ChunkMessage(idx, res) + rest != []
  {
    hide U32;
  }

  method ReceiveResiduals(m: M.Manifest, count: nat, wire: Bytes, ghost rs: seq<Bytes>, ghost ordered: seq<u32>)
    returns (r: Result<(Bytes, Refs)>)
    requires |m.entries| == m.chunkCount
    ensures Acceptable(m, rs) && OnWire(rs, ordered, 0, wire) && count == |ordered| ==>
              r.Ok? && Received(r.value.0, r.value.1, rs) && forall j :: 0 <= j < |ordered| ==> ordered[j] in r.value.1
  {
    hide *;
    ghost var honest := Acceptable(m, rs) && OnWire(rs, ordered, 0, wire) && count == |ordered|;
    var spill, stream := [], wire;
    var refs: Refs := map[];
    NothingReceived(rs);
    var i := 0;
    while i < count
      invariant i <= count
      invariant honest ==> OnWire(rs, ordered, i, stream) && Received(spill, refs, rs)
      invariant honest ==> forall j :: 0 <= j < i ==> ordered[j] in refs
    {
      if honest { OnWireStep(m, rs, ordered, i, stream); }
      if |stream| == 0 {
        break;
      }
      var head := ReadFull(stream, 8);
      if head.Err? {
        return Err(head.error);
      }
      HeadLength(stream, 8);
      if honest { HeadReadBack(ordered[i], |rs[ordered[i]]|); }
      var idx, size := GetU32(head.value.0[0..4]), GetU32(head.value.0[4..8]);
      if idx >= m.chunkCount || size > Limit(m.entries[idx].size) {
        return Err(BadMessage);
      }
      var body := ReadFull(head.value.1, size);
      if body.Err? {
        return Err(body.error);
      }
      var residual := body.value.0;
      if honest { ReceivedMore(spill, refs, rs, idx, residual); }
      refs := refs[idx := Spilled(|spill|, |residual|)];
      spill := spill + residual;
      stream := body.value.1;
      i := i + 1;
    }
    return Ok((spill, refs));
  }

  lemma NothingReceived(rs: seq<Bytes>)
    ensures Received([], map[], rs)
  {
  }

  lemma HeadLength(stream: Bytes, n: nat)
    ensures ReadFull(stream, n).Ok? ==> |ReadFull(stream, n).value.0| == n
  {
  }

  lemma HeadReadBack(idx: u32, size: nat)
    requires size < TWO_TO_32
    ensures var head := U32(idx) + U32(size);
            |head| == 8 && GetU32(head[0..4]) == idx && GetU32(head[4..8]) == size
  {
    GetU32Put(idx);
    GetU32Put(size);
    hide GetU32, U32;
    var head := U32(idx) + U32(size);
    assert head[0..4] == U32(idx) && head[4..8] == U32(size);
  }

  // ----- from the local version -------------------------------------------------------------

  type LocalRefs = map<M.ChunkKey, Spilled>

  // A residual of the local version with its key, in the spill file.
  ghost predicate LocalRef(spill: Bytes, ref: Spilled, key: M.ChunkKey, sum64: Bytes -> u64, es: seq<ChunkEntry>, ls: seq<Bytes>)
    requires |es| == |ls|
  {
    exists i :: 0 <= i < |es| && key == M.ChunkKey(es[i].id, sum64(ls[i])) && RefIs(spill, ref, ls[i])
  }

  // Of the first n local chunks all that are needed have been kept, and nothing else.
  ghost predicate LocalKept(spill: Bytes, local: LocalRefs, needed: set<M.ChunkKey>, sum64: Bytes -> u64, es: seq<ChunkEntry>, ls: seq<Bytes>, n: nat) {
    && |es| == |ls| && n <= |es|
    && (forall key :: key in local ==> LocalRef(spill, local[key], key, sum64, es, ls))
    && forall i :: 0 <= i < n && M.ChunkKey(es[i].id, sum64(ls[i])) in needed ==> M.ChunkKey(es[i].id, sum64(ls[i])) in local
  }

  lemma LocalRefGrows(spill: Bytes, more: Bytes, ref: Spilled, key: M.ChunkKey, sum64: Bytes -> u64, es: seq<ChunkEntry>, ls: seq<Bytes>)
    requires |es| == |ls| && LocalRef(spill, ref, key, sum64, es, ls)
    ensures LocalRef(spill + more, ref, key, sum64, es, ls)
  {
    hide RefIs;
    var i :| 0 <= i < |es| && key == M.ChunkKey(es[i].id, sum64(ls[i])) && RefIs(spill, ref, ls[i]);
    RefGrows(spill, more, ref, ls[i]);
  }

  lemma LocalMore(spill: Bytes, local: LocalRefs, needed: set<M.ChunkKey>, sum64: Bytes -> u64, es: seq<ChunkEntry>, ls: seq<Bytes>, n: nat)
    requires LocalKept(spill, local, needed, sum64, es, ls, n) && n < |es|
    ensures var key := M.ChunkKey(es[n].id, sum64(ls[n]));
            if key in needed && key !in local
            then LocalKept(spill + ls[n], local[key := Spilled(|spill|, |ls[n]|)], needed, sum64, es, ls, n + 1)
            else LocalKept(spill, local, needed, sum64, es, ls, n + 1)
  {
    hide LocalRef;
    var key := M.ChunkKey(es[n].id, sum64(ls[n]));
    if key in needed && key !in local {
      LocalRefNew(spill, key, sum64, es, ls, n);
      forall k | k in local
        ensures LocalRef(spill + ls[n], local[k], k, sum64, es, ls)
      {
        LocalRefGrows(spill, ls[n], local[k], k, sum64, es, ls);
      }
    }
  }

  lemma LocalRefNew(spill: Bytes, key: M.ChunkKey, sum64: Bytes -> u64, es: seq<ChunkEntry>, ls: seq<Bytes>, n: nat)
    requires |es| == |ls| && n < |es| && key == M.ChunkKey(es[n].id, sum64(ls[n]))
    ensures LocalRef(spill + ls[n], Spilled(|spill|, |ls[n]|), key, sum64, es, ls)
  {
    hide RefIs;
    RefNew(spill, ls[n]);
  }

  // A residual out of bounds is passed over; only reversed bounds stop the scan.
  predicate EntryScans(e: ChunkEntry, pool: Bytes, base: u64) {
    var from := Sub64(e.offset, base);
    var to := Add64(from, e.deltaSize);
    to <= |pool| ==> from <= to
  }

  ghost predicate BlockScans(es: seq<ChunkEntry>, pool: Bytes, base: u64, first: nat, end: nat)
    requires first <= end <= |es|
  {
    forall k :: first <= k < end ==> EntryScans(es[k], pool, base)
  }

  // Every block from i on opens and can be scanned.
  ghost predicate Scannable(job: Job, i: nat, stream: Bytes)
    requires Walks(job) && i <= |job.sizes|
    decreases |job.sizes| - i
  {
    if i == |job.sizes| then true
    else
      RangeInTable(job, i);
      var got, first, end := OpenBlock(job, i, stream), First(job, i), First(job, i + 1);
      got.Ok? && BlockScans(job.entries, got.value.0, job.entries[first].offset, first, end) && Scannable(job, i + 1, got.value.1)
  }

  lemma ScannableUnfold(job: Job, i: nat, stream: Bytes)
    requires Walks(job) && i <= |job.sizes|
    ensures i == |job.sizes| ==> Scannable(job, i, stream)
    ensures i < |job.sizes| ==>
              && First(job, i) < First(job, i + 1) <= |job.entries|
              && var got, first, end := OpenBlock(job, i, stream), First(job, i), First(job, i + 1);
                 Scannable(job, i, stream) <==>
                   got.Ok? && BlockScans(job.entries, got.value.0, job.entries[first].offset, first, end) && Scannable(job, i + 1, got.value.1)
  {
    if i < |job.sizes| { RangeInTable(job, i); }
    hide Walks, OpenBlock, BlockScans, First;
  }

  // One block of the local version.
  method KeepBlock(sum64: Bytes -> u64, es: seq<ChunkEntry>, pool: Bytes, first: nat, end: nat, needed: set<M.ChunkKey>,
                   spill0: Bytes, local0: LocalRefs, ghost all: Result<seq<Bytes>>) returns (r: Result<(Bytes, LocalRefs)>)
    requires first < end <= |es|
    requires var rs := BlockResiduals(es, pool, es[first].offset, first, end);
             all.Ok? ==> rs.Ok? && LocalKept(spill0, local0, needed, sum64, es, all.value, first) && rs.value == all.value[first..end]
    ensures r.Err? ==> all.Err?
    ensures r.Ok? <==> BlockScans(es, pool, es[first].offset, first, end)
    ensures r.Ok? ==> spill0 <= r.value.0 && (all.Ok? ==> LocalKept(r.value.0, r.value.1, needed, sum64, es, all.value, end))
  {
    hide *;
    var base := es[first].offset;
    var spill, local := spill0, local0;
    ScansNone(es, pool, base, first);
    for i := first to end
      invariant spill0 <= spill && BlockScans(es, pool, base, first, i)
      invariant all.Ok? ==> LocalKept(spill, local, needed, sum64, es, all.value, i)
    {
      if all.Ok? {
        BlockResidualAt(es, pool, base, first, end, i);
        LocalCount(spill, local, needed, sum64, es, all.value, i);
        LocalMore(spill, local, needed, sum64, es, all.value, i);
      }
      var from := Sub64(es[i].offset, base);
      var to := Add64(from, es[i].deltaSize);
      ResidualIs(es[i], pool, base);
      ScansNext(es, pool, base, first, i);
      if to > |pool| {
        continue;
      }
      if from > to {
        ScansAt(es, pool, base, first, end, i);
        return Err(BadBounds);
      }
      var res := pool[from..to];
      var key := M.ChunkKey(es[i].id, sum64(res));
      if key in needed && key !in local {
        local := local[key := Spilled(|spill|, |res|)];
        spill := spill + res;
      }
    }
    return Ok((spill, local));
  }

  lemma ScansNone(es: seq<ChunkEntry>, pool: Bytes, base: u64, first: nat)
    requires first <= |es|
    ensures BlockScans(es, pool, base, first, first)
  {
  }

  lemma ScansNext(es: seq<ChunkEntry>, pool: Bytes, base: u64, first: nat, i: nat)
    requires first <= i < |es| && BlockScans(es, pool, base, first, i)
    ensures var from := Sub64(es[i].offset, base);
            var to := Add64(from, es[i].deltaSize);
            to > |pool| || from <= to ==> BlockScans(es, pool, base, first, i + 1)
  {
    hide Sub64, Add64;
  }

  lemma ScansAt(es: seq<ChunkEntry>, pool: Bytes, base: u64, first: nat, end: nat, i: nat)
    requires first <= i < end <= |es|
    ensures var from := Sub64(es[i].offset, base);
            var to := Add64(from, es[i].deltaSize);
            to <= |pool| && from > to ==> !BlockScans(es, pool, base, first, end)
  {
    hide Sub64, Add64;
  }

  lemma LocalCount(spill: Bytes, local: LocalRefs, needed: set<M.ChunkKey>, sum64: Bytes -> u64, es: seq<ChunkEntry>, ls: seq<Bytes>, n: nat)
    requires LocalKept(spill, local, needed, sum64, es, ls, n)
    ensures |es| == |ls|
  {
  }

  lemma ResidualIs(e: ChunkEntry, pool: Bytes, base: u64)
    ensures var from := Sub64(e.offset, base);
            var to := Add64(from, e.deltaSize);
            ResidualOf(e, pool, base) == if to > |pool| || from > to then Err(BadBounds) else Ok(pool[from..to])
  {
    hide Sub64, Add64;
  }

  lemma NothingLocal(spill: Bytes, needed: set<M.ChunkKey>, sum64: Bytes -> u64, es: seq<ChunkEntry>, ls: seq<Bytes>)
    requires |es| == |ls|
    ensures LocalKept(spill, map[], needed, sum64, es, ls, 0)
  {
  }

  method KeepBlocks(sum64: Bytes -> u64, job: Job, stream0: Bytes, needed: set<M.ChunkKey>, spill0: Bytes)
    returns (r: Result<(Bytes, LocalRefs)>)
    requires Walks(job)
    ensures var all := Residuals(job, 0, stream0);
            && (r.Err? ==> all.Err?) && (r.Ok? ==> spill0 <= r.value.0)
            && (r.Ok? <==> Scannable(job, 0, stream0))
            && (all.Ok? ==> LocalKept(r.value.0, r.value.1, needed, sum64, job.entries, all.value, |job.entries|))
  {
    hide *;
    ghost var all := Residuals(job, 0, stream0);
    var spill, local, stream := spill0, map[], stream0;
    RemainingStart(job, stream);
    FirstBlock(job);
    WalkCount(job);
    if all.Ok? { NothingLocal(spill, needed, sum64, job.entries, all.value); }
    for i := 0 to |job.sizes|
      invariant spill0 <= spill && (all.Ok? ==> Remaining(job, all, i, stream))
      invariant Scannable(job, 0, stream0) <==> Scannable(job, i, stream)
      invariant all.Ok? ==> LocalKept(spill, local, needed, sum64, job.entries, all.value, First(job, i))
    {
      if all.Ok? { RemainingStep(job, all, i, stream); }
      ScannableUnfold(job, i, stream);
      RangeInTable(job, i);
      var (first, end) := BlockRange(job.starts, i, |job.entries|);
      var got := OpenBlock(job, i, stream);
      if got.Err? {
        return Err(got.error);
      }
      var kept := KeepBlock(sum64, job.entries, got.value.0, first, end, needed, spill, local, all);
      if kept.Err? {
        return Err(kept.error);
      }
      spill, local, stream := kept.value.0, kept.value.1, got.value.1;
    }
    ScannableUnfold(job, |job.sizes|, stream);
    return Ok((spill, local));
  }

  // ----- the new file -------------------------------------------------------------------------

  // The table before any offset is known.
  function Stub(e: M.ManifestEntry): ChunkEntry { ChunkEntry(e.id, 0, 0, e.size, e.index) }

  function Stubs(m: M.Manifest): (es: seq<ChunkEntry>)
    ensures |es| == |m.entries|
  {
    seq(|m.entries|, i requires 0 <= i < |m.entries| => Stub(m.entries[i]))
  }

  // The manifest describes these blocks.
  ghost predicate Describes(m: M.Manifest, sum64: Bytes -> u64, bs: seq<seq<Piece>>) {
    var es, rs := Entries(bs, |bs|), AllResiduals(bs, 0);
    && |m.entries| == |es| == |rs|
    && forall i :: 0 <= i < |es| ==> m.entries[i] == EntryFor(sum64, es[i], rs[i])
  }

  // Wherever the rebuild looks for the residual of a chunk, it finds the sender's.
  ghost predicate Available(m: M.Manifest, refs: Refs, local: LocalRefs, spill: Bytes, rs: seq<Bytes>) {
    && |rs| == |m.entries|
    && forall i :: 0 <= i < |rs| ==> Found(m.entries[i], refs, local, spill, i, rs[i])
  }

  ghost predicate Found(e: M.ManifestEntry, refs: Refs, local: LocalRefs, spill: Bytes, i: nat, data: Bytes) {
    if i in refs then RefIs(spill, refs[i], data)
    else M.KeyOf(e) in local && RefIs(spill, local[M.KeyOf(e)], data)
  }

  // Block boundaries depend on nothing but the sizes.
  lemma {:induction false} StartsBySizes(es: seq<ChunkEntry>, es': seq<ChunkEntry>, i: nat, filled: nat)
    requires i <= |es| == |es'| && forall k :: 0 <= k < |es| ==> es[k].size == es'[k].size
    ensures StartsFrom(es, i, filled) == StartsFrom(es', i, filled)
    decreases |es| - i
  {
    if i < |es| {
      var more := filled + es[i].size;
      StartsBySizes(es, es', i + 1, if more >= BLOCK_SIZE then 0 else more);
    }
  }

  lemma StubStarts(m: M.Manifest, sum64: Bytes -> u64, bs: seq<seq<Piece>>)
    requires Describes(m, sum64, bs) && WellFormed(bs)
    ensures StartsFrom(Stubs(m), 0, 0) == TrueStarts(bs, 0) && |TrueStarts(bs, 0)| == |bs|
    ensures |Stubs(m)| == |Entries(bs, |bs|)| == Start(bs, |bs|)
    ensures forall k :: 0 <= k < |bs| ==> BlockRange(TrueStarts(bs, 0), k, Start(bs, |bs|)) == (Start(bs, k), Start(bs, k + 1))
  {
    BoundariesRecovered(bs);
    hide StartsFrom, TrueStarts, WellFormed, Entries, AllResiduals, BlockRange, Start;
    StartsBySizes(Stubs(m), Entries(bs, |bs|), 0, 0);
  }

  // The table with the first n entries complete.
  ghost predicate Filled(final: seq<ChunkEntry>, es: seq<ChunkEntry>, stubs: seq<ChunkEntry>, n: nat) {
    && |final| == |es| == |stubs| && n <= |es|
    && (forall i :: 0 <= i < n ==> final[i] == es[i]) && forall i :: n <= i < |es| ==> final[i] == stubs[i]
  }

  method Fetch(m: M.Manifest, refs: Refs, local: LocalRefs, spill: Bytes, idx: u32, ghost rs: seq<Bytes>) returns (r: Result<Bytes>)
    requires idx < |m.entries|
    ensures Available(m, refs, local, spill, rs) ==> |rs| == |m.entries| && r == Ok(rs[idx])
  {
    var ref: Spilled;
    if idx in refs {
      ref := refs[idx];
    } else if M.KeyOf(m.entries[idx]) in local {
      ref := local[M.KeyOf(m.entries[idx])];
    } else {
      return Err(MissingChunk);
    }
    if ref.off + ref.size > |spill| {
      return Err(ShortRead);
    }
    return Ok(spill[ref.off..ref.off + ref.size]);
  }

  // The entry of a chunk with its offset and size filled in.
  lemma EntryFilled(m: M.Manifest, sum64: Bytes -> u64, bs: seq<seq<Piece>>, b: nat, j: nat, offset: u64)
    requires Describes(m, sum64, bs) && WellFormed(bs) && b < |bs| && j < |bs[b]|
    requires offset == (Base(bs, b) + PoolSize(bs[b], j)) % TWO_TO_64
    ensures var i, res := Start(bs, b) + j, AllResiduals(bs, 0);
            && i < |m.entries| == |res| == |Entries(bs, |bs|)| && res[i] == bs[b][j].residual
            && Stub(m.entries[i]).(offset := offset, deltaSize := |res[i]| % TWO_TO_32) == Entries(bs, |bs|)[i]
            && Add64(offset, |res[i]|) == (Base(bs, b) + PoolSize(bs[b], j + 1)) % TWO_TO_64
            && Pool(bs[b], j) + res[i] == Pool(bs[b], j + 1)
  {
    hide *;
    var i := Start(bs, b) + j;
    EntryAt(bs, b, j, |bs|);
    ResidualAt(bs, b, j, 0);
    StartZero(bs);
    StartMonotone(bs, b + 1, |bs|);
    DescribesAt(m, sum64, bs, i);
    PoolNext(bs[b], j);
    Modular.ModAdd(Base(bs, b) + PoolSize(bs[b], j), |bs[b][j].residual|, TWO_TO_64);
    FilledInParts(sum64, m.entries[i], bs[b][j], Base(bs, b) + PoolSize(bs[b], j), offset);
    SumIs(offset, |bs[b][j].residual|);
  }

  lemma SumIs(a: int, b: int)
    ensures Add64(a, b) == (a + b) % TWO_TO_64
  {
  }

  lemma DescribesAt(m: M.Manifest, sum64: Bytes -> u64, bs: seq<seq<Piece>>, i: nat)
    requires Describes(m, sum64, bs) && i < |Entries(bs, |bs|)|
    ensures |m.entries| == |Entries(bs, |bs|)| == |AllResiduals(bs, 0)|
    ensures m.entries[i] == EntryFor(sum64, Entries(bs, |bs|)[i], AllResiduals(bs, 0)[i])
  {
    hide Entries, AllResiduals, EntryFor;
  }

  lemma PoolNext(ps: seq<Piece>, j: nat)
    requires j < |ps|
    ensures Pool(ps, j + 1) == Pool(ps, j) + ps[j].residual && PoolSize(ps, j + 1) == PoolSize(ps, j) + |ps[j].residual|
  {
  }

  lemma FilledInParts(sum64: Bytes -> u64, e: M.ManifestEntry, p: Piece, at: nat, offset: u64)
    requires e == EntryFor(sum64, EntryOf(p, at), p.residual) && offset == at % TWO_TO_64
    ensures Stub(e).(offset := offset, deltaSize := |p.residual| % TWO_TO_32) == EntryOf(p, at)
  {
  }

  lemma FilledMore(final: seq<ChunkEntry>, es: seq<ChunkEntry>, stubs: seq<ChunkEntry>, n: nat, e: ChunkEntry)
    requires Filled(final, es, stubs, n) && n < |es| && e == es[n]
    ensures Filled(final[n := e], es, stubs, n + 1)
  {
  }

  lemma FilledAt(final: seq<ChunkEntry>, es: seq<ChunkEntry>, stubs: seq<ChunkEntry>, n: nat)
    requires Filled(final, es, stubs, n)
    ensures |final| == |es| == |stubs| && n <= |es| && (n < |es| ==> final[n] == stubs[n]) && (n == |es| ==> final == es)
  {
  }

  // What the rebuild of a block relies on, all together.
  ghost predicate Honest(m: M.Manifest, refs: Refs, local: LocalRefs, spill: Bytes, sum64: Bytes -> u64, bs: seq<seq<Piece>>) {
    WellFormed(bs) && Describes(m, sum64, bs) && Available(m, refs, local, spill, AllResiduals(bs, 0))
  }

  lemma HonestIs(m: M.Manifest, refs: Refs, local: LocalRefs, spill: Bytes, sum64: Bytes -> u64, bs: seq<seq<Piece>>)
    ensures Honest(m, refs, local, spill, sum64, bs) <==>
              WellFormed(bs) && Describes(m, sum64, bs) && Available(m, refs, local, spill, AllResiduals(bs, 0))
  {
    hide WellFormed, Describes, Available, AllResiduals;
  }

  // Where the rebuild stands after j chunks of block b.
  ghost predicate At(bs: seq<seq<Piece>>, m: M.Manifest, b: nat, j: nat, final: seq<ChunkEntry>, pool: Bytes, offset: u64) {
    && b < |bs| && j <= |bs[b]|
    && Filled(final, Entries(bs, |bs|), Stubs(m), Start(bs, b) + j)
    && pool == Pool(bs[b], j) && offset == (Base(bs, b) + PoolSize(bs[b], j)) % TWO_TO_64
  }

  lemma AtMore(bs: seq<seq<Piece>>, m: M.Manifest, sum64: Bytes -> u64, b: nat, j: nat, final: seq<ChunkEntry>, pool: Bytes, offset: u64, res: Bytes)
    requires WellFormed(bs) && Describes(m, sum64, bs) && At(bs, m, b, j, final, pool, offset) && j < |bs[b]|
    requires Start(bs, b) + j < |AllResiduals(bs, 0)| && res == AllResiduals(bs, 0)[Start(bs, b) + j]
    ensures var i := Start(bs, b) + j;
            i < |final| && At(bs, m, b, j + 1, final[i := final[i].(offset := offset, deltaSize := |res| % TWO_TO_32)], pool + res, Add64(offset, |res|))
  {
    hide *;
    AtIs(bs, m, b, j, final, pool, offset);
    EntryFilled(m, sum64, bs, b, j, offset);
    var i := Start(bs, b) + j;
    FilledAt(final, Entries(bs, |bs|), Stubs(m), i);
    StubAt(m, i);
    var e := final[i].(offset := offset, deltaSize := |res| % TWO_TO_32);
    FilledMore(final, Entries(bs, |bs|), Stubs(m), i, e);
    AtIs(bs, m, b, j + 1, final[i := e], pool + res, Add64(offset, |res|));
  }

  lemma StubAt(m: M.Manifest, i: nat)
    requires i < |m.entries|
    ensures Stubs(m)[i] == Stub(m.entries[i])
  {
  }

  lemma AtIs(bs: seq<seq<Piece>>, m: M.Manifest, b: nat, j: nat, final: seq<ChunkEntry>, pool: Bytes, offset: u64)
    ensures At(bs, m, b, j, final, pool, offset) <==>
            && b < |bs| && j <= |bs[b]|
            && Filled(final, Entries(bs, |bs|), Stubs(m), Start(bs, b) + j)
            && pool == Pool(bs[b], j) && offset == (Base(bs, b) + PoolSize(bs[b], j)) % TWO_TO_64
  {
    hide Filled, Entries, Stubs, Start, Pool, Base, PoolSize;
  }

  method RebuildBlock(m: M.Manifest, refs: Refs, local: LocalRefs, spill: Bytes, first: nat, end: nat, final0: seq<ChunkEntry>, offset0: u64,
                      ghost sum64: Bytes -> u64, ghost bs: seq<seq<Piece>>, ghost b: nat)
    returns (r: Result<(seq<ChunkEntry>, Bytes, u64)>)
    requires first <= end <= |final0| == |m.entries| <= m.chunkCount
    ensures r.Ok? ==> |r.value.0| == |m.entries|
    ensures && Honest(m, refs, local, spill, sum64, bs) && At(bs, m, b, 0, final0, [], offset0)
            && first == Start(bs, b) && end == Start(bs, b) + |bs[b]|
            ==> r.Ok? && At(bs, m, b, |bs[b]|, r.value.0, r.value.1, r.value.2)
  {
    hide *;
    AtIs(bs, m, b, 0, final0, [], offset0);
    ghost var honest := Honest(m, refs, local, spill, sum64, bs) && At(bs, m, b, 0, final0, [], offset0)
                        && first == Start(bs, b) && end == Start(bs, b) + |bs[b]|;
    HonestIs(m, refs, local, spill, sum64, bs);
    var final, pool, offset := final0, [], offset0;
    for idx := first to end
      invariant |final| == |m.entries|
      invariant honest ==> At(bs, m, b, idx - first, final, pool, offset)
    {
      var res := Fetch(m, refs, local, spill, idx, AllResiduals(bs, 0));
      if res.Err? {
        return Err(res.error);
      }
      if honest { AtMore(bs, m, sum64, b, idx - first, final, pool, offset, res.value); }
      final := final[idx := final[idx].(offset := offset, deltaSize := |res.value| % TWO_TO_32)];
      pool := pool + res.value;
      offset := Add64(offset, |res.value|);
    }
    return Ok((final, pool, offset));
  }

  // The first n frames of the new file.
  ghost predicate FramesSoFar(tools: Tools, key: Option<Bytes>, nonces: nat -> Bytes, dict: Bytes, bs: seq<seq<Piece>>, frames: seq<Bytes>, n: nat) {
    |frames| == n <= |bs| && forall k :: 0 <= k < n ==> frames[k] == Frame(tools, key, nonces(k), dict, Pool(bs[k], |bs[k]|))
  }

  lemma FramedMore(tools: Tools, key: Option<Bytes>, nonces: nat -> Bytes, dict: Bytes, bs: seq<seq<Piece>>, frames: seq<Bytes>, n: nat, pool: Bytes)
    requires FramesSoFar(tools, key, nonces, dict, bs, frames, n) && n < |bs| && pool == Pool(bs[n], |bs[n]|)
    ensures FramesSoFar(tools, key, nonces, dict, bs, frames + [Frame(tools, key, nonces(n), dict, pool)], n + 1)
  {
    hide Frame, Pool;
  }

  lemma FramedNone(tools: Tools, key: Option<Bytes>, nonces: nat -> Bytes, dict: Bytes, bs: seq<seq<Piece>>)
    ensures FramesSoFar(tools, key, nonces, dict, bs, [], 0)
  {
  }

  lemma NextBlock(bs: seq<seq<Piece>>, m: M.Manifest, b: nat, final: seq<ChunkEntry>, pool: Bytes, offset: u64)
    requires b < |bs| && At(bs, m, b, |bs[b]|, final, pool, offset)
    ensures b + 1 < |bs| ==> At(bs, m, b + 1, 0, final, [], offset)
    ensures pool == Pool(bs[b], |bs[b]|) && Start(bs, b + 1) == Start(bs, b) + |bs[b]| <= Start(bs, |bs|)
    ensures b + 1 == |bs| ==> final == Entries(bs, |bs|)
  {
    hide *;
    AtIs(bs, m, b, |bs[b]|, final, pool, offset);
    StartNext(bs, b);
    StartMonotone(bs, b + 1, |bs|);
    if b + 1 < |bs| {
      NothingPooled(bs[b + 1]);
      AtIs(bs, m, b + 1, 0, final, [], offset);
    } else {
      FilledAt(final, Entries(bs, |bs|), Stubs(m), Start(bs, |bs|));
    }
  }

  lemma NothingPooled(ps: seq<Piece>)
    ensures Pool(ps, 0) == [] && PoolSize(ps, 0) == 0
  {
  }

  lemma AtStart(bs: seq<seq<Piece>>, m: M.Manifest, sum64: Bytes -> u64)
    requires Describes(m, sum64, bs) && bs != []
    ensures At(bs, m, 0, 0, Stubs(m), [], 0) && Start(bs, 0) == 0
  {
    hide Entries, AllResiduals, EntryFor;
  }

  lemma NoEntries(bs: seq<seq<Piece>>)
    ensures bs == [] ==> Entries(bs, |bs|) == []
  {
  }

  // Where the rebuild stands before block b.
  ghost predicate Before(bs: seq<seq<Piece>>, m: M.Manifest, b: nat, final: seq<ChunkEntry>, offset: u64) {
    b <= |bs| && if b < |bs| then At(bs, m, b, 0, final, [], offset) else final == Entries(bs, |bs|)
  }

  lemma BeforeIs(bs: seq<seq<Piece>>, m: M.Manifest, b: nat, final: seq<ChunkEntry>, offset: u64)
    ensures Before(bs, m, b, final, offset) <==>
              b <= |bs| && if b < |bs| then At(bs, m, b, 0, final, [], offset) else final == Entries(bs, |bs|)
  {
    hide At, Entries;
  }

  // The table and the frames of the new file: the sender's, block for block.
  method RebuildBlocks(tools: Tools, dict: Bytes, m: M.Manifest, refs: Refs, local: LocalRefs, spill: Bytes, key: Option<Bytes>, nonces: nat -> Bytes,
                       ghost bs: seq<seq<Piece>>) returns (r: Result<(seq<ChunkEntry>, seq<Bytes>)>)
    requires |m.entries| == m.chunkCount
    ensures Honest(m, refs, local, spill, tools.sum64, bs) ==>
              r.Ok? && r.value.0 == Entries(bs, |bs|) && FramesSoFar(tools, key, nonces, dict, bs, r.value.1, |bs|)
  {
    hide *;
    ghost var honest := Honest(m, refs, local, spill, tools.sum64, bs);
    HonestIs(m, refs, local, spill, tools.sum64, bs);
    var final, frames := Stubs(m), [];
    var offset: u64 := 0;
    var starts := BlockStarts(final);
    WholeRanges(final, starts);
    if honest {
      StubStarts(m, tools.sum64, bs);
      if bs != [] { AtStart(bs, m, tools.sum64); }
      NoEntries(bs);
    }
    BeforeIs(bs, m, 0, final, offset);
    FramedNone(tools, key, nonces, dict, bs);
    for b := 0 to |starts|
      invariant |final| == |m.entries| && (honest ==> |bs| == |starts|)
      invariant honest ==> Before(bs, m, b, final, offset)
      invariant honest ==> FramesSoFar(tools, key, nonces, dict, bs, frames, b)
    {
      BeforeIs(bs, m, b, final, offset);
      if honest {
        AtIs(bs, m, b, 0, final, [], offset);
        StartNext(bs, b);
      }
      var (first, end) := BlockRange(starts, b, |m.entries|);
      var block := RebuildBlock(m, refs, local, spill, first, end, final, offset, tools.sum64, bs, b);
      if block.Err? {
        return Err(block.error);
      }
      if honest {
        NextBlock(bs, m, b, block.value.0, block.value.1, block.value.2);
        FramedMore(tools, key, nonces, dict, bs, frames, b, block.value.1);
      }
      frames := frames + [Frame(tools, key, nonces(b), dict, block.value.1)];
      final, offset := block.value.0, block.value.2;
      BeforeIs(bs, m, b + 1, final, offset);
    }
    BeforeIs(bs, m, |starts|, final, offset);
    return Ok((final, frames));
  }

  lemma WholeRanges(es: seq<ChunkEntry>, starts: seq<nat>)
    requires starts == StartsFrom(es, 0, 0)
    ensures forall b :: 0 <= b < |starts| ==> BlockRange(starts, b, |es|).0 <= BlockRange(starts, b, |es|).1 <= |es|
  {
    forall b | 0 <= b < |starts|
      ensures BlockRange(starts, b, |es|).0 <= BlockRange(starts, b, |es|).1 <= |es|
    {
      StartsAscend(es, 0, 0, b);
      if b + 1 < |starts| { StartsAscend(es, 0, 0, b + 1); }
    }
    hide StartsFrom;
  }
}
