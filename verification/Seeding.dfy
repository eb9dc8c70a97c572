// The sender of a sync: the manifest of a file, and the residuals asked for
// (pkg/sync/manifest.go, internal/network/bitswap.go).
module Seeding {
  import opened Common
  import opened Tooling
  import opened Headers
  import opened ChunkTable
  import opened Codebooks
  import opened Blocks
  import opened Container
  import opened Unpacker
  import opened Residues
  import Restoring
  import M = Manifests

  const MANIFEST_VERSION: u16 := 1

  // ----- the manifest ---------------------------------------------------------------

  function EntryFor(sum64: Bytes -> u64, e: ChunkEntry, residual: Bytes): M.ManifestEntry {
    M.ManifestEntry(e.id, sum64(residual), e.size, e.index)
  }

  // The manifest of a file with this header and table, for the residuals found.
  function ManifestOf(sum64: Bytes -> u64, h: Header, es: seq<ChunkEntry>, rs: seq<Bytes>): M.Manifest
    requires |rs| == |es|
  {
    M.Manifest(MANIFEST_VERSION, h.originalHash, h.originalSize, h.chunkCount, seq(|es|, i requires 0 <= i < |es| => EntryFor(sum64, es[i], rs[i])))
  }

  // What a walk over the whole file sees.
  function Walked(tools: Tools, cb: Codebook, password: Bytes, file: Bytes): Result<(Metadata, seq<Bytes>)> {
    var m :- ReadMetadata(tools, file, password);
    var job :- SyncJob(tools, cb, m);
    SyncJobWalks(tools, cb, m);
    var rs :- Residuals(job, 0, m.pool);
    Ok((m, rs))
  }

  lemma WalkedCount(tools: Tools, cb: Codebook, password: Bytes, file: Bytes)
    ensures var w := Walked(tools, cb, password, file); w.Ok? ==> |w.value.1| == |w.value.0.entries|
  {
    var m := ReadMetadata(tools, file, password);
    if m.Ok? {
      SyncJobWalks(tools, cb, m.value);
      var job := SyncJob(tools, cb, m.value);
      if job.Ok? { FirstBlock(job.value); }
    }
    hide ReadMetadata, SyncJob, Residuals, Walks;
  }

  // The manifest entries of one block.
  method HashBlock(sum64: Bytes -> u64, es: seq<ChunkEntry>, pool: Bytes, first: nat, end: nat) returns (r: Result<seq<M.ManifestEntry>>)
    requires first < end <= |es|
    ensures var rs := BlockResiduals(es, pool, es[first].offset, first, end);
            if rs.Err? then r.Err?
            else r.Ok? && |r.value| == end - first && forall k :: 0 <= k < end - first ==> r.value[k] == EntryFor(sum64, es[first + k], rs.value[k])
  {
    hide ResidualOf, EntryFor, BlockResiduals;
    BlockResidualsUnfold(es, pool, es[first].offset, end, end);
    var hashed := [];
    var base := es[first].offset;
    ghost var rs := BlockResiduals(es, pool, base, first, end);
    for i := first to end
      invariant |hashed| == i - first
      invariant rs.Ok? ==> BlockResiduals(es, pool, base, i, end) == Ok(rs.value[i - first..])
      invariant rs.Err? ==> BlockResiduals(es, pool, base, i, end).Err?
      invariant rs.Ok? ==> forall k :: 0 <= k < i - first ==> hashed[k] == EntryFor(sum64, es[first + k], rs.value[k])
    {
      BlockResidualsTail(es, pool, base, i, end);
      var residual := ResidualOf(es[i], pool, base);
      if residual.Err? {
        return Err(residual.error);
      }
      if rs.Ok? { assert rs.value[i - first..][1..] == rs.value[i + 1 - first..]; }
      hashed := hashed + [EntryFor(sum64, es[i], residual.value)];
    }
    return Ok(hashed);
  }

  // What a walk still has to see from block i on, in terms of the whole.
  ghost predicate Remaining(job: Job, all: Result<seq<Bytes>>, i: nat, stream: Bytes)
    requires Walks(job) && i <= |job.sizes|
  {
    var here := Residuals(job, i, stream);
    if all.Err? then here.Err?
    else First(job, i) <= |all.value| == |job.entries| && here == Ok(all.value[First(job, i)..])
  }

  lemma RemainingStart(job: Job, stream: Bytes)
    requires Walks(job)
    ensures Remaining(job, Residuals(job, 0, stream), 0, stream)
  {
    FirstBlock(job);
    hide Residuals, Walks, First;
  }

  // One block further on.
  lemma RemainingStep(job: Job, all: Result<seq<Bytes>>, i: nat, stream: Bytes)
    requires Walks(job) && i < |job.sizes| && Remaining(job, all, i, stream)
    ensures First(job, i) < First(job, i + 1) <= |job.entries|
    ensures OpenBlock(job, i, stream).Err? ==> all.Err?
    ensures OpenBlock(job, i, stream).Ok? ==>
              var (pool, rest) := OpenBlock(job, i, stream).value;
              var first, end := First(job, i), First(job, i + 1);
              var rs := BlockResiduals(job.entries, pool, job.entries[first].offset, first, end);
              if rs.Err? then all.Err?
              else Remaining(job, all, i + 1, rest) && (all.Ok? ==> |all.value| == |job.entries| && rs.value == all.value[first..end])
  {
    ResidualsStep(job, i, stream);
    hide Walks, OpenBlock, BlockResiduals, First;
    var got, first, end := OpenBlock(job, i, stream), First(job, i), First(job, i + 1);
    if got.Ok? {
      var (pool, rest) := got.value;
      var rs := BlockResiduals(job.entries, pool, job.entries[first].offset, first, end);
      if rs.Ok? {
        WalkUnfold(job, i, stream, pool, rest);
        if all.Ok? { Halves(all.value, first, end, rs.value, Residuals(job, i + 1, rest).value); }
      }
    }
  }

  lemma Halves(all: seq<Bytes>, first: nat, end: nat, a: seq<Bytes>, b: seq<Bytes>)
    requires first <= end <= |all| && all[first..] == a + b && |a| == end - first
    ensures a == all[first..end] && b == all[end..]
  {
    assert all[first..][..end - first] == all[first..end] && all[first..][end - first..] == all[end..];
  }

  // The entries hashed so far.
  ghost predicate Hashed(sum64: Bytes -> u64, es: seq<ChunkEntry>, all: Result<seq<Bytes>>, hashed: seq<M.ManifestEntry>, n: nat) {
    && |hashed| == n <= |es|
    && (all.Ok? ==> |all.value| == |es| && forall k :: 0 <= k < n ==> hashed[k] == EntryFor(sum64, es[k], all.value[k]))
  }

  lemma HashedMore(sum64: Bytes -> u64, es: seq<ChunkEntry>, all: Result<seq<Bytes>>, hashed: seq<M.ManifestEntry>, n: nat,
                   more: seq<M.ManifestEntry>, end: nat, rs: seq<Bytes>)
    requires Hashed(sum64, es, all, hashed, n) && n <= end <= |es| && |more| == |rs| == end - n
    requires forall k :: 0 <= k < end - n ==> more[k] == EntryFor(sum64, es[n + k], rs[k])
    requires all.Ok? ==> |all.value| == |es| && rs == all.value[n..end]
    ensures Hashed(sum64, es, all, hashed + more, end)
  {
    hide EntryFor;
    if all.Ok? {
      forall k | 0 <= k < end
        ensures (hashed + more)[k] == EntryFor(sum64, es[k], all.value[k])
      {
        if k >= n { assert more[k - n] == EntryFor(sum64, es[n + (k - n)], rs[k - n]); }
      }
    }
  }

  method HashBlocks(sum64: Bytes -> u64, job: Job, stream0: Bytes) returns (r: Result<seq<M.ManifestEntry>>)
    requires Walks(job)
    ensures var all := Residuals(job, 0, stream0);
            if all.Err? then r.Err? else r.Ok? && Hashed(sum64, job.entries, all, r.value, |job.entries|)
  {
    hide *;
    ghost var all := Residuals(job, 0, stream0);
    var stream, hashed := stream0, [];
    RemainingStart(job, stream);
    FirstBlock(job);
    HashedNone(sum64, job, all);
    WalkCount(job);
    for i := 0 to |job.sizes|
      invariant Remaining(job, all, i, stream)
      invariant Hashed(sum64, job.entries, all, hashed, First(job, i))
    {
      RemainingStep(job, all, i, stream);
      RangeInTable(job, i);
      var (first, end) := BlockRange(job.starts, i, |job.entries|);
      var got := OpenBlock(job, i, stream);
      if got.Err? {
        return Err(got.error);
      }
      var more := HashBlock(sum64, job.entries, got.value.0, first, end);
      if more.Err? {
        return Err(more.error);
      }
      HashedMore(sum64, job.entries, all, hashed, first, more.value, end,
                 BlockResiduals(job.entries, got.value.0, job.entries[first].offset, first, end).value);
      hashed := hashed + more.value;
      stream := got.value.1;
    }
    RemainingEnd(job, all, stream);
    return Ok(hashed);
  }

  lemma WalkCount(job: Job)
    requires Walks(job)
    ensures |job.starts| == |job.sizes|
  {
    hide StartsFrom;
  }

  lemma HashedNone(sum64: Bytes -> u64, job: Job, all: Result<seq<Bytes>>)
    requires all.Ok? ==> |all.value| == |job.entries|
    ensures Hashed(sum64, job.entries, all, [], 0)
  {
  }

  lemma RemainingEnd(job: Job, all: Result<seq<Bytes>>, stream: Bytes)
    requires Walks(job) && Remaining(job, all, |job.sizes|, stream)
    ensures all.Ok?
  {
    WalkEnds(job, stream);
    hide Walks, Residuals, First;
  }

  method GenerateManifest(tools: Tools, cb: Codebook, password: Bytes, file: Bytes) returns (r: Result<M.Manifest>)
    ensures var w := Walked(tools, cb, password, file);
            if w.Err? then r.Err?
            else |w.value.1| == |w.value.0.entries| && r == Ok(ManifestOf(tools.sum64, w.value.0.header, w.value.0.entries, w.value.1))
  {
    hide *;
    WalkedParts(tools, cb, password, file);
    WalkedCount(tools, cb, password, file);
    var m := ReadMetadata(tools, file, password);
    if m.Err? {
      return Err(m.error);
    }
    var job := SyncJob(tools, cb, m.value);
    if job.Err? {
      return Err(job.error);
    }
    var hashed := HashBlocks(tools.sum64, job.value, m.value.pool);
    if hashed.Err? {
      return Err(hashed.error);
    }
    var h := m.value.header;
    r := Ok(M.Manifest(MANIFEST_VERSION, h.originalHash, h.originalSize, h.chunkCount, hashed.value));
    ManifestIs(tools.sum64, h, m.value.entries, Residuals(job.value, 0, m.value.pool).value, hashed.value);
  }

  lemma WalkedParts(tools: Tools, cb: Codebook, password: Bytes, file: Bytes)
    ensures var m := ReadMetadata(tools, file, password);
            if m.Err? then Walked(tools, cb, password, file).Err?
            else
              var job := SyncJob(tools, cb, m.value);
              if job.Err? then Walked(tools, cb, password, file).Err?
              else
                && Walks(job.value) && job.value.entries == m.value.entries
                && var rs := Residuals(job.value, 0, m.value.pool);
                   Walked(tools, cb, password, file) == if rs.Err? then Err(rs.error) else Ok((m.value, rs.value))
  {
    var m := ReadMetadata(tools, file, password);
    if m.Ok? { SyncJobWalks(tools, cb, m.value); }
    hide ReadMetadata, SyncJob, Residuals, Walks;
  }

  lemma ManifestIs(sum64: Bytes -> u64, h: Header, es: seq<ChunkEntry>, rs: seq<Bytes>, hashed: seq<M.ManifestEntry>)
    requires |rs| == |es| && Hashed(sum64, es, Ok(rs), hashed, |es|)
    ensures ManifestOf(sum64, h, es, rs) == M.Manifest(MANIFEST_VERSION, h.originalHash, h.originalSize, h.chunkCount, hashed)
  {
    hide EntryFor;
    SameElements(ManifestOf(sum64, h, es, rs).entries, hashed);
  }

  // ----- sending residuals ---------------------------------------------------------------

  ghost predicate Ascending(s: seq<u32>) {
    forall i, j :: 0 <= i < j < |s| ==> s[i] <= s[j]
  }

  function Insert(s: seq<u32>, x: u32): seq<u32> {
    if s == [] || x <= s[0] then [x] + s else [s[0]] + Insert(s[1..], x)
  }

  // sort.Slice: the indexes in ascending order, repeats kept.
  function Sorted(s: seq<u32>): seq<u32> {
    if s == [] then [] else Insert(Sorted(s[1..]), s[0])
  }

  lemma {:induction false} InsertAscends(s: seq<u32>, x: u32)
    requires Ascending(s)
    ensures Ascending(Insert(s, x)) && multiset(Insert(s, x)) == multiset(s) + multiset{x}
  {
    if s == [] || x <= s[0] {
      ConsAscends(x, s);
    } else {
      var rest := s[1..];
      assert s == [s[0]] + rest && Insert(s, x) == [s[0]] + Insert(rest, x);
      hide Insert;
      InsertAscends(rest, x);
      InsertBounds(rest, x, s[0]);
      ConsAscends(s[0], Insert(rest, x));
    }
  }

  lemma ConsAscends(x: u32, s: seq<u32>)
    requires Ascending(s) && forall i :: 0 <= i < |s| ==> x <= s[i]
    ensures Ascending([x] + s) && multiset([x] + s) == multiset{x} + multiset(s)
  {
  }

  lemma InOrder(s: seq<u32>, i: int, j: int)
    requires Ascending(s)
    ensures 0 <= i <= j < |s| ==> s[i] <= s[j]
  {
  }

  lemma {:induction false} InsertBounds(s: seq<u32>, x: u32, low: u32)
    requires low <= x && forall i :: 0 <= i < |s| ==> low <= s[i]
    ensures forall i :: 0 <= i < |Insert(s, x)| ==> low <= Insert(s, x)[i]
  {
    if s != [] && x > s[0] { InsertBounds(s[1..], x, low); }
  }

  lemma {:induction false} SortedAscends(s: seq<u32>)
    ensures Ascending(Sorted(s)) && multiset(Sorted(s)) == multiset(s)
  {
    if s != [] {
      SortedAscends(s[1..]);
      InsertAscends(Sorted(s[1..]), s[0]);
      assert s == [s[0]] + s[1..];
    }
  }

  lemma {:induction false} SortedAlready(s: seq<u32>)
    requires forall i, j :: 0 <= i < j < |s| ==> s[i] < s[j]
    ensures Sorted(s) == s
  {
    if s != [] {
      SortedAlready(s[1..]);
      assert s == [s[0]] + s[1..];
      assert |s| > 1 ==> s[0] < s[1] == s[1..][0];
    }
  }

  // One residual on the wire: its index and length, then its bytes.
  function ChunkMessage(idx: u32, residual: Bytes): Bytes {
    U32(idx) + U32(|residual| % TWO_TO_32) + residual
  }

  // What is sent for the indexes from position i on: those below the number of
  // chunks, in their order, each with its own residual.
  function Wire(rs: seq<Bytes>, ordered: seq<u32>, i: nat): Bytes
    requires i <= |ordered|
    decreases |ordered| - i
  {
    if i == |ordered| || ordered[i] >= |rs| then []
    else ChunkMessage(ordered[i], rs[ordered[i]]) + Wire(rs, ordered, i + 1)
  }

  lemma WireUnfold(rs: seq<Bytes>, ordered: seq<u32>, i: nat)
    requires i <= |ordered|
    ensures i == |ordered| || ordered[i] >= |rs| ==> Wire(rs, ordered, i) == []
    ensures i < |ordered| && ordered[i] < |rs| ==> Wire(rs, ordered, i) == ChunkMessage(ordered[i], rs[ordered[i]]) + Wire(rs, ordered, i + 1)
  {
  }

  // The indexes sent before position n lie before the chunk, the others do not.
  ghost predicate Split(ordered: seq<u32>, n: nat, chunk: nat) {
    && n <= |ordered| && (n > 0 ==> ordered[n - 1] < chunk) && (n < |ordered| ==> chunk <= ordered[n])
  }

  // ----- what a walk for some chunks sees ----------------------------------------------------

  ghost predicate Wanted(ordered: seq<u32>, first: nat, end: nat) {
    exists j :: 0 <= j < |ordered| && first <= ordered[j] < end
  }

  // Residuals in their places, those nobody asked for left out.
  ghost function Masked(rs: seq<Bytes>, ordered: seq<u32>, from: nat): (m: seq<Bytes>)
    ensures |m| == |rs|
  {
    seq(|rs|, k requires 0 <= k < |rs| => if from + k in ordered then rs[k] else [])
  }

  // Of a block that is opened, only the residuals asked for are looked at.
  ghost function Picked(es: seq<ChunkEntry>, pool: Bytes, base: u64, ordered: seq<u32>, i: nat, end: nat): (r: Result<seq<Bytes>>)
    requires i <= end <= |es|
    ensures r.Ok? ==> |r.value| == end - i
    decreases end - i
  {
    if i == end then Ok([])
    else
      var res :- if i in ordered then ResidualOf(es[i], pool, base) else Ok([]);
      var rest :- Picked(es, pool, base, ordered, i + 1, end);
      Ok([res] + rest)
  }

  // A block with a chunk asked for is opened, any other one skipped.
  ghost function AskedBlock(job: Job, ordered: seq<u32>, i: nat, stream: Bytes): (r: Result<(seq<Bytes>, Bytes)>)
    requires Walks(job) && i < |job.sizes|
    ensures First(job, i) < First(job, i + 1) <= |job.entries|
    ensures r.Ok? ==> |r.value.0| == First(job, i + 1) - First(job, i)
  {
    RangeInTable(job, i);
    var first, end := First(job, i), First(job, i + 1);
    if Wanted(ordered, first, end) then
      var (pool, rest) :- OpenBlock(job, i, stream);
      var rs :- Picked(job.entries, pool, job.entries[first].offset, ordered, first, end);
      Ok((rs, rest))
    else
      var (_, rest) :- ReadFull(stream, job.sizes[i]);
      Ok((Masked(seq(end - first, _ => []), ordered, first), rest))
  }

  ghost function Asked(job: Job, ordered: seq<u32>, i: nat, stream: Bytes): (r: Result<seq<Bytes>>)
    requires Walks(job) && i <= |job.sizes|
    ensures r.Ok? ==> First(job, i) <= |job.entries| && |r.value| == |job.entries| - First(job, i)
    decreases |job.sizes| - i
  {
    FirstBlock(job);
    if i == |job.sizes| then Ok([])
    else
      var (rs, rest) :- AskedBlock(job, ordered, i, stream);
      var more :- Asked(job, ordered, i + 1, rest);
      Ok(rs + more)
  }

  lemma AskedUnfold(job: Job, ordered: seq<u32>, i: nat, stream: Bytes)
    requires Walks(job) && i <= |job.sizes|
    ensures i == |job.sizes| ==> Asked(job, ordered, i, stream) == Ok([])
    ensures i < |job.sizes| ==>
              var block := AskedBlock(job, ordered, i, stream);
              if block.Err? then Asked(job, ordered, i, stream).Err?
              else
                var more := Asked(job, ordered, i + 1, block.value.1);
                if more.Err? then Asked(job, ordered, i, stream).Err? else Asked(job, ordered, i, stream) == Ok(block.value.0 + more.value)
  {
    hide Walks, AskedBlock, First;
  }

  // What is left of such a walk from block i on, in terms of the whole.
  ghost predicate Left(job: Job, ordered: seq<u32>, all: Result<seq<Bytes>>, i: nat, stream: Bytes)
    requires Walks(job) && i <= |job.sizes|
  {
    var here := Asked(job, ordered, i, stream);
    if all.Err? then here.Err?
    else First(job, i) <= |all.value| == |job.entries| && here == Ok(all.value[First(job, i)..])
  }

  lemma LeftStart(job: Job, ordered: seq<u32>, stream: Bytes)
    requires Walks(job)
    ensures Left(job, ordered, Asked(job, ordered, 0, stream), 0, stream)
  {
    FirstBlock(job);
    hide Asked, Walks, First;
  }

  lemma LeftStep(job: Job, ordered: seq<u32>, all: Result<seq<Bytes>>, i: nat, stream: Bytes)
    requires Walks(job) && i < |job.sizes| && Left(job, ordered, all, i, stream)
    ensures First(job, i) < First(job, i + 1) <= |job.entries|
    ensures var block := AskedBlock(job, ordered, i, stream);
            if block.Err? then all.Err?
            else
              && Left(job, ordered, all, i + 1, block.value.1)
              && (all.Ok? ==> |all.value| == |job.entries| && block.value.0 == all.value[First(job, i)..First(job, i + 1)])
  {
    AskedUnfold(job, ordered, i, stream);
    hide Walks, AskedBlock, First, Asked;
    var block := AskedBlock(job, ordered, i, stream);
    if block.Ok? && all.Ok? {
      Halves(all.value, First(job, i), First(job, i + 1), block.value.0, Asked(job, ordered, i + 1, block.value.1).value);
    }
  }

  lemma LeftEnd(job: Job, ordered: seq<u32>, all: Result<seq<Bytes>>, stream: Bytes)
    requires Walks(job) && Left(job, ordered, all, |job.sizes|, stream)
    ensures all.Ok?
  {
    AskedUnfold(job, ordered, |job.sizes|, stream);
    hide Walks, Asked, First;
  }

  // What is picked from a block, residual by residual.
  lemma {:induction false} PickedIs(es: seq<ChunkEntry>, pool: Bytes, base: u64, ordered: seq<u32>, i: nat, end: nat)
    requires i <= end <= |es|
    ensures Picked(es, pool, base, ordered, i, end).Ok? <==> forall k :: i <= k < end && k in ordered ==> ResidualOf(es[k], pool, base).Ok?
    ensures Picked(es, pool, base, ordered, i, end).Ok? ==>
              forall k :: i <= k < end ==>
                Picked(es, pool, base, ordered, i, end).value[k - i] == if k in ordered then ResidualOf(es[k], pool, base).value else []
    decreases end - i
  {
    hide ResidualOf;
    if i < end { PickedIs(es, pool, base, ordered, i + 1, end); }
  }

  // ----- a walk for some chunks and one for all -------------------------------------------------

  lemma PickedOfAll(es: seq<ChunkEntry>, pool: Bytes, base: u64, ordered: seq<u32>, i: nat, end: nat)
    requires i <= end <= |es| && BlockResiduals(es, pool, base, i, end).Ok?
    ensures Picked(es, pool, base, ordered, i, end) == Ok(Masked(BlockResiduals(es, pool, base, i, end).value, ordered, i))
  {
    hide ResidualOf;
    var rs := BlockResiduals(es, pool, base, i, end).value;
    forall k | i <= k < end
      ensures ResidualOf(es[k], pool, base) == Ok(rs[k - i])
    {
      BlockResidualAt(es, pool, base, i, end, k);
    }
    PickedIs(es, pool, base, ordered, i, end);
    hide Picked, BlockResiduals;
    SameElements(Picked(es, pool, base, ordered, i, end).value, Masked(rs, ordered, i));
  }

  lemma NotAsked(ordered: seq<u32>, first: nat, end: nat, k: nat)
    requires first <= k < end && !Wanted(ordered, first, end)
    ensures k !in ordered
  {
  }

  lemma NoneMasked(rs: seq<Bytes>, ordered: seq<u32>, first: nat, end: nat)
    requires |rs| == end - first && first <= end && !Wanted(ordered, first, end)
    ensures Masked(seq(end - first, _ => []), ordered, first) == Masked(rs, ordered, first)
  {
    forall k: nat | first <= k < end
      ensures k !in ordered
    {
      NotAsked(ordered, first, end, k);
    }
    SameElements(Masked(seq(end - first, _ => []), ordered, first), Masked(rs, ordered, first));
  }

  lemma MaskedJoin(a: seq<Bytes>, b: seq<Bytes>, ordered: seq<u32>, from: nat)
    ensures Masked(a, ordered, from) + Masked(b, ordered, from + |a|) == Masked(a + b, ordered, from)
  {
    SameElements(Masked(a, ordered, from) + Masked(b, ordered, from + |a|), Masked(a + b, ordered, from));
  }

  // Where every block opens, a walk for some chunks sees what a full one does.
  lemma {:induction false} AskedOfAll(job: Job, ordered: seq<u32>, i: nat, stream: Bytes)
    requires Walks(job) && i <= |job.sizes| && Residuals(job, i, stream).Ok?
    ensures Asked(job, ordered, i, stream) == Ok(Masked(Residuals(job, i, stream).value, ordered, First(job, i)))
    decreases |job.sizes| - i
  {
    hide *;
    AskedUnfold(job, ordered, i, stream);
    if i == |job.sizes| {
      WalkEnds(job, stream);
      assert Masked([], ordered, First(job, i)) == [];
    } else {
      ResidualsStep(job, i, stream);
      var (pool, rest) := OpenBlock(job, i, stream).value;
      var first, end := First(job, i), First(job, i + 1);
      var rs := BlockResiduals(job.entries, pool, job.entries[first].offset, first, end).value;
      PickedOfAll(job.entries, pool, job.entries[first].offset, ordered, first, end);
      SkippedBlock(job, i, stream);
      AskedBlockIs(job, ordered, i, stream, pool, rest, rs);
      AskedOfAll(job, ordered, i + 1, rest);
      MaskedJoin(rs, Residuals(job, i + 1, rest).value, ordered, first);
    }
  }

  // A block asked for shows what is asked of it, any other one nothing.
  lemma AskedBlockIs(job: Job, ordered: seq<u32>, i: nat, stream: Bytes, pool: Bytes, rest: Bytes, rs: seq<Bytes>)
    requires Walks(job) && i < |job.sizes| && First(job, i) < First(job, i + 1) <= |job.entries| && |rs| == First(job, i + 1) - First(job, i)
    requires ReadFull(stream, job.sizes[i]).Ok? && ReadFull(stream, job.sizes[i]).value.1 == rest
    requires var first, end := First(job, i), First(job, i + 1);
             Wanted(ordered, first, end) ==>
               && OpenBlock(job, i, stream) == Ok((pool, rest))
               && Picked(job.entries, pool, job.entries[first].offset, ordered, first, end) == Ok(Masked(rs, ordered, first))
    ensures AskedBlock(job, ordered, i, stream) == Ok((Masked(rs, ordered, First(job, i)), rest))
  {
    var first, end := First(job, i), First(job, i + 1);
    if !Wanted(ordered, first, end) { NoneMasked(rs, ordered, first, end); }
    hide Walks, OpenBlock, Picked, First, Wanted, Masked, ReadFull;
  }

  // The wire depends only on the residuals it carries.
  lemma {:induction false} WireMasked(rs: seq<Bytes>, ordered: seq<u32>, i: nat)
    requires i <= |ordered|
    ensures Wire(Masked(rs, ordered, 0), ordered, i) == Wire(rs, ordered, i)
    decreases |ordered| - i
  {
    hide ChunkMessage;
    if i < |ordered| && ordered[i] < |rs| {
      assert ordered[i] in ordered;
      WireMasked(rs, ordered, i + 1);
    }
  }

  // ----- sending ----------------------------------------------------------------------------------

  // What has been sent, against what the whole walk would send.
  ghost predicate Sent(all: Result<seq<Bytes>>, ordered: seq<u32>, n: nat, wire: Bytes) {
    n <= |ordered| && (all.Ok? ==> wire + Wire(all.value, ordered, n) == Wire(all.value, ordered, 0))
  }

  lemma SentMore(all: Result<seq<Bytes>>, ordered: seq<u32>, n: nat, wire: Bytes, residual: Bytes)
    requires Sent(all, ordered, n, wire) && n < |ordered|
    requires all.Ok? ==> ordered[n] < |all.value| && residual == all.value[ordered[n]]
    ensures Sent(all, ordered, n + 1, wire + ChunkMessage(ordered[n], residual))
  {
    hide ChunkMessage;
    if all.Ok? {
      WireUnfold(all.value, ordered, n);
      hide Wire;
      Regroup(wire, ChunkMessage(ordered[n], residual), Wire(all.value, ordered, n + 1));
    }
  }

  // The chunks of one block that were asked for. The next index always lies in
  // the block, so the test for one before it never fires.
  method SendBlock(es: seq<ChunkEntry>, pool: Bytes, first: nat, end: nat, ordered: seq<u32>, next0: nat, wire0: Bytes,
                   ghost all: Result<seq<Bytes>>) returns (r: Result<(nat, Bytes)>)
    requires first < end <= |es| && Ascending(ordered) && Split(ordered, next0, first) && Sent(all, ordered, next0, wire0)
    requires var rs := Picked(es, pool, es[first].offset, ordered, first, end);
             all.Ok? ==> rs.Ok? && |all.value| == |es| && rs.value == all.value[first..end]
    ensures r.Ok? <==> Picked(es, pool, es[first].offset, ordered, first, end).Ok?
    ensures r.Ok? ==> Split(ordered, r.value.0, end) && Sent(all, ordered, r.value.0, r.value.1)
  {
    hide *;
    var base := es[first].offset;
    var next, wire := next0, wire0;
    SplitIs(ordered, next, first);
    PickedIs(es, pool, base, ordered, first, end);
    while next < |ordered| && ordered[next] < end
      invariant next0 <= next <= |ordered| && (next > 0 ==> ordered[next - 1] < end)
      invariant next < |ordered| ==> first <= ordered[next]
      invariant forall j :: next0 <= j < next ==> first <= ordered[j] < end && ResidualOf(es[ordered[j]], pool, base).Ok?
      invariant Sent(all, ordered, next, wire)
    {
      var idx := ordered[next];
      assert idx >= first && idx in ordered;
      var residual := ResidualOf(es[idx], pool, base);
      if residual.Err? {
        return Err(residual.error);
      }
      SentMore(all, ordered, next, wire, residual.value);
      wire := wire + ChunkMessage(idx, residual.value);
      Step(ordered, next);
      next := next + 1;
    }
    SplitIs(ordered, next, end);
    InBetween(ordered, next0, next, first, end);
    return Ok((next, wire));
  }

  // The requests for a block stand together.
  lemma InBetween(ordered: seq<u32>, n: nat, m: nat, first: nat, end: nat)
    requires Ascending(ordered) && Split(ordered, n, first) && Split(ordered, m, end) && n <= m
    ensures forall k :: first <= k < end && k in ordered ==> exists j :: n <= j < m && ordered[j] == k
  {
    forall k | first <= k < end && k in ordered
      ensures exists j :: n <= j < m && ordered[j] == k
    {
      var j :| 0 <= j < |ordered| && ordered[j] == k;
      InOrder(ordered, j, n - 1);
      InOrder(ordered, m, j);
    }
  }

  lemma SplitIs(ordered: seq<u32>, n: nat, chunk: nat)
    ensures Split(ordered, n, chunk) <==>
              n <= |ordered| && (n > 0 ==> ordered[n - 1] < chunk) && (n < |ordered| ==> chunk <= ordered[n])
  {
  }

  lemma Step(ordered: seq<u32>, n: nat)
    requires Ascending(ordered) && n < |ordered|
    ensures n + 1 < |ordered| ==> ordered[n] <= ordered[n + 1]
  {
  }

  // The want callback, with its cursor, says which blocks hold a chunk asked for.
  lemma WantedNext(ordered: seq<u32>, next: nat, first: nat, end: nat)
    requires Ascending(ordered) && Split(ordered, next, first) && first <= end
    ensures Wanted(ordered, first, end) <==> next < |ordered| && ordered[next] < end
  {
    if Wanted(ordered, first, end) {
      var j :| 0 <= j < |ordered| && first <= ordered[j] < end;
      InOrder(ordered, j, next - 1);
      InOrder(ordered, next, j);
    }
  }

  lemma AskedBlockOpens(job: Job, ordered: seq<u32>, i: nat, stream: Bytes)
    requires Walks(job) && i < |job.sizes|
    ensures var first, end := First(job, i), First(job, i + 1);
            var block := AskedBlock(job, ordered, i, stream);
            && first < end <= |job.entries|
            && if Wanted(ordered, first, end) then
                 var got := OpenBlock(job, i, stream);
                 if got.Err? then block.Err?
                 else
                   var rs := Picked(job.entries, got.value.0, job.entries[first].offset, ordered, first, end);
                   if rs.Err? then block.Err? else block == Ok((rs.value, got.value.1))
               else
                 var skipped := ReadFull(stream, job.sizes[i]);
                 if skipped.Err? then block.Err? else block.Ok? && block.value.1 == skipped.value.1
  {
    RangeInTable(job, i);
    hide Walks, OpenBlock, Picked, First, Wanted, Masked, ReadFull;
  }

  // Fails exactly if a block asked for, or a chunk asked of it, cannot be read, or
  // the file ends too soon.
  method StreamBlocks(job: Job, stream0: Bytes, ordered: seq<u32>) returns (r: Result<Bytes>)
    requires Walks(job) && Ascending(ordered)
    ensures var all := Asked(job, ordered, 0, stream0);
            if all.Err? then r.Err? else r == Ok(Wire(all.value, ordered, 0))
  {
    hide *;
    ghost var all := Asked(job, ordered, 0, stream0);
    var stream, wire := stream0, [];
    var next: nat := 0;
    LeftStart(job, ordered, stream);
    FirstBlock(job);
    SentNone(all, ordered);
    SplitIs(ordered, 0, 0);
    WalkCount(job);
    for i := 0 to |job.sizes|
      invariant Left(job, ordered, all, i, stream)
      invariant Split(ordered, next, First(job, i)) && Sent(all, ordered, next, wire)
    {
      SplitIs(ordered, next, First(job, i));
      LeftStep(job, ordered, all, i, stream);
      AskedBlockOpens(job, ordered, i, stream);
      RangeInTable(job, i);
      var (first, end) := BlockRange(job.starts, i, |job.entries|);
      WantedNext(ordered, next, first, end);
      if next < |ordered| && ordered[next] < end {
        var got := OpenBlock(job, i, stream);
        if got.Err? {
          return Err(got.error);
        }
        var sent := SendBlock(job.entries, got.value.0, first, end, ordered, next, wire, all);
        if sent.Err? {
          return Err(sent.error);
        }
        next, wire, stream := sent.value.0, sent.value.1, got.value.1;
      } else {
        var skipped := ReadFull(stream, job.sizes[i]);
        if skipped.Err? {
          return Err(skipped.error);
        }
        stream := skipped.value.1;
        SplitIs(ordered, next, end);
      }
    }
    SplitIs(ordered, next, |job.entries|);
    LeftEnd(job, ordered, all, stream);
    AskedCount(job, ordered, stream0);
    SentAll(all, ordered, next, wire, |job.entries|);
    return Ok(wire);
  }

  lemma AskedCount(job: Job, ordered: seq<u32>, stream: Bytes)
    requires Walks(job)
    ensures var all := Asked(job, ordered, 0, stream); all.Ok? ==> |all.value| == |job.entries|
  {
    FirstBlock(job);
    hide Asked, Walks, First;
  }

  lemma SentNone(all: Result<seq<Bytes>>, ordered: seq<u32>)
    ensures Sent(all, ordered, 0, [])
  {
    hide Wire;
    if all.Ok? { assert [] + Wire(all.value, ordered, 0) == Wire(all.value, ordered, 0); }
  }

  lemma SentAll(all: Result<seq<Bytes>>, ordered: seq<u32>, n: nat, wire: Bytes, count: nat)
    requires Sent(all, ordered, n, wire) && Split(ordered, n, count) && (all.Ok? ==> |all.value| == count)
    ensures all.Ok? ==> wire == Wire(all.value, ordered, 0)
  {
    hide ChunkMessage;
    if all.Ok? {
      WireUnfold(all.value, ordered, n);
      assert wire + [] == wire;
    }
  }

  // What a walk for these chunks sees of a file.
  ghost function AskedOf(tools: Tools, cb: Codebook, password: Bytes, file: Bytes, ordered: seq<u32>): Result<seq<Bytes>> {
    var m :- ReadMetadata(tools, file, password);
    var job :- SyncJob(tools, cb, m);
    SyncJobWalks(tools, cb, m);
    Asked(job, ordered, 0, m.pool)
  }

  lemma AskedParts(tools: Tools, cb: Codebook, password: Bytes, file: Bytes, ordered: seq<u32>)
    ensures var m := ReadMetadata(tools, file, password);
            if m.Err? then AskedOf(tools, cb, password, file, ordered).Err?
            else
              var job := SyncJob(tools, cb, m.value);
              if job.Err? then AskedOf(tools, cb, password, file, ordered).Err?
              else Walks(job.value) && AskedOf(tools, cb, password, file, ordered) == Asked(job.value, ordered, 0, m.value.pool)
  {
    var m := ReadMetadata(tools, file, password);
    if m.Ok? { SyncJobWalks(tools, cb, m.value); }
    hide ReadMetadata, SyncJob, Asked, Walks;
  }

  // StreamChunks: exactly the requested indexes that exist, in ascending order
  // with their repeats, each with its own residual. It fails if and only if the
  // walk for them does; blocks nobody asked for need not open.
  method StreamChunks(tools: Tools, cb: Codebook, password: Bytes, file: Bytes, indices: seq<u32>) returns (r: Result<Bytes>)
    ensures var all := AskedOf(tools, cb, password, file, Sorted(indices));
            if all.Err? then r.Err? else r == Ok(Wire(all.value, Sorted(indices), 0))
  {
    hide *;
    AskedParts(tools, cb, password, file, Sorted(indices));
    SortedAscends(indices);
    var m := ReadMetadata(tools, file, password);
    if m.Err? {
      return Err(m.error);
    }
    var job := SyncJob(tools, cb, m.value);
    if job.Err? {
      return Err(job.error);
    }
    r := StreamBlocks(job.value, m.value.pool, Sorted(indices));
  }

  // Of a file that can be walked through, all that is asked for is sent.
  lemma AskedOfWalked(tools: Tools, cb: Codebook, password: Bytes, file: Bytes, ordered: seq<u32>)
    requires Walked(tools, cb, password, file).Ok?
    ensures var rs := Walked(tools, cb, password, file).value.1;
            var all := AskedOf(tools, cb, password, file, ordered);
            all.Ok? && Wire(all.value, ordered, 0) == Wire(rs, ordered, 0)
  {
    hide *;
    WalkedParts(tools, cb, password, file);
    AskedParts(tools, cb, password, file, ordered);
    var m := ReadMetadata(tools, file, password).value;
    var job := SyncJob(tools, cb, m).value;
    FirstBlock(job);
    AskedOfAll(job, ordered, 0, m.pool);
    WireMasked(Residuals(job, 0, m.pool).value, ordered, 0);
  }

  // ----- files with damaged blocks ---------------------------------------------------------------

  // The blocks asked for open to their pools; nothing is said of the others.
  ghost predicate WantedOpen(job: Job, bs: seq<seq<Piece>>, frames: seq<Bytes>, ordered: seq<u32>) {
    && WellFormed(bs) && |frames| == |bs|
    && job.entries == Entries(bs, |bs|) && job.starts == TrueStarts(bs, 0) && job.sizes == Lengths(frames)
    && (forall k :: 0 <= k < |frames| ==> |frames[k]| < TWO_TO_32)
    && forall k :: 0 <= k < |bs| && Wanted(ordered, Start(bs, k), Start(bs, k + 1)) ==>
         OpenFrame(job.tools, job.key, job.dict, frames[k]) == Ok(Pool(bs[k], |bs[k]|))
  }

  lemma WantedWalks(job: Job, bs: seq<seq<Piece>>, frames: seq<Bytes>, ordered: seq<u32>)
    requires WantedOpen(job, bs, frames, ordered)
    ensures Walks(job) && |job.sizes| == |bs| == |frames| && WellFormed(bs) && job.entries == Entries(bs, |bs|)
    ensures forall k :: 0 <= k <= |bs| ==> First(job, k) == Start(bs, k)
  {
    BoundariesRecovered(bs);
    forall k | 0 <= k <= |bs|
      ensures First(job, k) == Start(bs, k)
    {
      if k < |bs| { TrueStartAt(bs, 0, k); }
    }
    hide WellFormed, Entries, StartsFrom, TrueStarts, Start, Pool, OpenFrame, Wanted;
  }

  lemma WantedBlock(job: Job, bs: seq<seq<Piece>>, frames: seq<Bytes>, ordered: seq<u32>, k: nat)
    requires WantedOpen(job, bs, frames, ordered) && k < |bs|
    ensures |frames| == |bs| && k < |job.sizes| && ReadFull(Concat(frames, k), job.sizes[k]) == Ok((frames[k], Concat(frames, k + 1)))
    ensures Wanted(ordered, Start(bs, k), Start(bs, k + 1)) ==>
              OpenBlock(job, k, Concat(frames, k)) == Ok((Pool(bs[k], |bs[k]|), Concat(frames, k + 1)))
  {
    hide *;
    WantedAt(job, bs, frames, ordered, k);
    Restoring.FrameRead(frames, k);
    OpenedBlock(job, k, Concat(frames, k), frames[k], Concat(frames, k + 1));
  }

  lemma WantedAt(job: Job, bs: seq<seq<Piece>>, frames: seq<Bytes>, ordered: seq<u32>, k: nat)
    requires WantedOpen(job, bs, frames, ordered) && k < |bs|
    ensures |frames| == |bs| == |job.sizes| && job.sizes[k] == |frames[k]|
    ensures Wanted(ordered, Start(bs, k), Start(bs, k + 1)) ==> OpenFrame(job.tools, job.key, job.dict, frames[k]) == Ok(Pool(bs[k], |bs[k]|))
  {
    hide WellFormed, Entries, TrueStarts, Pool, OpenFrame, Wanted, Start;
  }

  lemma OpenedBlock(job: Job, i: nat, stream: Bytes, frame: Bytes, rest: Bytes)
    requires i < |job.sizes| && ReadFull(stream, job.sizes[i]) == Ok((frame, rest))
    ensures var pool := OpenFrame(job.tools, job.key, job.dict, frame);
            OpenBlock(job, i, stream) == if pool.Ok? then Ok((pool.value, rest)) else Err(pool.error)
  {
    hide ReadFull, OpenFrame;
  }

  lemma {:induction false} AskedReadBack(job: Job, bs: seq<seq<Piece>>, frames: seq<Bytes>, ordered: seq<u32>, k: nat)
    requires WantedOpen(job, bs, frames, ordered) && k <= |bs|
    ensures Walks(job) && |job.sizes| == |bs| == |frames|
    ensures Asked(job, ordered, k, Concat(frames, k)) == Ok(Masked(AllResiduals(bs, k), ordered, Start(bs, k)))
    decreases |bs| - k
  {
    hide *;
    WantedWalks(job, bs, frames, ordered);
    AskedUnfold(job, ordered, k, Concat(frames, k));
    AllUnfold(bs, k);
    if k == |bs| {
      assert Masked([], ordered, Start(bs, k)) == [];
    } else {
      AskedReadBack(job, bs, frames, ordered, k + 1);
      WantedBlock(job, bs, frames, ordered, k);
      Restoring.NextOffsetIsBase(bs, k);
      StartNext(bs, k);
      StartZeroOf(bs, k);
      BlockReadBack(bs, k, 0);
      var rs := ResidualsIn(bs[k], 0);
      PickedOfAll(job.entries, Pool(bs[k], |bs[k]|), Base(bs, k), ordered, Start(bs, k), Start(bs, k + 1));
      AskedBlockIs(job, ordered, k, Concat(frames, k), Pool(bs[k], |bs[k]|), Concat(frames, k + 1), rs);
      MaskedJoin(rs, AllResiduals(bs, k + 1), ordered, Start(bs, k));
    }
  }

  // A file with blocks that do not open still serves every chunk of the others.
  lemma ServedDespiteDamage(tools: Tools, cb: Codebook, password: Bytes, file: Bytes, h: Header, bs: seq<seq<Piece>>, frames: seq<Bytes>,
                            ordered: seq<u32>)
    requires tools.Valid() && IsFile(tools, password, file, h, bs, frames)
    requires var key, dict := KeyFor(tools, h, password).value, if h.usesBrainDict then cb.dictionary else [];
             forall k :: 0 <= k < |bs| && Wanted(ordered, Start(bs, k), Start(bs, k + 1)) ==>
               OpenFrame(tools, key, dict, frames[k]) == Ok(Pool(bs[k], |bs[k]|))
    ensures var all := AskedOf(tools, cb, password, file, ordered);
            all.Ok? && Wire(all.value, ordered, 0) == Wire(AllResiduals(bs, 0), ordered, 0)
  {
    hide *;
    var nonce := FileParts(tools, password, file, h, bs, frames);
    FileReadBack(tools, password, file, h, bs, frames);
    AskedParts(tools, cb, password, file, ordered);
    KeptFields(h);
    KeptKey(tools, h, password);
    BoundariesRecovered(bs);
    var m := ReadMetadata(tools, file, password).value;
    SyncJobIs(tools, cb, m, bs, frames);
    var job := SyncJob(tools, cb, m).value;
    forall k | 0 <= k < |bs| && Wanted(ordered, Start(bs, k), Start(bs, k + 1))
      ensures OpenFrame(job.tools, job.key, job.dict, frames[k]) == Ok(Pool(bs[k], |bs[k]|))
    {
    }
    WantedIs(job, bs, frames, ordered);
    StartZero(bs);
    AskedReadBack(job, bs, frames, ordered, 0);
    WireMasked(AllResiduals(bs, 0), ordered, 0);
  }

  lemma WantedIs(job: Job, bs: seq<seq<Piece>>, frames: seq<Bytes>, ordered: seq<u32>)
    requires WellFormed(bs) && |frames| == |bs|
    requires job.entries == Entries(bs, |bs|) && job.starts == TrueStarts(bs, 0) && job.sizes == Lengths(frames)
    requires forall k :: 0 <= k < |frames| ==> |frames[k]| < TWO_TO_32
    requires forall k :: 0 <= k < |bs| && Wanted(ordered, Start(bs, k), Start(bs, k + 1)) ==>
               OpenFrame(job.tools, job.key, job.dict, frames[k]) == Ok(Pool(bs[k], |bs[k]|))
    ensures WantedOpen(job, bs, frames, ordered)
  {
    hide WellFormed, Entries, TrueStarts, Lengths, OpenFrame, Pool, Wanted, Start;
  }

  lemma SyncJobIs(tools: Tools, cb: Codebook, m: Metadata, bs: seq<seq<Piece>>, frames: seq<Bytes>)
    requires m.header.version >= 2 && m.entries == Entries(bs, |bs|) && m.sizes == Lengths(frames) && |frames| == |bs|
    requires StartsFrom(Entries(bs, |bs|), 0, 0) == TrueStarts(bs, 0) && |TrueStarts(bs, 0)| == |bs|
    ensures SyncJob(tools, cb, m) ==
            Ok(Job(tools, Some(cb), if m.header.usesBrainDict then cb.dictionary else [], m.key, true, Entries(bs, |bs|), TrueStarts(bs, 0), Lengths(frames)))
  {
    hide StartsFrom, Entries, TrueStarts;
  }
}
