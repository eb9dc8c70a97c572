// Reading residuals back out of a file, block by block (pkg/sync/manifest.go).
module Residues {
  import opened Common
  import opened Tooling
  import opened Headers
  import opened ChunkTable
  import opened Codebooks
  import opened Blocks
  import opened Container
  import opened Unpacker
  import Restoring

  // The files that ForEachBlock can walk through, as read with a brain at hand.
  function SyncJob(tools: Tools, cb: Codebook, m: Metadata): Result<Job> {
    if m.header.version < 2 then Err(BadVersion)
    else
      var starts := StartsFrom(m.entries, 0, 0);
      if |starts| != |m.sizes| then Err(BadBlockCount)
      else Ok(Job(tools, Some(cb), if m.header.usesBrainDict then cb.dictionary else [], m.key, true, m.entries, starts, m.sizes))
  }

  ghost predicate Walks(job: Job) {
    |job.starts| == |job.sizes| && job.starts == StartsFrom(job.entries, 0, 0)
  }

  lemma SyncJobWalks(tools: Tools, cb: Codebook, m: Metadata)
    ensures var job := SyncJob(tools, cb, m); job.Ok? ==> Walks(job.value) && job.value.entries == m.entries
  {
    hide StartsFrom;
  }

  // The first chunk of block i; past the last block, the number of chunks.
  function First(job: Job, i: nat): nat {
    if i < |job.starts| then job.starts[i] else |job.entries|
  }

  // Block starts ascend from 0 and stay inside the table, whatever the sizes are.
  lemma {:induction false} StartsAscend(es: seq<ChunkEntry>, i: nat, filled: nat, k: nat)
    requires i <= |es| && k < |StartsFrom(es, i, filled)|
    ensures i <= StartsFrom(es, i, filled)[k] < |es|
    ensures k + 1 < |StartsFrom(es, i, filled)| ==> StartsFrom(es, i, filled)[k] < StartsFrom(es, i, filled)[k + 1]
    decreases |es| - i
  {
    if i < |es| {
      var more := filled + es[i].size;
      var next := if more >= BLOCK_SIZE then 0 else more;
      var rest := StartsFrom(es, i + 1, next);
      StartsUnfold(es, i, filled);
      hide StartsFrom;
      if filled != 0 {
        StartsAscend(es, i + 1, next, k);
      } else if k > 0 {
        StartsAscend(es, i + 1, next, k - 1);
      } else if |rest| > 0 {
        StartsAscend(es, i + 1, next, 0);
      }
    }
  }

  lemma FirstBlock(job: Job)
    requires Walks(job)
    ensures First(job, 0) == 0 && First(job, |job.sizes|) == |job.entries|
  {
    StartsUnfold(job.entries, 0, 0);
    hide StartsFrom;
  }

  lemma RangeInTable(job: Job, i: nat)
    requires Walks(job) && i < |job.sizes|
    ensures First(job, i) < First(job, i + 1) <= |job.entries|
    ensures BlockRange(job.starts, i, |job.entries|) == (First(job, i), First(job, i + 1))
  {
    StartsAscend(job.entries, 0, 0, i);
    if i + 1 < |job.starts| { StartsAscend(job.entries, 0, 0, i + 1); }
    hide StartsFrom;
  }

  // ----- what a walk sees ------------------------------------------------------------

  // The pool of the next block and the stream after it.
  function OpenBlock(job: Job, i: nat, stream: Bytes): Result<(Bytes, Bytes)>
    requires i < |job.sizes|
  {
    var (frame, rest) :- ReadFull(stream, job.sizes[i]);
    var pool :- OpenFrame(job.tools, job.key, job.dict, frame);
    Ok((pool, rest))
  }

  // The residual of one chunk, its offset taken from the start of its block.
  function ResidualOf(e: ChunkEntry, pool: Bytes, base: u64): Result<Bytes> {
    var from := Sub64(e.offset, base);
    var to := Add64(from, e.deltaSize);
    if to > |pool| || from > to then Err(BadBounds) else Ok(pool[from..to])
  }

  // The residuals of chunks i to end of a block.
  function BlockResiduals(es: seq<ChunkEntry>, pool: Bytes, base: u64, i: nat, end: nat): (r: Result<seq<Bytes>>)
    requires i <= end <= |es|
    ensures r.Ok? ==> |r.value| == end - i
    decreases end - i
  {
    if i == end then Ok([])
    else
      var res :- ResidualOf(es[i], pool, base);
      var rest :- BlockResiduals(es, pool, base, i + 1, end);
      Ok([res] + rest)
  }

  // All residuals from block i on.
  function Residuals(job: Job, i: nat, stream: Bytes): (r: Result<seq<Bytes>>)
    requires Walks(job) && i <= |job.sizes|
    ensures r.Ok? ==> First(job, i) <= |job.entries| && |r.value| == |job.entries| - First(job, i)
    decreases |job.sizes| - i
  {
    FirstBlock(job);
    if i == |job.sizes| then Ok([])
    else
      RangeInTable(job, i);
      var (pool, rest) :- OpenBlock(job, i, stream);
      var first, end := First(job, i), First(job, i + 1);
      var rs :- BlockResiduals(job.entries, pool, job.entries[first].offset, first, end);
      var more :- Residuals(job, i + 1, rest);
      Ok(rs + more)
  }

  // One block of a walk that sees them all.
  lemma ResidualsStep(job: Job, i: nat, stream: Bytes)
    requires Walks(job) && i < |job.sizes|
    ensures First(job, i) < First(job, i + 1) <= |job.entries|
    ensures Residuals(job, i, stream).Ok? ==>
              var got := OpenBlock(job, i, stream);
              var first, end := First(job, i), First(job, i + 1);
              && got.Ok? && Residuals(job, i + 1, got.value.1).Ok?
              && var rs := BlockResiduals(job.entries, got.value.0, job.entries[first].offset, first, end);
                 rs.Ok? && Residuals(job, i, stream).value == rs.value + Residuals(job, i + 1, got.value.1).value
  {
    RangeInTable(job, i);
    hide OpenBlock, BlockResiduals, First;
  }

  lemma BlockResidualsTail(es: seq<ChunkEntry>, pool: Bytes, base: u64, i: nat, end: nat)
    requires i < end <= |es|
    ensures var rs := BlockResiduals(es, pool, base, i, end);
            if rs.Err? then ResidualOf(es[i], pool, base).Err? || BlockResiduals(es, pool, base, i + 1, end).Err?
            else ResidualOf(es[i], pool, base) == Ok(rs.value[0]) && BlockResiduals(es, pool, base, i + 1, end) == Ok(rs.value[1..])
  {
    hide ResidualOf;
  }

  // A residual in the middle of a block.
  lemma {:induction false} BlockResidualAt(es: seq<ChunkEntry>, pool: Bytes, base: u64, i: nat, end: nat, k: nat)
    requires i <= k < end <= |es| && BlockResiduals(es, pool, base, i, end).Ok?
    ensures ResidualOf(es[k], pool, base) == Ok(BlockResiduals(es, pool, base, i, end).value[k - i])
    decreases end - i
  {
    hide ResidualOf;
    if i < k { BlockResidualAt(es, pool, base, i + 1, end, k); }
  }

  // A skipped block leaves the stream where reading it would.
  lemma SkippedBlock(job: Job, i: nat, stream: Bytes)
    requires i < |job.sizes|
    ensures OpenBlock(job, i, stream).Ok? ==>
              && ReadFull(stream, job.sizes[i]).Ok?
              && ReadFull(stream, job.sizes[i]).value.1 == OpenBlock(job, i, stream).value.1
  {
    hide OpenFrame;
  }

  // ----- files written by a packer --------------------------------------------------------

  // All residuals from block k on, as the writer had them.
  ghost function AllResiduals(bs: seq<seq<Piece>>, k: nat): seq<Bytes>
    requires k <= |bs|
    decreases |bs| - k
  {
    if k == |bs| then [] else ResidualsIn(bs[k], 0) + AllResiduals(bs, k + 1)
  }

  ghost function ResidualsIn(ps: seq<Piece>, j: nat): (rs: seq<Bytes>)
    requires j <= |ps|
    ensures |rs| == |ps| - j && forall k :: 0 <= k < |rs| ==> rs[k] == ps[j + k].residual
  {
    seq(|ps| - j, k requires 0 <= k < |ps| - j => ps[j + k].residual)
  }

  lemma {:induction false} ResidualAt(bs: seq<seq<Piece>>, b: nat, j: nat, k: nat)
    requires k <= b < |bs| && j < |bs[b]|
    ensures Start(bs, k) <= Start(bs, b) && Start(bs, b) + j < Start(bs, b + 1)
    ensures |AllResiduals(bs, k)| == Start(bs, |bs|) - Start(bs, k) > Start(bs, b) + j - Start(bs, k)
    ensures AllResiduals(bs, k)[Start(bs, b) + j - Start(bs, k)] == bs[b][j].residual
    decreases |bs| - k
  {
    hide Start, ResidualsIn;
    StartMonotone(bs, k, b);
    StartMonotone(bs, b + 1, |bs|);
    StartNext(bs, k);
    StartNext(bs, b);
    ResidualsLength(bs, k);
    if k < b {
      StartMonotone(bs, k + 1, b);
      ResidualAt(bs, b, j, k + 1);
    }
  }

  lemma {:induction false} ResidualsLength(bs: seq<seq<Piece>>, k: nat)
    requires k <= |bs|
    ensures Start(bs, k) <= Start(bs, |bs|) && |AllResiduals(bs, k)| == Start(bs, |bs|) - Start(bs, k)
    decreases |bs| - k
  {
    hide Start, ResidualsIn;
    StartMonotone(bs, k, |bs|);
    if k < |bs| {
      ResidualsLength(bs, k + 1);
      StartNext(bs, k);
    }
  }

  // A well-formed file as a walk finds it.
  ghost predicate Holds(job: Job, bs: seq<seq<Piece>>, frames: seq<Bytes>) {
    && WellFormed(bs) && |frames| == |bs|
    && job.entries == Entries(bs, |bs|) && job.starts == TrueStarts(bs, 0) && job.sizes == Lengths(frames)
    && (forall k :: 0 <= k < |frames| ==> |frames[k]| < TWO_TO_32)
    && forall k :: 0 <= k < |bs| ==> OpenFrame(job.tools, job.key, job.dict, frames[k]) == Ok(Pool(bs[k], |bs[k]|))
  }

  lemma HoldsWalks(job: Job, bs: seq<seq<Piece>>, frames: seq<Bytes>)
    requires Holds(job, bs, frames)
    ensures Walks(job) && |job.sizes| == |bs| == |frames| && WellFormed(bs) && job.entries == Entries(bs, |bs|)
    ensures forall k :: 0 <= k <= |bs| ==> First(job, k) == Start(bs, k)
  {
    BoundariesRecovered(bs);
    forall k | 0 <= k <= |bs|
      ensures First(job, k) == Start(bs, k)
    {
      if k < |bs| { TrueStartAt(bs, 0, k); }
    }
    hide WellFormed, Entries, StartsFrom, TrueStarts, Start, Pool, OpenFrame;
  }

  lemma HoldsBlock(job: Job, bs: seq<seq<Piece>>, frames: seq<Bytes>, k: nat)
    requires Holds(job, bs, frames) && k < |bs|
    ensures |frames| == |bs| && k < |job.sizes| && OpenBlock(job, k, Concat(frames, k)) == Ok((Pool(bs[k], |bs[k]|), Concat(frames, k + 1)))
  {
    Restoring.FrameRead(frames, k);
    hide WellFormed, Entries, TrueStarts, Pool, OpenFrame, ReadFull, Concat;
  }

  lemma {:induction false} BlockReadBack(bs: seq<seq<Piece>>, b: nat, j: nat)
    requires WellFormed(bs) && b < |bs| && j <= |bs[b]| && Base(bs, b) < TWO_TO_64
    ensures Start(bs, b) + |bs[b]| <= |Entries(bs, |bs|)|
    ensures BlockResiduals(Entries(bs, |bs|), Pool(bs[b], |bs[b]|), Base(bs, b), Start(bs, b) + j, Start(bs, b) + |bs[b]|) ==
            Ok(ResidualsIn(bs[b], j))
    decreases |bs[b]| - j
  {
    hide *;
    StartNext(bs, b);
    StartMonotone(bs, b + 1, |bs|);
    var es, pool, base := Entries(bs, |bs|), Pool(bs[b], |bs[b]|), Base(bs, b);
    var i, end := Start(bs, b) + j, Start(bs, b) + |bs[b]|;
    ResidualsUnfold(bs[b], j);
    BlockResidualsUnfold(es, pool, base, i, end);
    if j < |bs[b]| {
      BlockReadBack(bs, b, j + 1);
      EntryAt(bs, b, j, |bs|);
      Restoring.OffsetInBlock(bs, b, j);
      PoolSlice(bs[b], j, |bs[b]|);
      OneResidual(es[i], pool, base, bs[b][j], PoolSize(bs[b], j));
    }
  }

  lemma ResidualsUnfold(ps: seq<Piece>, j: nat)
    requires j <= |ps|
    ensures ResidualsIn(ps, j) == if j == |ps| then [] else [ps[j].residual] + ResidualsIn(ps, j + 1)
  {
    if j < |ps| { SameElements(ResidualsIn(ps, j), [ps[j].residual] + ResidualsIn(ps, j + 1)); }
  }

  lemma BlockResidualsUnfold(es: seq<ChunkEntry>, pool: Bytes, base: u64, i: nat, end: nat)
    requires i <= end <= |es|
    ensures i == end ==> BlockResiduals(es, pool, base, i, end) == Ok([])
    ensures i < end && ResidualOf(es[i], pool, base).Ok? && BlockResiduals(es, pool, base, i + 1, end).Ok? ==>
              BlockResiduals(es, pool, base, i, end) ==
              Ok([ResidualOf(es[i], pool, base).value] + BlockResiduals(es, pool, base, i + 1, end).value)
  {
    hide ResidualOf;
  }

  lemma OneResidual(e: ChunkEntry, pool: Bytes, base: u64, p: Piece, local: nat)
    requires Sub64(e.offset, base) == local && Add64(local, e.deltaSize) == local + |p.residual| <= |pool|
    requires pool[local..local + |p.residual|] == p.residual
    ensures ResidualOf(e, pool, base) == Ok(p.residual)
  {
    hide Sub64, Add64;
  }

  // A walk through a well-formed file sees exactly the residuals written.
  lemma {:induction false} ResidualsReadBack(job: Job, bs: seq<seq<Piece>>, frames: seq<Bytes>, k: nat)
    requires Holds(job, bs, frames) && k <= |bs|
    ensures Walks(job) && |job.sizes| == |bs| == |frames| && Residuals(job, k, Concat(frames, k)) == Ok(AllResiduals(bs, k))
    decreases |bs| - k
  {
    hide *;
    HoldsWalks(job, bs, frames);
    if k < |bs| {
      ResidualsReadBack(job, bs, frames, k + 1);
      HoldsBlock(job, bs, frames, k);
      Restoring.NextOffsetIsBase(bs, k);
      StartNext(bs, k);
      StartZeroOf(bs, k);
      BlockReadBack(bs, k, 0);
      WalkUnfold(job, k, Concat(frames, k), Pool(bs[k], |bs[k]|), Concat(frames, k + 1));
    } else {
      WalkEnds(job, Concat(frames, k));
    }
    AllUnfold(bs, k);
  }

  lemma StartZeroOf(bs: seq<seq<Piece>>, k: nat)
    requires WellFormed(bs) && k < |bs|
    ensures Base(bs, k) < TWO_TO_64
  {
    StartMonotone(bs, k, |bs|);
    FieldWidths(bs);
    hide WellFormed, Base, Start, Original;
  }

  lemma AllUnfold(bs: seq<seq<Piece>>, k: nat)
    requires k <= |bs|
    ensures AllResiduals(bs, k) == if k == |bs| then [] else ResidualsIn(bs[k], 0) + AllResiduals(bs, k + 1)
  {
  }

  lemma WalkEnds(job: Job, stream: Bytes)
    requires Walks(job)
    ensures Residuals(job, |job.sizes|, stream) == Ok([])
  {
    hide Walks;
  }

  lemma WalkUnfold(job: Job, i: nat, stream: Bytes, pool: Bytes, rest: Bytes)
    requires Walks(job) && i < |job.sizes| && OpenBlock(job, i, stream) == Ok((pool, rest))
    ensures First(job, i) < First(job, i + 1) <= |job.entries|
    ensures var first, end := First(job, i), First(job, i + 1);
            var rs := BlockResiduals(job.entries, pool, job.entries[first].offset, first, end);
            rs.Ok? && Residuals(job, i + 1, rest).Ok? ==> Residuals(job, i, stream) == Ok(rs.value + Residuals(job, i + 1, rest).value)
  {
    RangeInTable(job, i);
    hide OpenBlock, BlockResiduals, First;
  }
}
