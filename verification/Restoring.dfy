// What unpacking gives back: the original bytes of every block whose frame
// opens, and zeros, in place, for the others.
module Restoring {
  import opened Common
  import opened Tooling
  import opened Headers
  import opened ChunkTable
  import opened Codebooks
  import opened Blocks
  import opened Container
  import opened Unpacker
  import Coding

  // ----- what the blocks stand for -------------------------------------------------------

  // The piece rebuilds to as many bytes as its table entry announces.
  ghost predicate Sound(brain: Option<Codebook>, p: Piece) {
    var r := Coding.Rebuilt(brain, p.id, p.index, p.size, p.residual);
    r.Ok? && |r.value| == p.size
  }

  ghost function ChunkData(brain: Option<Codebook>, p: Piece): Bytes {
    var r := Coding.Rebuilt(brain, p.id, p.index, p.size, p.residual);
    if r.Ok? then r.value else []
  }

  // The bytes of the first n chunks of a block.
  ghost function Data(brain: Option<Codebook>, ps: seq<Piece>, n: nat): Bytes
    requires n <= |ps|
  {
    if n == 0 then [] else Data(brain, ps, n - 1) + ChunkData(brain, ps[n - 1])
  }

  // The bytes of the first k blocks.
  ghost function FileData(brain: Option<Codebook>, bs: seq<seq<Piece>>, k: nat): Bytes
    requires k <= |bs|
  {
    if k == 0 then [] else FileData(brain, bs, k - 1) + Data(brain, bs[k - 1], |bs[k - 1]|)
  }

  ghost predicate SoundBlock(brain: Option<Codebook>, ps: seq<Piece>) {
    forall j :: 0 <= j < |ps| ==> Sound(brain, ps[j])
  }

  ghost predicate SoundBlocks(brain: Option<Codebook>, bs: seq<seq<Piece>>) {
    forall k :: 0 <= k < |bs| ==> SoundBlock(brain, bs[k])
  }

  lemma {:induction false} DataLength(brain: Option<Codebook>, ps: seq<Piece>, n: nat)
    requires n <= |ps| && SoundBlock(brain, ps)
    ensures |Data(brain, ps, n)| == Size(ps, n)
  {
    if n > 0 {
      DataLength(brain, ps, n - 1);
      assert Sound(brain, ps[n - 1]);
    }
  }

  // What is written for the first k blocks when those in bad do not open.
  ghost function Expected(brain: Option<Codebook>, bs: seq<seq<Piece>>, bad: set<nat>, k: nat): Bytes
    requires k <= |bs|
  {
    if k == 0 then []
    else
      Expected(brain, bs, bad, k - 1) +
      if k - 1 in bad then Zeros(Size(bs[k - 1], |bs[k - 1]|)) else Data(brain, bs[k - 1], |bs[k - 1]|)
  }

  ghost function BadCount(bad: set<nat>, k: nat): nat {
    if k == 0 then 0 else BadCount(bad, k - 1) + if k - 1 in bad then 1 else 0
  }

  // Outside bad the frames hold the pools; in bad they do not decompress.
  ghost predicate FramesOpen(job: Job, bs: seq<seq<Piece>>, frames: seq<Bytes>, bad: set<nat>) {
    && |frames| == |bs|
    && forall k :: 0 <= k < |bs| ==> FrameOpens(job, bs[k], frames[k], k in bad)
  }

  ghost predicate FrameOpens(job: Job, ps: seq<Piece>, frame: Bytes, bad: bool) {
    if bad then !job.strict && job.key.None? && job.tools.DecompressPool(frame, job.dict).Err?
    else OpenFrame(job.tools, job.key, job.dict, frame) == Ok(Pool(ps, |ps|))
  }

  // The job of unpacking a file with these blocks and frames.
  ghost predicate JobOf(job: Job, bs: seq<seq<Piece>>, frames: seq<Bytes>, bad: set<nat>) {
    && WellFormed(bs) && SoundBlocks(job.brain, bs) && FramesOpen(job, bs, frames, bad)
    && job.entries == Entries(bs, |bs|) && job.starts == TrueStarts(bs, 0) && job.sizes == Lengths(frames)
    && |job.starts| == |job.sizes|
    && forall k :: 0 <= k < |frames| ==> |frames[k]| < TWO_TO_32
  }

  lemma JobParts(job: Job, bs: seq<seq<Piece>>, frames: seq<Bytes>, bad: set<nat>, i: nat)
    requires JobOf(job, bs, frames, bad) && i < |bs|
    ensures WellFormed(bs) && job.entries == Entries(bs, |bs|) && |job.entries| == Start(bs, |bs|)
    ensures |job.sizes| == |job.starts| == |frames| == |bs| && job.sizes[i] == |frames[i]|
    ensures job.starts == TrueStarts(bs, 0) && SoundBlock(job.brain, bs[i]) && FrameOpens(job, bs[i], frames[i], i in bad)
  {
    hide WellFormed, SoundBlock, FrameOpens, Entries, TrueStarts;
  }

  // ----- one chunk, one block -----------------------------------------------------------------

  // The state after j chunks of block i.
  ghost function AfterChunks(brain: Option<Codebook>, bs: seq<seq<Piece>>, i: nat, j: nat, s: State): State
    requires i < |bs| && j <= |bs[i]|
  {
    s.(next := Start(bs, i) + j, out := s.out + Data(brain, bs[i], j), hashed := s.hashed + Data(brain, bs[i], j))
  }

  // The residual of a chunk is found at its offset less the block's.
  lemma OffsetInBlock(bs: seq<seq<Piece>>, i: nat, j: nat)
    requires WellFormed(bs) && i < |bs| && j < |bs[i]|
    ensures var e := EntryOf(bs[i][j], Base(bs, i) + PoolSize(bs[i], j));
            var local := Sub64(e.offset, Base(bs, i));
            && e.deltaSize == |bs[i][j].residual|
            && local == PoolSize(bs[i], j) && Add64(local, e.deltaSize) == PoolSize(bs[i], j) + |bs[i][j].residual|
  {
    hide *;
    var p := bs[i][j];
    StartMonotone(bs, i + 1, |bs|);
    PoolSlice(bs[i], j, |bs[i]|);
    BlockSizes(bs, i);
    PieceFits(bs[i], j);
    FieldWidths(bs);
    StartNext(bs, i);
    Offsets(p, Base(bs, i), PoolSize(bs[i], j));
  }

  lemma PieceFits(ps: seq<Piece>, j: nat)
    requires PiecesFit(ps) && j < |ps|
    ensures |ps[j].residual| < TWO_TO_32
  {
  }

  lemma Offsets(p: Piece, base: nat, local: nat)
    requires base + local + |p.residual| < TWO_TO_64 && |p.residual| < TWO_TO_32
    ensures var e := EntryOf(p, base + local);
            && e.deltaSize == |p.residual| && Sub64(e.offset, base) == local
            && Add64(local, e.deltaSize) == local + |p.residual|
  {
  }

  lemma ChunkRebuilt(job: Job, bs: seq<seq<Piece>>, i: nat, j: nat, s: State)
    requires WellFormed(bs) && i < |bs| && j < |bs[i]| && SoundBlock(job.brain, bs[i])
    requires job.entries == Entries(bs, |bs|) && s.next == Start(bs, i) + j && s.base == Base(bs, i)
    ensures s.next < |job.entries|
    ensures ChunkStep(job, Pool(bs[i], |bs[i]|), s) ==
            Ok(s.(out := s.out + ChunkData(job.brain, bs[i][j]), hashed := s.hashed + ChunkData(job.brain, bs[i][j]), next := s.next + 1))
  {
    hide *;
    EntryAt(bs, i, j, |bs|);
    OffsetInBlock(bs, i, j);
    PoolSlice(bs[i], j, |bs[i]|);
    SoundPiece(job.brain, bs[i], j);
    StartMonotone(bs, i, |bs|);
    StepInParts(job, Pool(bs[i], |bs[i]|), s, bs[i][j], Base(bs, i) + PoolSize(bs[i], j), PoolSize(bs[i], j));
  }

  lemma SoundPiece(brain: Option<Codebook>, ps: seq<Piece>, j: nat)
    requires SoundBlock(brain, ps) && j < |ps|
    ensures Sound(brain, ps[j])
  {
  }

  lemma StepInParts(job: Job, pool: Bytes, s: State, p: Piece, offset: nat, local: nat)
    requires s.next < |job.entries| && job.entries[s.next] == EntryOf(p, offset)
    requires Sub64(EntryOf(p, offset).offset, s.base) == local && EntryOf(p, offset).deltaSize == |p.residual|
    requires Add64(local, |p.residual|) == local + |p.residual| <= |pool|
    requires pool[local..local + |p.residual|] == p.residual && Sound(job.brain, p)
    ensures ChunkStep(job, pool, s) ==
            Ok(s.(out := s.out + ChunkData(job.brain, p), hashed := s.hashed + ChunkData(job.brain, p), next := s.next + 1))
  {
    hide Coding.Rebuilt, Sub64, Add64;
  }

  lemma DataNext(brain: Option<Codebook>, ps: seq<Piece>, j: nat, done: Bytes)
    requires j < |ps|
    ensures done + Data(brain, ps, j) + ChunkData(brain, ps[j]) == done + Data(brain, ps, j + 1)
  {
  }

  lemma ChunkAfter(job: Job, bs: seq<seq<Piece>>, i: nat, j: nat, s: State)
    requires WellFormed(bs) && i < |bs| && j < |bs[i]| && SoundBlock(job.brain, bs[i])
    requires job.entries == Entries(bs, |bs|) && s.base == Base(bs, i)
    ensures AfterChunks(job.brain, bs, i, j, s).next < |job.entries|
    ensures ChunkStep(job, Pool(bs[i], |bs[i]|), AfterChunks(job.brain, bs, i, j, s)) == Ok(AfterChunks(job.brain, bs, i, j + 1, s))
  {
    hide WellFormed, SoundBlock, Start, Base, Pool, Entries, ChunkStep, Data, ChunkData;
    ChunkRebuilt(job, bs, i, j, AfterChunks(job.brain, bs, i, j, s));
    DataNext(job.brain, bs[i], j, s.out);
    DataNext(job.brain, bs[i], j, s.hashed);
  }

  lemma {:induction false} ChunksAfter(job: Job, bs: seq<seq<Piece>>, i: nat, j: nat, s: State)
    requires WellFormed(bs) && i < |bs| && j <= |bs[i]| && SoundBlock(job.brain, bs[i])
    requires job.entries == Entries(bs, |bs|) && s.base == Base(bs, i)
    ensures ChunkSteps(job, Pool(bs[i], |bs[i]|), |bs[i]| - j, AfterChunks(job.brain, bs, i, j, s)) ==
            Ok(AfterChunks(job.brain, bs, i, |bs[i]|, s))
    decreases |bs[i]| - j
  {
    hide *;
    var pool := Pool(bs[i], |bs[i]|);
    if j < |bs[i]| {
      ChunkAfter(job, bs, i, j, s);
      StepsUnfold(job, pool, |bs[i]| - j, AfterChunks(job.brain, bs, i, j, s));
      ChunksAfter(job, bs, i, j + 1, s);
    } else {
      StepsUnfold(job, pool, 0, AfterChunks(job.brain, bs, i, j, s));
    }
  }

  lemma StepsUnfold(job: Job, pool: Bytes, count: nat, s: State)
    ensures count == 0 ==> ChunkSteps(job, pool, count, s) == Ok(s)
    ensures count > 0 && s.next < |job.entries| && ChunkStep(job, pool, s).Ok? ==>
              ChunkSteps(job, pool, count, s) == ChunkSteps(job, pool, count - 1, ChunkStep(job, pool, s).value)
  {
    hide ChunkStep;
  }

  lemma {:induction false} ZeroFilled(bs: seq<seq<Piece>>, i: nat, j: nat)
    requires i < |bs| && j <= |bs[i]|
    ensures Start(bs, i + 1) <= |Entries(bs, |bs|)| && Size(bs[i], j) <= Size(bs[i], |bs[i]|)
    ensures ZeroFill(Entries(bs, |bs|), Start(bs, i) + j, Start(bs, i + 1)) == Zeros(Size(bs[i], |bs[i]|) - Size(bs[i], j))
    decreases |bs[i]| - j
  {
    StartMonotone(bs, i + 1, |bs|);
    StartNext(bs, i);
    if j < |bs[i]| {
      ZeroFilled(bs, i, j + 1);
      EntryAt(bs, i, j, |bs|);
      hide Start, Entries;
      var left := Size(bs[i], |bs[i]|) - Size(bs[i], j + 1);
      assert Zeros(bs[i][j].size) + Zeros(left) == Zeros(bs[i][j].size + left);
    }
  }

  // ----- the invariant of the block loop ----------------------------------------------------------

  // Before block i: the stream is at its frame, the entry index and the global
  // offset are the block's own, whatever happened to the blocks before it.
  ghost predicate Reached(brain: Option<Codebook>, bs: seq<seq<Piece>>, frames: seq<Bytes>, bad: set<nat>, i: nat, s: State) {
    && i <= |bs| == |frames|
    && s.stream == Concat(frames, i) && s.next == Start(bs, i) && (i < |bs| ==> s.base == Base(bs, i))
    && s.out == Expected(brain, bs, bad, i) && s.corrupt == BadCount(bad, i)
    && (s.corrupt == 0 ==> s.hashed == s.out)
  }

  lemma FrameRead(frames: seq<Bytes>, i: nat)
    requires i < |frames|
    ensures ReadFull(Concat(frames, i), |frames[i]|) == Ok((frames[i], Concat(frames, i + 1)))
  {
    ReadExactly(frames[i], Concat(frames, i + 1));
  }

  lemma GoodBlock(job: Job, bs: seq<seq<Piece>>, frames: seq<Bytes>, bad: set<nat>, i: nat, s: State)
    requires JobOf(job, bs, frames, bad) && i < |bs| && i !in bad && Reached(job.brain, bs, frames, bad, i, s)
    ensures |job.sizes| == |job.starts| == |bs|
    ensures BlockStep(job, i, s).Ok? && Reached(job.brain, bs, frames, bad, i + 1, BlockStep(job, i, s).value)
  {
    hide *;
    JobParts(job, bs, frames, bad, i);
    ReachedParts(job.brain, bs, frames, bad, i, s);
    FrameRead(frames, i);
    BlockEnds(bs, i);
    BoundariesRecovered(bs);
    PoolLength(bs[i], |bs[i]|);
    StartMonotone(bs, i + 1, |bs|);
    FieldWidths(bs);
    StartNext(bs, i);
    var s1 := s.(stream := Concat(frames, i + 1));
    AfterNone(job.brain, bs, i, s1);
    ChunksAfter(job, bs, i, 0, s1);
    GoodStep(job, bs, frames, bad, i, s);
    ReachedGood(job.brain, bs, frames, bad, i, s);
  }

  lemma AfterNone(brain: Option<Codebook>, bs: seq<seq<Piece>>, i: nat, s: State)
    requires i < |bs| && s.next == Start(bs, i)
    ensures AfterChunks(brain, bs, i, 0, s) == s
  {
    assert s.out + [] == s.out && s.hashed + [] == s.hashed;
  }

  // The state a good block leaves.
  ghost function LeftGood(brain: Option<Codebook>, bs: seq<seq<Piece>>, frames: seq<Bytes>, i: nat, s: State): State
    requires i < |bs| == |frames|
  {
    AfterChunks(brain, bs, i, |bs[i]|, s.(stream := Concat(frames, i + 1))).(base := Add64(s.base, |Pool(bs[i], |bs[i]|)|))
  }

  lemma GoodStep(job: Job, bs: seq<seq<Piece>>, frames: seq<Bytes>, bad: set<nat>, i: nat, s: State)
    requires i < |bs| == |frames| == |job.sizes| == |job.starts| && i !in bad
    requires ReadFull(s.stream, job.sizes[i]) == Ok((frames[i], Concat(frames, i + 1)))
    requires FrameOpens(job, bs[i], frames[i], false)
    requires BlockRange(job.starts, i, |job.entries|) == (Start(bs, i), Start(bs, i) + |bs[i]|) && |bs[i]| > 0
    requires ChunkSteps(job, Pool(bs[i], |bs[i]|), |bs[i]|, s.(stream := Concat(frames, i + 1))) ==
             Ok(AfterChunks(job.brain, bs, i, |bs[i]|, s.(stream := Concat(frames, i + 1))))
    ensures BlockStep(job, i, s) == Ok(LeftGood(job.brain, bs, frames, i, s))
  {
    hide ReadFull, Concat, BlockRange, Start, ChunkSteps, Pool, AfterChunks, Tools.DecompressPool;
  }

  lemma ReachedGood(brain: Option<Codebook>, bs: seq<seq<Piece>>, frames: seq<Bytes>, bad: set<nat>, i: nat, s: State)
    requires Reached(brain, bs, frames, bad, i, s) && i < |bs| && i !in bad
    requires Base(bs, i + 1) == Base(bs, i) + |Pool(bs[i], |bs[i]|)| < TWO_TO_64 && Start(bs, i + 1) == Start(bs, i) + |bs[i]|
    ensures |bs| == |frames|
    ensures Reached(brain, bs, frames, bad, i + 1, LeftGood(brain, bs, frames, i, s))
  {
    hide Concat, Pool, Data, Start, Base;
  }

  lemma BadBlockSkipped(job: Job, bs: seq<seq<Piece>>, frames: seq<Bytes>, bad: set<nat>, i: nat, s: State)
    requires JobOf(job, bs, frames, bad) && i < |bs| && i in bad && Reached(job.brain, bs, frames, bad, i, s)
    ensures |job.sizes| == |job.starts| == |bs|
    ensures BlockStep(job, i, s).Ok? && Reached(job.brain, bs, frames, bad, i + 1, BlockStep(job, i, s).value)
  {
    hide *;
    JobParts(job, bs, frames, bad, i);
    ReachedParts(job.brain, bs, frames, bad, i, s);
    FrameRead(frames, i);
    BlockEnds(bs, i);
    BoundariesRecovered(bs);
    ZeroFilled(bs, i, 0);
    SizeZero(bs[i]);
    StartMonotone(bs, i + 1, |bs|);
    if i + 1 < |bs| { NextOffsetIsBase(bs, i + 1); }
    BadStep(job, bs, frames, i, s);
    ReachedBad(job, bs, frames, bad, i, s);
  }

  lemma SizeZero(ps: seq<Piece>)
    ensures Size(ps, 0) == 0
  {
  }

  lemma ReachedParts(brain: Option<Codebook>, bs: seq<seq<Piece>>, frames: seq<Bytes>, bad: set<nat>, i: nat, s: State)
    requires Reached(brain, bs, frames, bad, i, s)
    ensures i <= |bs| == |frames| && s.stream == Concat(frames, i) && s.next == Start(bs, i)
    ensures i < |bs| ==> s.base == Base(bs, i)
  {
  }

  // The first entry of a block carries the block's global offset.
  lemma NextOffsetIsBase(bs: seq<seq<Piece>>, k: nat)
    requires WellFormed(bs) && k < |bs|
    ensures Start(bs, k) < |Entries(bs, |bs|)| && Entries(bs, |bs|)[Start(bs, k)].offset == Base(bs, k)
  {
    BlockSizes(bs, k);
    EntryAt(bs, k, 0, |bs|);
    StartMonotone(bs, k, |bs|);
    FieldWidths(bs);
    hide WellFormed, Start, Base, Entries, Original;
  }

  lemma BadStep(job: Job, bs: seq<seq<Piece>>, frames: seq<Bytes>, i: nat, s: State)
    requires i < |bs| == |frames| == |job.sizes| == |job.starts|
    requires ReadFull(s.stream, job.sizes[i]) == Ok((frames[i], Concat(frames, i + 1)))
    requires FrameOpens(job, bs[i], frames[i], true)
    requires BlockRange(job.starts, i, |job.entries|) == (Start(bs, i), Start(bs, i + 1))
    ensures BlockStep(job, i, s) == Ok(SkipBlock(job, Start(bs, i + 1), s.(stream := Concat(frames, i + 1))))
  {
    hide ReadFull, Concat, BlockRange, Start, SkipBlock, Tools.DecompressPool;
  }

  lemma ReachedBad(job: Job, bs: seq<seq<Piece>>, frames: seq<Bytes>, bad: set<nat>, i: nat, s: State)
    requires Reached(job.brain, bs, frames, bad, i, s) && i < |bs| && i in bad
    requires job.entries == Entries(bs, |bs|) && Start(bs, i) < Start(bs, i + 1) <= Start(bs, |bs|)
    requires ZeroFill(job.entries, Start(bs, i), Start(bs, i + 1)) == Zeros(Size(bs[i], |bs[i]|))
    requires i + 1 < |bs| ==> Start(bs, i + 1) < |job.entries| && job.entries[Start(bs, i + 1)].offset == Base(bs, i + 1)
    ensures |bs| == |frames|
    ensures Reached(job.brain, bs, frames, bad, i + 1, SkipBlock(job, Start(bs, i + 1), s.(stream := Concat(frames, i + 1))))
  {
    hide Concat, Start, Base, Entries, ZeroFill, Size;
  }

  lemma NextBlock(job: Job, bs: seq<seq<Piece>>, frames: seq<Bytes>, bad: set<nat>, i: nat, s: State)
    requires JobOf(job, bs, frames, bad) && i < |bs| && Reached(job.brain, bs, frames, bad, i, s)
    ensures |job.sizes| == |job.starts| == |bs|
    ensures BlockStep(job, i, s).Ok? && Reached(job.brain, bs, frames, bad, i + 1, BlockStep(job, i, s).value)
  {
    hide *;
    if i in bad { BadBlockSkipped(job, bs, frames, bad, i, s); } else { GoodBlock(job, bs, frames, bad, i, s); }
  }

  lemma {:induction false} AllBlocks(job: Job, bs: seq<seq<Piece>>, frames: seq<Bytes>, bad: set<nat>, i: nat, s: State)
    requires JobOf(job, bs, frames, bad) && i <= |bs| && Reached(job.brain, bs, frames, bad, i, s)
    ensures |job.sizes| == |job.starts| == |bs|
    ensures BlockSteps(job, i, s).Ok? && Reached(job.brain, bs, frames, bad, |bs|, BlockSteps(job, i, s).value)
    decreases |bs| - i
  {
    hide *;
    JobWidth(job, bs, frames, bad);
    StepsOver(job, i, s);
    if i < |bs| {
      NextBlock(job, bs, frames, bad, i, s);
      AllBlocks(job, bs, frames, bad, i + 1, BlockStep(job, i, s).value);
    }
  }

  lemma JobWidth(job: Job, bs: seq<seq<Piece>>, frames: seq<Bytes>, bad: set<nat>)
    requires JobOf(job, bs, frames, bad)
    ensures |job.sizes| == |job.starts| == |bs|
  {
  }

  lemma StepsOver(job: Job, i: nat, s: State)
    requires i <= |job.sizes| == |job.starts|
    ensures i == |job.sizes| ==> BlockSteps(job, i, s) == Ok(s)
    ensures i < |job.sizes| && BlockStep(job, i, s).Ok? ==> BlockSteps(job, i, s) == BlockSteps(job, i + 1, BlockStep(job, i, s).value)
  {
    hide BlockStep;
  }

  lemma ReachedStart(brain: Option<Codebook>, bs: seq<seq<Piece>>, frames: seq<Bytes>, bad: set<nat>, m: Metadata)
    requires |frames| == |bs| && m.pool == Concat(frames, 0)
    ensures Reached(brain, bs, frames, bad, 0, Start0(m))
  {
  }

  // ----- the output, block by block ---------------------------------------------------------------

  lemma {:induction false} ExpectedLength(brain: Option<Codebook>, bs: seq<seq<Piece>>, bad: set<nat>, k: nat)
    requires k <= |bs| && SoundBlocks(brain, bs)
    ensures |Expected(brain, bs, bad, k)| == |FileData(brain, bs, k)| == Original(bs, k)
  {
    if k > 0 {
      ExpectedLength(brain, bs, bad, k - 1);
      DataLength(brain, bs[k - 1], |bs[k - 1]|);
    }
  }

  // Zeros over a bad block, the original bytes everywhere else.
  lemma {:induction false} ExpectedAt(brain: Option<Codebook>, bs: seq<seq<Piece>>, bad: set<nat>, i: nat, k: nat)
    requires i < k <= |bs| && SoundBlocks(brain, bs)
    ensures Original(bs, i) <= Original(bs, i + 1) <= |Expected(brain, bs, bad, k)| == |FileData(brain, bs, k)|
    ensures Expected(brain, bs, bad, k)[Original(bs, i)..Original(bs, i + 1)] ==
            if i in bad then Zeros(Original(bs, i + 1) - Original(bs, i)) else FileData(brain, bs, k)[Original(bs, i)..Original(bs, i + 1)]
  {
    hide *;
    var from, to := Original(bs, i), Original(bs, i + 1);
    ExpectedLength(brain, bs, bad, k);
    StartMonotone(bs, i, i + 1);
    StartMonotone(bs, i + 1, k);
    ExpectedUnfold(brain, bs, bad, k);
    if i < k - 1 {
      ExpectedAt(brain, bs, bad, i, k - 1);
      InPrefix(Expected(brain, bs, bad, k - 1), Written(brain, bs, bad, k - 1), from, to);
      InPrefix(FileData(brain, bs, k - 1), Data(brain, bs[k - 1], |bs[k - 1]|), from, to);
    } else {
      ExpectedLength(brain, bs, bad, i);
      StartNext(bs, i);
      InSuffix(Expected(brain, bs, bad, i), Written(brain, bs, bad, i), from, to);
      InSuffix(FileData(brain, bs, i), Data(brain, bs[i], |bs[i]|), from, to);
    }
  }

  // What is written for block i.
  ghost function Written(brain: Option<Codebook>, bs: seq<seq<Piece>>, bad: set<nat>, i: nat): Bytes
    requires i < |bs|
  {
    if i in bad then Zeros(Size(bs[i], |bs[i]|)) else Data(brain, bs[i], |bs[i]|)
  }

  lemma ExpectedUnfold(brain: Option<Codebook>, bs: seq<seq<Piece>>, bad: set<nat>, k: nat)
    requires 0 < k <= |bs| && SoundBlocks(brain, bs)
    ensures Expected(brain, bs, bad, k) == Expected(brain, bs, bad, k - 1) + Written(brain, bs, bad, k - 1)
    ensures FileData(brain, bs, k) == FileData(brain, bs, k - 1) + Data(brain, bs[k - 1], |bs[k - 1]|)
    ensures |Written(brain, bs, bad, k - 1)| == |Data(brain, bs[k - 1], |bs[k - 1]|)| == Size(bs[k - 1], |bs[k - 1]|)
    ensures Written(brain, bs, bad, k - 1) ==
            if k - 1 in bad then Zeros(Size(bs[k - 1], |bs[k - 1]|)) else Data(brain, bs[k - 1], |bs[k - 1]|)
  {
    DataLength(brain, bs[k - 1], |bs[k - 1]|);
  }

  lemma InPrefix(a: Bytes, b: Bytes, from: nat, to: nat)
    requires from <= to <= |a|
    ensures (a + b)[from..to] == a[from..to]
  {
  }

  lemma InSuffix(a: Bytes, b: Bytes, from: nat, to: nat)
    requires from == |a| && to == |a + b|
    ensures (a + b)[from..to] == b
  {
  }

  lemma {:induction false} NoneBad(brain: Option<Codebook>, bs: seq<seq<Piece>>, bad: set<nat>, k: nat)
    requires k <= |bs|
    ensures BadCount(bad, k) == 0 ==> Expected(brain, bs, bad, k) == FileData(brain, bs, k)
    ensures BadCount(bad, k) == 0 <==> forall i :: i in bad ==> i >= k
  {
    if k > 0 { NoneBad(brain, bs, bad, k - 1); }
  }

  // ----- unpacking a file ---------------------------------------------------------------------------

  // A brain is there whenever one is needed.
  lemma {:induction false} BrainAtHand(brain: Option<Codebook>, bs: seq<seq<Piece>>, k: nat, e: ChunkEntry)
    requires k <= |bs| && SoundBlocks(brain, bs) && brain.None? && e in Entries(bs, k)
    ensures e.id == LITERAL_ID || e.index == FRACTAL_INDEX
  {
    var last := BlockEntries(bs[k - 1], Base(bs, k - 1), |bs[k - 1]|);
    if e in Entries(bs, k - 1) {
      BrainAtHand(brain, bs, k - 1, e);
    } else {
      var j :| 0 <= j < |last| && last[j] == e;
      BlockEntryAt(bs[k - 1], Base(bs, k - 1), j, |bs[k - 1]|);
      SoundWithoutBrain(brain, bs[k - 1], j);
    }
  }

  lemma SoundWithoutBrain(brain: Option<Codebook>, ps: seq<Piece>, j: nat)
    requires SoundBlock(brain, ps) && brain.None? && j < |ps|
    ensures ps[j].id == LITERAL_ID || ps[j].index == FRACTAL_INDEX
  {
    assert Sound(brain, ps[j]);
  }

  lemma BrainSuffices(brain: Option<Codebook>, bs: seq<seq<Piece>>)
    requires SoundBlocks(brain, bs) && brain.None?
    ensures !NeedsBrain(Entries(bs, |bs|))
  {
    forall e | e in Entries(bs, |bs|)
      ensures e.id == LITERAL_ID || e.index == FRACTAL_INDEX
    {
      BrainAtHand(brain, bs, |bs|, e);
    }
  }

  // Everything a reader needs to open a file with these blocks.
  ghost predicate Readable(tools: Tools, brain: Option<Codebook>, password: Bytes, strict: bool, bytes: Bytes, h: Header,
                           bs: seq<seq<Piece>>, frames: seq<Bytes>, bad: set<nat>)
  {
    && tools.Valid() && IsFile(tools, password, bytes, h, bs, frames) && SoundBlocks(brain, bs)
    && !h.isPassthrough && (h.usesBrainDict ==> brain.Some?)
    && KeyFor(tools, h, password).Ok?
    && FramesOpen(JobHere(tools, brain, password, strict, h, bs, frames), bs, frames, bad)
  }

  ghost function JobHere(tools: Tools, brain: Option<Codebook>, password: Bytes, strict: bool, h: Header,
                         bs: seq<seq<Piece>>, frames: seq<Bytes>): Job
    requires KeyFor(tools, h, password).Ok? && (h.usesBrainDict ==> brain.Some?)
  {
    Job(tools, brain, if h.usesBrainDict then brain.value.dictionary else [], KeyFor(tools, h, password).value, strict,
        Entries(bs, |bs|), TrueStarts(bs, 0), Lengths(frames))
  }

  lemma JobOpened(tools: Tools, brain: Option<Codebook>, password: Bytes, strict: bool, bytes: Bytes, h: Header,
                  bs: seq<seq<Piece>>, frames: seq<Bytes>, bad: set<nat>) returns (m: Metadata, job: Job)
    requires Readable(tools, brain, password, strict, bytes, h, bs, frames, bad)
    ensures ReadMetadata(tools, bytes, password) == Ok(m) && m.pool == Concat(frames, 0) && |frames| == |bs|
    ensures m.header.chunkCount > 0 && m.header.version >= 2 && !m.header.isPassthrough
    ensures m.header.isLossy == h.isLossy && m.header.originalHash == h.originalHash
    ensures JobFor(tools, brain, strict, m) == Ok(job) && JobOf(job, bs, frames, bad) && job.brain == brain
  {
    job := JobHere(tools, brain, password, strict, h, bs, frames);
    m := Metadata(Kept(h), KeyFor(tools, h, password).value, Lengths(frames), Entries(bs, |bs|), TableSpace(bytes, h, frames), Concat(frames, 0));
    FileReadBack(tools, password, bytes, h, bs, frames);
    KeptFields(h);
    BoundariesRecovered(bs);
    StartsAtLeast(bs, |bs|);
    if brain.None? { BrainSuffices(brain, bs); }
    hide ReadMetadata, Entries, StartsFrom, TrueStarts, Concat, TableSpace, Kept, NeedsBrain, SoundBlocks, FrameOpens, WellFormed, KeyFor, TableBlob, FileBytes, Tools.Valid, NoWrap;
  }

  // Unpacking writes, for any set of blocks that fail to decompress, zeros over
  // those blocks and the rebuilt bytes everywhere else; with no such block the
  // digest is compared and the file is restored.
  lemma UnpackRestores(tools: Tools, brain: Option<Codebook>, password: Bytes, strict: bool, bytes: Bytes, h: Header,
                       bs: seq<seq<Piece>>, frames: seq<Bytes>, bad: set<nat>)
    requires Readable(tools, brain, password, strict, bytes, h, bs, frames, bad)
    requires BadCount(bad, |bs|) == 0 ==> h.isLossy || tools.sha256(FileData(brain, bs, |bs|)) == h.originalHash
    requires strict ==> BadCount(bad, |bs|) == 0
    ensures Unpacked(tools, brain, password, strict, bytes) == Ok((Expected(brain, bs, bad, |bs|), BadCount(bad, |bs|)))
    ensures BadCount(bad, |bs|) == 0 ==> Expected(brain, bs, bad, |bs|) == FileData(brain, bs, |bs|)
  {
    hide *;
    var m, job := JobOpened(tools, brain, password, strict, bytes, h, bs, frames, bad);
    ReachedStart(brain, bs, frames, bad, m);
    AllBlocks(job, bs, frames, bad, 0, Start0(m));
    var s := BlockSteps(job, 0, Start0(m)).value;
    ReachedEnd(brain, bs, frames, bad, s);
    NoneBad(brain, bs, bad, |bs|);
    UnpackedInParts(tools, brain, password, strict, bytes, m, job, s);
  }

  lemma ReachedEnd(brain: Option<Codebook>, bs: seq<seq<Piece>>, frames: seq<Bytes>, bad: set<nat>, s: State)
    requires Reached(brain, bs, frames, bad, |bs|, s)
    ensures s.out == Expected(brain, bs, bad, |bs|) && s.corrupt == BadCount(bad, |bs|)
    ensures s.corrupt == 0 ==> s.hashed == s.out
  {
  }

  lemma UnpackedInParts(tools: Tools, brain: Option<Codebook>, password: Bytes, strict: bool, bytes: Bytes, m: Metadata, job: Job, s: State)
    requires ReadMetadata(tools, bytes, password) == Ok(m) && m.header.chunkCount > 0 && m.header.version >= 2 && !m.header.isPassthrough
    requires JobFor(tools, brain, strict, m) == Ok(job) && BlockSteps(job, 0, Start0(m)) == Ok(s)
    requires s.corrupt == 0 ==> m.header.isLossy || tools.sha256(s.hashed) == m.header.originalHash
    requires strict ==> s.corrupt == 0
    ensures Unpacked(tools, brain, password, strict, bytes) == Ok((s.out, s.corrupt))
    ensures brain.Some? && strict && bytes != [] && s.hashed == s.out ==>
              UnpackedBytes(tools, brain.value, password, bytes) == Ok(s.out)
  {
    hide ReadMetadata, JobFor, BlockSteps;
  }

  // Block k of the output: zeros if it is bad, the data if not.
  ghost predicate Isolated(out: Bytes, data: Bytes, bs: seq<seq<Piece>>, bad: set<nat>, k: nat)
    requires k < |bs|
  {
    var from, to := Original(bs, k), Original(bs, k + 1);
    && from <= to <= |out| == |data|
    && out[from..to] == if k in bad then Zeros(to - from) else data[from..to]
  }

  // Fault isolation: in tolerant mode, whichever blocks fail to decompress, the
  // output has the original size and only those blocks are lost.
  lemma FaultIsolation(tools: Tools, brain: Option<Codebook>, password: Bytes, bytes: Bytes, h: Header,
                       bs: seq<seq<Piece>>, frames: seq<Bytes>, bad: set<nat>)
    requires Readable(tools, brain, password, false, bytes, h, bs, frames, bad)
    requires BadCount(bad, |bs|) == 0 ==> h.isLossy || tools.sha256(FileData(brain, bs, |bs|)) == h.originalHash
    ensures var r := Unpacked(tools, brain, password, false, bytes);
            && r.Ok? && |r.value.0| == h.originalSize
            && forall k :: 0 <= k < |bs| ==> Isolated(r.value.0, FileData(brain, bs, |bs|), bs, bad, k)
  {
    hide *;
    ReadableParts(tools, brain, password, false, bytes, h, bs, frames, bad);
    UnpackRestores(tools, brain, password, false, bytes, h, bs, frames, bad);
    ExpectedLength(brain, bs, bad, |bs|);
    forall k | 0 <= k < |bs|
      ensures Isolated(Expected(brain, bs, bad, |bs|), FileData(brain, bs, |bs|), bs, bad, k)
    {
      IsolatedAt(brain, bs, bad, k);
    }
  }

  lemma IsolatedAt(brain: Option<Codebook>, bs: seq<seq<Piece>>, bad: set<nat>, k: nat)
    requires k < |bs| && SoundBlocks(brain, bs)
    ensures Isolated(Expected(brain, bs, bad, |bs|), FileData(brain, bs, |bs|), bs, bad, k)
  {
    ExpectedAt(brain, bs, bad, k, |bs|);
    hide SoundBlocks, Expected, FileData, Original;
  }

  lemma ReadableParts(tools: Tools, brain: Option<Codebook>, password: Bytes, strict: bool, bytes: Bytes, h: Header,
                      bs: seq<seq<Piece>>, frames: seq<Bytes>, bad: set<nat>)
    requires Readable(tools, brain, password, strict, bytes, h, bs, frames, bad)
    ensures SoundBlocks(brain, bs) && WellFormed(bs) && h.originalSize == Original(bs, |bs|) && |frames| == |bs|
  {
    hide SoundBlocks, WellFormed, FileBytes, TableBlob, KeyFor;
  }
}
