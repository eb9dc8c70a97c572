// What unpacking promises of bytes nobody vouches for: the digest of the header,
// and how far a pool that is too short does harm (pkg/cromlib/unpacker.go).
module Integrity {
  import opened Common
  import opened Tooling
  import opened Headers
  import opened ChunkTable
  import opened Codebooks
  import opened Blocks
  import opened Container
  import opened Restoring
  import opened Unpacker
  import opened Packing
  import Coding
  import Geometry

  // ----- the digest -------------------------------------------------------------------

  // What every step keeps, whatever the file is: as long as nothing has been given
  // up, all that is written has been hashed, and strict runs give nothing up.
  ghost predicate Keeps(job: Job, s: State, t: State) {
    && t.corrupt >= s.corrupt && (job.strict ==> t.corrupt == s.corrupt)
    && (t.corrupt == s.corrupt && s.hashed == s.out ==> t.hashed == t.out)
  }

  lemma {:induction false} ChunksKeep(job: Job, pool: Bytes, count: nat, s: State)
    ensures var t := ChunkSteps(job, pool, count, s); t.Ok? ==> Keeps(job, s, t.value)
    decreases count
  {
    hide Coding.Rebuilt, Sub64, Add64;
    if count > 0 && s.next < |job.entries| {
      var t := ChunkStep(job, pool, s);
      if t.Ok? { ChunksKeep(job, pool, count - 1, t.value); }
    }
  }

  lemma BlockKeeps(job: Job, i: nat, s: State)
    requires i < |job.sizes| == |job.starts|
    ensures var t := BlockStep(job, i, s); t.Ok? ==> Keeps(job, s, t.value)
  {
    var read := ReadFull(s.stream, job.sizes[i]);
    if read.Ok? {
      var plain := if job.key.Some? then job.tools.decrypt(job.key.value, read.value.0) else Ok(read.value.0);
      if plain.Ok? {
        var pool := job.tools.DecompressPool(plain.value, job.dict);
        var (first, end) := BlockRange(job.starts, i, |job.entries|);
        if pool.Ok? { ChunksKeep(job, pool.value, if end > first then end - first else 0, s.(stream := read.value.1)); }
      }
    }
    hide ReadFull, ChunkSteps, BlockRange, ZeroFill, Tools.DecompressPool;
  }

  lemma {:induction false} BlocksKeep(job: Job, i: nat, s: State)
    requires |job.sizes| == |job.starts|
    ensures var t := BlockSteps(job, i, s); t.Ok? ==> Keeps(job, s, t.value)
    decreases |job.sizes| - i
  {
    hide BlockStep;
    if i < |job.sizes| {
      BlockKeeps(job, i, s);
      var t := BlockStep(job, i, s);
      if t.Ok? { BlocksKeep(job, i + 1, t.value); }
    }
  }

  lemma JobShape(tools: Tools, brain: Option<Codebook>, strict: bool, m: Metadata)
    ensures var job := JobFor(tools, brain, strict, m); job.Ok? ==> |job.value.sizes| == |job.value.starts| && job.value.strict == strict
  {
    hide StartsFrom, NeedsBrain;
  }

  // Of any bytes at all: what Unpack returns without giving anything up has the
  // digest of the header, unless the header is lossy; a strict run gives nothing up.
  lemma DigestChecked(tools: Tools, brain: Option<Codebook>, password: Bytes, strict: bool, data: Bytes)
    ensures var r, m := Unpacked(tools, brain, password, strict, data), ReadMetadata(tools, data, password);
            r.Ok? ==>
              && m.Ok? && (strict ==> r.value.1 == 0)
              && (r.value.1 == 0 && !m.value.header.isLossy ==> tools.sha256(r.value.0) == m.value.header.originalHash)
  {
    var m := ReadMetadata(tools, data, password);
    if m.Ok? {
      JobShape(tools, brain, strict, m.value);
      var job := JobFor(tools, brain, strict, m.value);
      if job.Ok? { BlocksKeep(job.value, 0, Start0(m.value)); }
    }
    hide ReadMetadata, JobFor, BlockSteps;
  }

  // The same in memory, but for files stored whole, whose digest is not looked at.
  lemma DigestCheckedInMemory(tools: Tools, cb: Codebook, password: Bytes, data: Bytes)
    ensures var r, m := UnpackedBytes(tools, cb, password, data), ReadMetadata(tools, data, password);
            r.Ok? ==>
              && m.Ok?
              && (m.value.header.chunkCount > 0 && !m.value.header.isPassthrough && !m.value.header.isLossy ==>
                    tools.sha256(r.value) == m.value.header.originalHash)
  {
    hide ReadMetadata, JobFor, BlockSteps;
  }

  // A file whose blocks all open, under a header with another digest, is refused by
  // every reader that looks at it.
  lemma WrongDigest(tools: Tools, brain: Option<Codebook>, password: Bytes, strict: bool, bytes: Bytes, h: Header,
                    bs: seq<seq<Piece>>, frames: seq<Bytes>)
    requires Readable(tools, brain, password, strict, bytes, h, bs, frames, {})
    requires !h.isLossy && tools.sha256(FileData(brain, bs, |bs|)) != h.originalHash
    ensures Unpacked(tools, brain, password, strict, bytes) == Err(BadHash)
    ensures strict && brain.Some? ==> UnpackedBytes(tools, brain.value, password, bytes) == Err(BadHash)
  {
    hide *;
    var m, job := JobOpened(tools, brain, password, strict, bytes, h, bs, frames, {});
    ReachedStart(brain, bs, frames, {}, m);
    AllBlocks(job, bs, frames, {}, 0, Start0(m));
    var s := BlockSteps(job, 0, Start0(m)).value;
    ReachedEnd(brain, bs, frames, {}, s);
    NoneBad(brain, bs, {}, |bs|);
    FilesAreNotEmpty(tools, password, bytes);
    Refused(tools, brain, password, strict, bytes, m, job, s);
  }

  lemma Refused(tools: Tools, brain: Option<Codebook>, password: Bytes, strict: bool, bytes: Bytes, m: Metadata, job: Job, s: State)
    requires ReadMetadata(tools, bytes, password) == Ok(m) && m.header.chunkCount > 0 && m.header.version >= 2 && !m.header.isPassthrough
    requires JobFor(tools, brain, strict, m) == Ok(job) && BlockSteps(job, 0, Start0(m)) == Ok(s)
    requires s.corrupt == 0 && s.hashed == s.out && !m.header.isLossy && tools.sha256(s.out) != m.header.originalHash
    ensures Unpacked(tools, brain, password, strict, bytes) == Err(BadHash)
    ensures brain.Some? && strict && bytes != [] ==> UnpackedBytes(tools, brain.value, password, bytes) == Err(BadHash)
  {
    hide ReadMetadata, JobFor, BlockSteps;
  }

  // ----- a pool that is too short --------------------------------------------------------------

  // Of the first j chunks, those whose residual lies within n bytes of the pool; the
  // others as zeros.
  ghost function Salvaged(brain: Option<Codebook>, ps: seq<Piece>, n: nat, j: nat): Bytes
    requires j <= |ps|
  {
    if j == 0 then []
    else Salvaged(brain, ps, n, j - 1) + if PoolSize(ps, j) <= n then ChunkData(brain, ps[j - 1]) else Zeros(ps[j - 1].size)
  }

  ghost function LostCount(ps: seq<Piece>, n: nat, j: nat): nat
    requires j <= |ps|
  {
    if j == 0 then 0 else LostCount(ps, n, j - 1) + if PoolSize(ps, j) <= n then 0 else 1
  }

  // One chunk of such a block: in tolerant mode one past the pool is as many zeros
  // as the table announces, and in strict mode the end.
  lemma ShortChunk(job: Job, bs: seq<seq<Piece>>, i: nat, j: nat, n: nat, s: State)
    requires WellFormed(bs) && i < |bs| && j < |bs[i]| && SoundBlock(job.brain, bs[i]) && n <= |Pool(bs[i], |bs[i]|)|
    requires job.entries == Entries(bs, |bs|) && s.next == Start(bs, i) + j && s.base == Base(bs, i)
    ensures s.next < |job.entries| && PoolSize(bs[i], j + 1) <= |Pool(bs[i], |bs[i]|)|
    ensures ChunkStep(job, Pool(bs[i], |bs[i]|)[..n], s) ==
            if PoolSize(bs[i], j + 1) <= n then
              Ok(s.(out := s.out + ChunkData(job.brain, bs[i][j]), hashed := s.hashed + ChunkData(job.brain, bs[i][j]), next := s.next + 1))
            else if job.strict then Err(BadBounds)
            else Ok(s.(out := s.out + Zeros(bs[i][j].size), corrupt := s.corrupt + 1, next := s.next + 1))
  {
    hide *;
    var ps, pool := bs[i], Pool(bs[i], |bs[i]|);
    EntryAt(bs, i, j, |bs|);
    OffsetInBlock(bs, i, j);
    PoolSlice(ps, j, |ps|);
    PoolNext(ps, j);
    StartMonotone(bs, i, |bs|);
    SoundPiece(job.brain, ps, j);
    if PoolSize(ps, j + 1) <= n {
      SamePart(pool, n, PoolSize(ps, j), PoolSize(ps, j + 1));
      StepInParts(job, pool[..n], s, ps[j], Base(bs, i) + PoolSize(ps, j), PoolSize(ps, j));
    } else {
      PastPool(job, pool[..n], s, ps[j], Base(bs, i) + PoolSize(ps, j), PoolSize(ps, j));
    }
  }

  lemma PoolNext(ps: seq<Piece>, j: nat)
    requires j < |ps|
    ensures PoolSize(ps, j + 1) == PoolSize(ps, j) + |ps[j].residual|
  {
  }

  lemma SamePart(pool: Bytes, n: nat, from: nat, to: nat)
    requires from <= to <= n <= |pool|
    ensures pool[..n][from..to] == pool[from..to]
  {
  }

  lemma PastPool(job: Job, pool: Bytes, s: State, p: Piece, offset: nat, local: nat)
    requires s.next < |job.entries| && job.entries[s.next] == EntryOf(p, offset)
    requires Sub64(EntryOf(p, offset).offset, s.base) == local && EntryOf(p, offset).deltaSize == |p.residual|
    requires Add64(local, |p.residual|) == local + |p.residual| > |pool|
    ensures ChunkStep(job, pool, s) ==
            if job.strict then Err(BadBounds) else Ok(s.(out := s.out + Zeros(p.size), corrupt := s.corrupt + 1, next := s.next + 1))
  {
    hide Coding.Rebuilt, Sub64, Add64;
  }

  // The output after j chunks of a block of which only n bytes of the pool are there.
  ghost predicate AfterShort(brain: Option<Codebook>, bs: seq<seq<Piece>>, i: nat, j: nat, n: nat, s: State, t: State) {
    && i < |bs| && j <= |bs[i]|
    && t.out == s.out + Salvaged(brain, bs[i], n, j) && t.corrupt == s.corrupt + LostCount(bs[i], n, j)
    && t.next == Start(bs, i) + j && t.base == s.base && t.stream == s.stream
  }

  lemma ShortNext(job: Job, bs: seq<seq<Piece>>, i: nat, j: nat, n: nat, s: State, t: State)
    requires WellFormed(bs) && i < |bs| && j < |bs[i]| && SoundBlock(job.brain, bs[i]) && n <= |Pool(bs[i], |bs[i]|)| && !job.strict
    requires job.entries == Entries(bs, |bs|) && s.base == Base(bs, i) && AfterShort(job.brain, bs, i, j, n, s, t)
    ensures t.next < |job.entries|
    ensures var u := ChunkStep(job, Pool(bs[i], |bs[i]|)[..n], t); u.Ok? && AfterShort(job.brain, bs, i, j + 1, n, s, u.value)
  {
    ShortChunk(job, bs, i, j, n, t);
    hide WellFormed, SoundBlock, Pool, PoolSize, Entries, Start, Base, ChunkStep, ChunkData;
    Regroup(s.out, Salvaged(job.brain, bs[i], n, j), ChunkData(job.brain, bs[i][j]));
    Regroup(s.out, Salvaged(job.brain, bs[i], n, j), Zeros(bs[i][j].size));
  }

  lemma {:induction false} ShortChunks(job: Job, bs: seq<seq<Piece>>, i: nat, j: nat, n: nat, s: State, t: State)
    requires WellFormed(bs) && i < |bs| && j <= |bs[i]| && SoundBlock(job.brain, bs[i]) && n <= |Pool(bs[i], |bs[i]|)| && !job.strict
    requires job.entries == Entries(bs, |bs|) && s.base == Base(bs, i) && AfterShort(job.brain, bs, i, j, n, s, t)
    ensures var u := ChunkSteps(job, Pool(bs[i], |bs[i]|)[..n], |bs[i]| - j, t);
            u.Ok? && AfterShort(job.brain, bs, i, |bs[i]|, n, s, u.value)
    decreases |bs[i]| - j
  {
    hide *;
    var pool := Pool(bs[i], |bs[i]|)[..n];
    StepsUnfold(job, pool, |bs[i]| - j, t);
    if j < |bs[i]| {
      ShortNext(job, bs, i, j, n, s, t);
      ShortChunks(job, bs, i, j + 1, n, s, ChunkStep(job, pool, t).value);
    }
  }

  lemma {:induction false} SalvagedAt(brain: Option<Codebook>, ps: seq<Piece>, n: nat, j: nat, k: nat)
    requires SoundBlock(brain, ps) && k <= |ps|
    ensures |Salvaged(brain, ps, n, k)| == Size(ps, k)
    ensures j < k ==>
              && Size(ps, j) <= Size(ps, j + 1) <= Size(ps, k)
              && Salvaged(brain, ps, n, k)[Size(ps, j)..Size(ps, j + 1)] ==
                 if PoolSize(ps, j + 1) <= n then ChunkData(brain, ps[j]) else Zeros(ps[j].size)
  {
    if k > 0 {
      SalvagedAt(brain, ps, n, j, k - 1);
      assert Sound(brain, ps[k - 1]);
      hide Sound, SoundBlock, PoolSize, ChunkData;
      var last := if PoolSize(ps, k) <= n then ChunkData(brain, ps[k - 1]) else Zeros(ps[k - 1].size);
      if j < k - 1 {
        InPrefix(Salvaged(brain, ps, n, k - 1), last, Size(ps, j), Size(ps, j + 1));
      } else if j == k - 1 {
        InSuffix(Salvaged(brain, ps, n, k - 1), last, Size(ps, j), Size(ps, j + 1));
      }
    }
  }

  // Tolerant mode, on a block whose frame opens to only a part of its pool: the block
  // keeps its size; chunks whose residual is there are right, the others zeros.
  lemma ShortPool(job: Job, bs: seq<seq<Piece>>, i: nat, n: nat, s: State)
    requires WellFormed(bs) && i < |bs| && SoundBlock(job.brain, bs[i]) && n <= |Pool(bs[i], |bs[i]|)| && !job.strict
    requires job.entries == Entries(bs, |bs|) && s.base == Base(bs, i) && s.next == Start(bs, i)
    ensures var u := ChunkSteps(job, Pool(bs[i], |bs[i]|)[..n], |bs[i]|, s);
            && u.Ok? && u.value.next == Start(bs, i) + |bs[i]| && u.value.corrupt == s.corrupt + LostCount(bs[i], n, |bs[i]|)
            && |u.value.out| == |s.out| + Size(bs[i], |bs[i]|) && u.value.out[..|s.out|] == s.out
            && forall j :: 0 <= j < |bs[i]| ==> ChunkOrZeros(job.brain, bs[i], n, j, u.value.out[|s.out|..])
  {
    hide *;
    NoneShort(job.brain, bs, i, n, s);
    ShortChunks(job, bs, i, 0, n, s, s);
    var u := ChunkSteps(job, Pool(bs[i], |bs[i]|)[..n], |bs[i]|, s).value;
    AfterShortIs(job.brain, bs, i, |bs[i]|, n, s, u);
    SalvagedAt(job.brain, bs[i], n, 0, |bs[i]|);
    assert u.out[|s.out|..] == Salvaged(job.brain, bs[i], n, |bs[i]|);
    forall j | 0 <= j < |bs[i]|
      ensures ChunkOrZeros(job.brain, bs[i], n, j, u.out[|s.out|..])
    {
      SalvagedAt(job.brain, bs[i], n, j, |bs[i]|);
      ChunkOrZerosIs(job.brain, bs[i], n, j, u.out[|s.out|..]);
    }
  }

  // Chunk j of a block's output: right if its residual was there, else zeros.
  ghost predicate ChunkOrZeros(brain: Option<Codebook>, ps: seq<Piece>, n: nat, j: nat, out: Bytes)
    requires j < |ps|
  {
    && Size(ps, j) <= Size(ps, j + 1) <= |out|
    && out[Size(ps, j)..Size(ps, j + 1)] == if PoolSize(ps, j + 1) <= n then ChunkData(brain, ps[j]) else Zeros(ps[j].size)
  }

  lemma ChunkOrZerosIs(brain: Option<Codebook>, ps: seq<Piece>, n: nat, j: nat, out: Bytes)
    requires j < |ps| && Size(ps, j) <= Size(ps, j + 1) <= |out|
    ensures ChunkOrZeros(brain, ps, n, j, out) <==>
              out[Size(ps, j)..Size(ps, j + 1)] == if PoolSize(ps, j + 1) <= n then ChunkData(brain, ps[j]) else Zeros(ps[j].size)
  {
    hide Size, PoolSize, ChunkData;
  }

  lemma NoneShort(brain: Option<Codebook>, bs: seq<seq<Piece>>, i: nat, n: nat, s: State)
    requires i < |bs| && s.next == Start(bs, i)
    ensures AfterShort(brain, bs, i, 0, n, s, s)
  {
    assert s.out + [] == s.out;
  }

  lemma AfterShortIs(brain: Option<Codebook>, bs: seq<seq<Piece>>, i: nat, j: nat, n: nat, s: State, t: State)
    requires AfterShort(brain, bs, i, j, n, s, t)
    ensures i < |bs| && j <= |bs[i]|
    ensures t.out == s.out + Salvaged(brain, bs[i], n, j) && t.corrupt == s.corrupt + LostCount(bs[i], n, j) && t.next == Start(bs, i) + j
  {
    hide Salvaged, LostCount, Start;
  }

  // But the global offset then advances by the length of the pool that was there:
  // the next block finds its residuals in their places if and only if none of the
  // pool was missing.
  lemma ShortPoolShifts(bs: seq<seq<Piece>>, i: nat, n: nat)
    requires WellFormed(bs) && i + 1 < |bs| && n <= PoolSize(bs[i], |bs[i]|)
    ensures Start(bs, i + 1) < |Entries(bs, |bs|)|
    ensures Sub64(Entries(bs, |bs|)[Start(bs, i + 1)].offset, Add64(Base(bs, i), n)) == PoolSize(bs[i], |bs[i]|) - n
  {
    NextOffsetIsBase(bs, i + 1);
    StartNext(bs, i);
    StartMonotone(bs, i + 1, |bs|);
    FieldWidths(bs);
    hide *;
    Shift(Base(bs, i), PoolSize(bs[i], |bs[i]|), n);
  }

  lemma Shift(base: nat, size: nat, n: nat)
    requires n <= size && base + size < TWO_TO_64
    ensures Sub64(base + size, Add64(base, n)) == size - n
  {
  }
}
