// What the chunkers and writers achieve together: chunks the receiver already has
// travel as IDs, so a block stores no more than its literal bytes.
module Deduplication {
  import opened Common
  import opened Chunks
  import opened Codebooks
  import opened Blocks
  import opened Packing
  import opened ChunkWorkers
  import opened FileWriter
  import A = AlignedChunking
  import ByteWriter
  import Coding

  // No two different codewords share a checksum.
  ghost predicate DistinctSums(cb: Codebook, sum64: Bytes -> u64) {
    forall v, w :: v in cb.words && w in cb.words && sum64(v) == sum64(w) ==> v == w
  }

  // The piece is a codeword's ID and nothing else.
  ghost predicate OnlyId(cb: Codebook, chunk: Bytes, p: Piece) {
    p.residual == [] && p.id < |cb.words| && cb.words[p.id] == chunk
  }

  // A chunk that is a codeword travels as its ID, whatever else is decided.
  lemma KnownChunkInMemory(cb: Codebook, sum64: Bytes -> u64, chunk: Bytes, ev: ByteWriter.Evidence)
    requires cb.Valid() && DistinctSums(cb, sum64) && chunk in cb.words && |chunk| < TWO_TO_32
    requires ev.best.Some? ==> ev.best.value < |cb.words|
    ensures OnlyId(cb, chunk, ByteWriter.Coded(cb, Coding.BuiltIndex(cb, sum64, |cb.words|), sum64, chunk, ev))
  {
    Coding.FindExactComplete(cb, sum64, chunk);
    hide Coding.FindExact, Coding.BuiltIndex;
  }

  lemma KnownChunkOnDisk(mode: Mode, s: Searcher, chunk: Bytes, ev: Evidence, r: Result<Piece>)
    requires s.Valid() && s.Possible(ev) && |chunk| < TWO_TO_32 && Outcome(mode, s, chunk, ev, r)
    requires s.brain.Some? && s.index == Coding.BuiltIndex(s.brain.value, s.sum64, |s.brain.value.words|)
    requires DistinctSums(s.brain.value, s.sum64) && chunk in s.brain.value.words
    ensures r.Ok? && OnlyId(s.brain.value, chunk, r.value)
  {
    Coding.FindExactComplete(s.brain.value, s.sum64, chunk);
    hide Coding.FindExact, Coding.BuiltIndex, Searched;
  }

  // ----- a block ---------------------------------------------------------------------

  // Codewords cost nothing, other chunks at most their size.
  ghost predicate Lean(words: seq<Bytes>, chunks: seq<Chunk>, ps: seq<Piece>) {
    |ps| == |chunks| && forall j :: 0 <= j < |ps| ==>
      |ps[j].residual| <= |chunks[j].data| && (chunks[j].data in words ==> ps[j].residual == [])
  }

  lemma {:induction false} LiteralAppend(words: seq<Bytes>, a: seq<Chunk>, c: Chunk)
    ensures A.LiteralBytes(words, a + [c]) == A.LiteralBytes(words, a) + if c.data in words then 0 else |c.data|
  {
    if a == [] {
      assert ([] + [c])[1..] == [];
    } else {
      LiteralAppend(words, a[1..], c);
      assert (a + [c])[1..] == a[1..] + [c];
    }
  }

  lemma {:induction false} PoolIsLiteral(words: seq<Bytes>, chunks: seq<Chunk>, ps: seq<Piece>, n: nat)
    requires Lean(words, chunks, ps) && n <= |ps|
    ensures PoolSize(ps, n) <= A.LiteralBytes(words, chunks[..n])
  {
    if n > 0 {
      PoolIsLiteral(words, chunks, ps, n - 1);
      assert chunks[..n] == chunks[..n - 1] + [chunks[n - 1]];
      LiteralAppend(words, chunks[..n - 1], chunks[n - 1]);
      hide A.LiteralBytes;
    }
  }

  // Every block either file writer packs against a brain is lean.
  lemma PackedBlockIsLean(job: Job, input: Bytes, k: nat, ps: seq<Piece>, frame: Bytes)
    requires job.Valid() && BlockPacked(job, input, k, ps, frame) && job.s.brain.Some?
    requires job.s.index == Coding.BuiltIndex(job.s.brain.value, job.s.sum64, |job.s.brain.value.words|)
    requires DistinctSums(job.s.brain.value, job.s.sum64)
    ensures Lean(job.s.brain.value.words, job.split(BlockOf(input, k)), ps)
  {
    var chunks, words := job.split(BlockOf(input, k)), job.s.brain.value.words;
    hide Outcome, Coding.BuiltIndex, DistinctSums, Coding.Faithful;
    forall j | 0 <= j < |ps|
      ensures |ps[j].residual| <= |chunks[j].data| && (chunks[j].data in words ==> ps[j].residual == [])
    {
      OutcomeFaithful(job.mode, job.s, chunks[j].data, job.ev(k, j), ps[j]);
      NoLonger(job.s.brain, chunks[j].data, ps[j]);
      if chunks[j].data in words { KnownChunkOnDisk(job.mode, job.s, chunks[j].data, job.ev(k, j), Ok(ps[j])); }
    }
  }

  lemma NoLonger(brain: Option<Codebook>, chunk: Bytes, p: Piece)
    requires Coding.Faithful(brain, chunk, p)
    ensures |p.residual| <= |chunk|
  {
  }

  // With content-aligned chunks, the pool of a block with bytes inserted anywhere
  // is at most the literal bytes of the block without them, the insertion and one
  // codeword.
  lemma InsertionStoresLittle(a: A.Aligner, x: Bytes, inserted: Bytes, y: Bytes, ps: seq<Piece>)
    requires a.Valid() && A.NoCollisions(a.cb) && Lean(a.cb.words, a.ChunksFrom(x + inserted + y, 0), ps)
    ensures PoolSize(ps, |ps|) <= A.LiteralBytes(a.cb.words, a.ChunksFrom(x + y, 0)) + |inserted| + a.cb.size
  {
    var chunks := a.ChunksFrom(x + inserted + y, 0);
    hide A.Aligner.ChunksFrom, A.Aligner.Valid, A.NoCollisions, A.LiteralBytes, PoolSize;
    PoolIsLiteral(a.cb.words, chunks, ps, |ps|);
    assert chunks[..|chunks|] == chunks;
    A.InsertionIsLocal(a, x, y, inserted);
  }
}
