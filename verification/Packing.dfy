// What the writers have in common: input blocks cut into chunks, each chunk
// coded into a piece, pieces laid out as a file (pkg/cromlib).
module Packing {
  import opened Common
  import opened Tooling
  import opened Headers
  import opened Chunks
  import opened ChunkTable
  import opened Codebooks
  import opened Blocks
  import opened Container
  import opened Restoring
  import Unpacker
  import Coding

  type Splitter = Bytes -> seq<Chunk>

  // Every chunker covers its input with positive chunks.
  ghost predicate Covering(split: Splitter) {
    forall data: Bytes :: Covers(split(data), data, 0)
  }

  function BlockCount(n: nat): nat { (n + BLOCK_SIZE - 1) / BLOCK_SIZE }

  // The k-th full read of up to BLOCK_SIZE bytes.
  function BlockOf(input: Bytes, k: nat): Bytes {
    var from := Min(k * BLOCK_SIZE, |input|);
    input[from..Min(from + BLOCK_SIZE, |input|)]
  }

  // The pieces of one block: one for each chunk, from which it is rebuilt.
  ghost predicate CodedBlock(brain: Option<Codebook>, chunks: seq<Chunk>, ps: seq<Piece>) {
    |ps| == |chunks| && forall j :: 0 <= j < |ps| ==> Coding.Faithful(brain, chunks[j].data, ps[j])
  }

  ghost predicate CodedBlocks(brain: Option<Codebook>, split: Splitter, input: Bytes, bs: seq<seq<Piece>>) {
    forall k :: 0 <= k < |bs| ==> CodedBlock(brain, split(BlockOf(input, k)), bs[k])
  }

  // One frame a block, each of them as a writer packs it.
  ghost predicate EachPacked(packed: (nat, seq<Piece>, Bytes) -> bool, bs: seq<seq<Piece>>, frames: seq<Bytes>) {
    |frames| == |bs| && forall k :: 0 <= k < |bs| ==> packed(k, bs[k], frames[k])
  }

  lemma PackedCount(packed: (nat, seq<Piece>, Bytes) -> bool, bs: seq<seq<Piece>>, frames: seq<Bytes>)
    requires EachPacked(packed, bs, frames)
    ensures |frames| == |bs|
  {
  }

  lemma NothingPacked(packed: (nat, seq<Piece>, Bytes) -> bool)
    ensures EachPacked(packed, [], [])
  {
  }

  lemma OneMorePacked(packed: (nat, seq<Piece>, Bytes) -> bool, bs: seq<seq<Piece>>, frames: seq<Bytes>, ps: seq<Piece>, frame: Bytes)
    requires EachPacked(packed, bs, frames) && packed(|bs|, ps, frame)
    ensures EachPacked(packed, bs + [ps], frames + [frame])
  {
  }

  // ----- one block --------------------------------------------------------------------

  lemma {:induction false} CoversAt(chunks: seq<Chunk>, data: Bytes, from: nat, j: nat)
    requires from <= |data| && Covers(chunks, data, from) && j < |chunks|
    ensures var c := chunks[j];
            from <= c.offset && 0 < c.size && c.offset + c.size <= |data| && c.data == data[c.offset..c.offset + c.size]
    ensures j == 0 ==> chunks[j].offset == from
    ensures j + 1 < |chunks| ==> chunks[j + 1].offset == chunks[j].offset + chunks[j].size
    ensures j + 1 == |chunks| ==> chunks[j].offset + chunks[j].size == |data|
    ensures Reach(chunks, data, j) == chunks[j].offset && Reach(chunks, data, j + 1) == chunks[j].offset + chunks[j].size
  {
    if j > 0 {
      CoversAt(chunks[1..], data, from + chunks[0].size, j - 1);
    } else if |chunks| == 1 {
      assert Covers(chunks[1..], data, from + chunks[0].size);
    } else {
      assert chunks[1..][0] == chunks[1];
    }
  }

  // How far the first j chunks reach.
  ghost function Reach(chunks: seq<Chunk>, data: Bytes, j: nat): nat {
    if j < |chunks| then chunks[j].offset else |data|
  }

  lemma {:induction false} CodedPrefix(brain: Option<Codebook>, chunks: seq<Chunk>, data: Bytes, ps: seq<Piece>, j: nat)
    requires Covers(chunks, data, 0) && CodedBlock(brain, chunks, ps) && j <= |ps|
    ensures Reach(chunks, data, j) <= |data| && Data(brain, ps, j) == data[..Reach(chunks, data, j)]
    ensures Size(ps, j) == Reach(chunks, data, j) && PoolSize(ps, j) <= Size(ps, j)
  {
    if j == 0 {
      if chunks != [] { CoversAt(chunks, data, 0, 0); }
    } else {
      hide *;
      CodedLength(brain, chunks, ps);
      CodedPrefix(brain, chunks, data, ps, j - 1);
      CoversAt(chunks, data, 0, j - 1);
      CodedPiece(brain, chunks, ps, j - 1);
      PrefixStep(brain, chunks, data, ps, j);
    }
  }

  lemma CodedLength(brain: Option<Codebook>, chunks: seq<Chunk>, ps: seq<Piece>)
    requires CodedBlock(brain, chunks, ps)
    ensures |ps| == |chunks|
  {
  }

  lemma PrefixStep(brain: Option<Codebook>, chunks: seq<Chunk>, data: Bytes, ps: seq<Piece>, j: nat)
    requires 0 < j <= |ps| == |chunks|
    requires var c, p := chunks[j - 1], ps[j - 1];
             && 0 < c.size && c.offset + c.size <= |data| && c.data == data[c.offset..c.offset + c.size]
             && Reach(chunks, data, j) == c.offset + c.size
             && ChunkData(brain, p) == c.data && p.size == |c.data| && |p.residual| <= p.size
             && Data(brain, ps, j - 1) == data[..c.offset] && Size(ps, j - 1) == c.offset && PoolSize(ps, j - 1) <= Size(ps, j - 1)
    ensures Reach(chunks, data, j) <= |data| && Data(brain, ps, j) == data[..Reach(chunks, data, j)]
    ensures Size(ps, j) == Reach(chunks, data, j) && PoolSize(ps, j) <= Size(ps, j)
  {
    var c := chunks[j - 1];
    hide Reach, ChunkData;
    assert data[..c.offset] + data[c.offset..c.offset + c.size] == data[..c.offset + c.size];
  }

  lemma CodedPiece(brain: Option<Codebook>, chunks: seq<Chunk>, ps: seq<Piece>, j: nat)
    requires CodedBlock(brain, chunks, ps) && j < |ps|
    ensures Sound(brain, ps[j]) && ChunkData(brain, ps[j]) == chunks[j].data
    ensures ps[j].size == |chunks[j].data| && |ps[j].residual| <= ps[j].size
    ensures if ps[j].id == LITERAL_ID then ps[j].index != FRACTAL_INDEX else ps[j].id < TWO_TO_63 - 1
  {
    assert Coding.Faithful(brain, chunks[j].data, ps[j]);
  }

  // What holds of every piece a writer stores, besides rebuilding its chunk.
  ghost predicate Regular(ps: seq<Piece>) {
    forall j :: 0 <= j < |ps| ==>
      && (if ps[j].id == LITERAL_ID then ps[j].index != FRACTAL_INDEX else ps[j].id < TWO_TO_63 - 1)
      && |ps[j].residual| <= ps[j].size
  }

  ghost predicate RegularBlocks(bs: seq<seq<Piece>>) {
    forall k :: 0 <= k < |bs| ==> Regular(bs[k])
  }

  // A coded block holds its input, and its residuals take no more room.
  lemma CodedBlockHolds(brain: Option<Codebook>, chunks: seq<Chunk>, data: Bytes, ps: seq<Piece>)
    requires Covers(chunks, data, 0) && CodedBlock(brain, chunks, ps) && |data| <= BLOCK_SIZE
    ensures SoundBlock(brain, ps) && PiecesFit(ps) && Regular(ps)
    ensures Data(brain, ps, |ps|) == data && Size(ps, |ps|) == |data| && PoolSize(ps, |ps|) <= |data|
  {
    CodedPrefix(brain, chunks, data, ps, |ps|);
    assert data[..|data|] == data;
    forall j | 0 <= j < |ps|
      ensures Sound(brain, ps[j]) && 0 < ps[j].size <= BLOCK_SIZE && |ps[j].residual| < TWO_TO_32
      ensures if ps[j].id == LITERAL_ID then ps[j].index != FRACTAL_INDEX else ps[j].id < TWO_TO_63 - 1
      ensures |ps[j].residual| <= ps[j].size
    {
      CodedPiece(brain, chunks, ps, j);
      CoversAt(chunks, data, 0, j);
    }
  }

  // ----- all blocks ----------------------------------------------------------------------

  lemma CountBlocks(n: nat, k: nat)
    ensures n == 0 ==> BlockCount(n) == 0
    ensures k < BlockCount(n) <==> k * BLOCK_SIZE < n
    ensures k + 1 == BlockCount(n) ==> n <= (k + 1) * BLOCK_SIZE
  {
  }

  lemma Advances(k: nat)
    ensures k * BLOCK_SIZE < (k + 1) * BLOCK_SIZE
  {
  }

  lemma AllCounted(n: nat, k: nat)
    requires k * BLOCK_SIZE >= n && (k == 0 || k - 1 < BlockCount(n))
    ensures k == BlockCount(n)
  {
  }

  lemma BlockBounds(input: Bytes, k: nat)
    requires k < BlockCount(|input|)
    ensures 0 < |BlockOf(input, k)| <= BLOCK_SIZE && (k + 1 < BlockCount(|input|) ==> |BlockOf(input, k)| == BLOCK_SIZE)
    ensures k * BLOCK_SIZE <= |input|
    ensures input[..k * BLOCK_SIZE] + BlockOf(input, k) == input[..Min((k + 1) * BLOCK_SIZE, |input|)]
  {
    CountBlocks(|input|, k);
    CountBlocks(|input|, k + 1);
  }

  // The first k coded blocks hold the first k blocks of input.
  lemma {:induction false} CodedFile(brain: Option<Codebook>, split: Splitter, input: Bytes, bs: seq<seq<Piece>>, k: nat)
    requires Covering(split) && CodedBlocks(brain, split, input, bs) && k <= |bs| <= BlockCount(|input|)
    ensures var n := Min(k * BLOCK_SIZE, |input|);
            FileData(brain, bs, k) == input[..n] && Base(bs, k) <= Original(bs, k) == n
  {
    if k > 0 {
      var i := k - 1;
      CodedFile(brain, split, input, bs, i);
      OneBlock(brain, split, input, bs, i);
      BlockBounds(input, i);
      StartNext(bs, i);
      hide CodedBlocks, Covering, Size, PoolSize, Data;
    }
  }

  lemma OneBlock(brain: Option<Codebook>, split: Splitter, input: Bytes, bs: seq<seq<Piece>>, i: nat)
    requires Covering(split) && CodedBlocks(brain, split, input, bs) && i < |bs| <= BlockCount(|input|)
    ensures var data, ps := BlockOf(input, i), bs[i];
            && SoundBlock(brain, ps) && PiecesFit(ps) && Regular(ps)
            && Data(brain, ps, |ps|) == data && Size(ps, |ps|) == |data| && PoolSize(ps, |ps|) <= |data|
  {
    BlockBounds(input, i);
    var data := BlockOf(input, i);
    assert Covers(split(data), data, 0);
    CodedBlockHolds(brain, split(data), data, bs[i]);
  }

  lemma CodedIsWellFormed(brain: Option<Codebook>, split: Splitter, input: Bytes, bs: seq<seq<Piece>>)
    requires Covering(split) && CodedBlocks(brain, split, input, bs) && |bs| == BlockCount(|input|)
    requires |input| < TWO_TO_63 && Start(bs, |bs|) < TWO_TO_32
    ensures WellFormed(bs) && SoundBlocks(brain, bs) && Original(bs, |bs|) == |input|
    ensures FileData(brain, bs, |bs|) == input && NoWrap(Entries(bs, |bs|), 0, 0) && RegularBlocks(bs)
  {
    hide *;
    CodedFile(brain, split, input, bs, |bs|);
    CountBlocks(|input|, |bs|);
    MinIs(|bs| * BLOCK_SIZE, |input|);
    assert input[..|input|] == input;
    forall k | 0 <= k < |bs|
      ensures SoundBlock(brain, bs[k]) && PiecesFit(bs[k]) && Regular(bs[k])
      ensures 0 < Size(bs[k], |bs[k]|) <= BLOCK_SIZE && (k < |bs| - 1 ==> Size(bs[k], |bs[k]|) == BLOCK_SIZE)
    {
      OneBlock(brain, split, input, bs, k);
      BlockBounds(input, k);
    }
    BlocksAre(brain, bs);
    EntriesDoNotWrap(bs);
  }

  // Block by block, what makes a table of blocks.
  lemma BlocksAre(brain: Option<Codebook>, bs: seq<seq<Piece>>)
    requires forall k :: 0 <= k < |bs| ==> SoundBlock(brain, bs[k]) && PiecesFit(bs[k]) && Regular(bs[k])
    requires forall k :: 0 <= k < |bs| ==> 0 < Size(bs[k], |bs[k]|) <= BLOCK_SIZE && (k < |bs| - 1 ==> Size(bs[k], |bs[k]|) == BLOCK_SIZE)
    requires Base(bs, |bs|) <= Original(bs, |bs|) < TWO_TO_63 && Start(bs, |bs|) < TWO_TO_32
    ensures WellFormed(bs) && SoundBlocks(brain, bs) && RegularBlocks(bs)
  {
    hide SoundBlock, PiecesFit, Regular, Size, Base, Original, Start;
  }

  lemma {:induction false} SmallEntries(bs: seq<seq<Piece>>, k: nat, e: ChunkEntry)
    requires k <= |bs| && e in Entries(bs, k) && RegularBlocks(bs)
    ensures if e.id == LITERAL_ID then e.index != FRACTAL_INDEX else e.id < TWO_TO_63 - 1
  {
    var last := BlockEntries(bs[k - 1], Base(bs, k - 1), |bs[k - 1]|);
    if e in Entries(bs, k - 1) {
      SmallEntries(bs, k - 1, e);
    } else {
      var j :| 0 <= j < |last| && last[j] == e;
      BlockEntryAt(bs[k - 1], Base(bs, k - 1), j, |bs[k - 1]|);
      assert Regular(bs[k - 1]);
    }
  }

  lemma EntriesDoNotWrap(bs: seq<seq<Piece>>)
    requires RegularBlocks(bs)
    ensures NoWrap(Entries(bs, |bs|), 0, 0)
  {
    var es := Entries(bs, |bs|);
    forall e | e in es
      ensures if e.id == LITERAL_ID then e.index != FRACTAL_INDEX else e.id < TWO_TO_63 - 1
    {
      SmallEntries(bs, |bs|, e);
    }
    hide RegularBlocks, Entries;
    SmallIdsDoNotWrap(es, 0, 0);
  }

  // ----- the file ----------------------------------------------------------------------------

  // A packed file: it reads back to these blocks, and they hold the input.
  ghost predicate Archive(tools: Tools, brain: Option<Codebook>, password: Bytes, bytes: Bytes, input: Bytes, h: Header,
                          bs: seq<seq<Piece>>, frames: seq<Bytes>)
  {
    && Readable(tools, brain, password, true, bytes, h, bs, frames, {})
    && RegularBlocks(bs)
    && FileData(brain, bs, |bs|) == input && !h.isLossy && h.originalHash == tools.sha256(input)
  }

  // The facts of an archive.
  lemma ArchiveIs(tools: Tools, brain: Option<Codebook>, password: Bytes, bytes: Bytes, input: Bytes, h: Header, bs: seq<seq<Piece>>, frames: seq<Bytes>)
    requires Archive(tools, brain, password, bytes, input, h, bs, frames)
    ensures Readable(tools, brain, password, true, bytes, h, bs, frames, {})
    ensures tools.Valid() && IsFile(tools, password, bytes, h, bs, frames) && WellFormed(bs) && bs != [] && h.Valid() && 5 <= h.version <= 8
    ensures |frames| == |bs| && KeyFor(tools, h, password).Ok? && RegularBlocks(bs) && NoWrap(Entries(bs, |bs|), 0, 0)
    ensures forall k :: 0 <= k < |frames| ==> |frames[k]| < TWO_TO_32
    ensures h.usesBrainDict ==> brain.Some?
    ensures forall k :: 0 <= k < |bs| ==>
              OpenFrame(tools, KeyFor(tools, h, password).value, if h.usesBrainDict then brain.value.dictionary else [], frames[k]) == Ok(Pool(bs[k], |bs[k]|))
    ensures h.originalSize == Original(bs, |bs|) < TWO_TO_63 && h.chunkCount == Start(bs, |bs|) > 0 && h.originalHash == tools.sha256(input)
    ensures SoundBlocks(brain, bs) && FileData(brain, bs, |bs|) == input
  {
    StartsAtLeast(bs, |bs|);
    hide Tools.Valid, WellFormed, RegularBlocks, FileBytes, TableBlob, KeyFor, Original, Start, Header.Valid, Entries, NoWrap, Pool, OpenFrame, TrueStarts,
         SoundBlocks, FileData;
    var job := JobHere(tools, brain, password, true, h, bs, frames);
    forall k | 0 <= k < |bs|
      ensures OpenFrame(tools, job.key, job.dict, frames[k]) == Ok(Pool(bs[k], |bs[k]|))
    {
      assert FrameOpens(job, bs[k], frames[k], k in {});
    }
  }

  // Every reader restores the input of a packed file.
  lemma ArchiveRestored(tools: Tools, brain: Option<Codebook>, password: Bytes, strict: bool, bytes: Bytes, input: Bytes, h: Header,
                        bs: seq<seq<Piece>>, frames: seq<Bytes>)
    requires Archive(tools, brain, password, bytes, input, h, bs, frames)
    ensures Unpacker.Unpacked(tools, brain, password, strict, bytes) == Ok((input, 0 as nat))
    ensures brain.Some? ==> Unpacker.UnpackedBytes(tools, brain.value, password, bytes) == Ok(input)
  {
    ReadableEitherWay(tools, brain, password, strict, bytes, h, bs, frames);
    hide Readable;
    NoneBad(brain, bs, {}, |bs|);
    UnpackRestores(tools, brain, password, strict, bytes, h, bs, frames, {});
    if brain.Some? { UnpackedInMemory(tools, brain, password, bytes, h, bs, frames); }
  }

  lemma ReadableEitherWay(tools: Tools, brain: Option<Codebook>, password: Bytes, strict: bool, bytes: Bytes, h: Header,
                          bs: seq<seq<Piece>>, frames: seq<Bytes>)
    requires Readable(tools, brain, password, true, bytes, h, bs, frames, {})
    ensures Readable(tools, brain, password, strict, bytes, h, bs, frames, {})
  {
    hide IsFile, SoundBlocks, Tools.Valid, KeyFor, Entries, TrueStarts, Pool;
    var job, job' := JobHere(tools, brain, password, true, h, bs, frames), JobHere(tools, brain, password, strict, h, bs, frames);
    forall k | 0 <= k < |bs|
      ensures FrameOpens(job', bs[k], frames[k], false)
    {
      assert FrameOpens(job, bs[k], frames[k], k in {});
    }
  }

  lemma UnpackedInMemory(tools: Tools, brain: Option<Codebook>, password: Bytes, bytes: Bytes, h: Header,
                         bs: seq<seq<Piece>>, frames: seq<Bytes>)
    requires Readable(tools, brain, password, true, bytes, h, bs, frames, {}) && brain.Some?
    requires h.originalHash == tools.sha256(FileData(brain, bs, |bs|))
    ensures Unpacker.UnpackedBytes(tools, brain.value, password, bytes) == Ok(FileData(brain, bs, |bs|))
  {
    hide *;
    var m, job := JobOpened(tools, brain, password, true, bytes, h, bs, frames, {});
    ReachedStart(brain, bs, frames, {}, m);
    AllBlocks(job, bs, frames, {}, 0, Unpacker.Start0(m));
    var s := Unpacker.BlockSteps(job, 0, Unpacker.Start0(m)).value;
    ReachedEnd(brain, bs, frames, {}, s);
    NoneBad(brain, bs, {}, |bs|);
    FilesAreNotEmpty(tools, password, bytes);
    UnpackedInParts(tools, brain, password, true, bytes, m, job, s);
  }

  lemma FilesAreNotEmpty(tools: Tools, password: Bytes, bytes: Bytes)
    ensures ReadMetadata(tools, bytes, password).Ok? ==> bytes != []
  {
  }

  // ----- laying out a file ----------------------------------------------------------------------

  // The frames the writers produce, one a block.
  ghost predicate FramesWritten(tools: Tools, key: Option<Bytes>, nonces: nat -> Bytes, dict: Bytes, bs: seq<seq<Piece>>, frames: seq<Bytes>) {
    |frames| == |bs| && forall k :: 0 <= k < |bs| ==> frames[k] == Frame(tools, key, nonces(k), dict, Pool(bs[k], |bs[k]|))
  }

  // The 32-bit fields hold the number of chunks and the size of their table.
  ghost predicate FitsFormat(tools: Tools, key: Option<Bytes>, nonce: Bytes, bs: seq<seq<Piece>>) {
    Start(bs, |bs|) < TWO_TO_32 && |TableBlob(tools, key, nonce, Entries(bs, |bs|))| < TWO_TO_32
  }

  lemma FrameSizes(tools: Tools, brain: Option<Codebook>, split: Splitter, input: Bytes, key: Option<Bytes>, nonces: nat -> Bytes,
                   dict: Bytes, bs: seq<seq<Piece>>, frames: seq<Bytes>, k: nat)
    requires tools.Valid() && Covering(split) && CodedBlocks(brain, split, input, bs) && |bs| == BlockCount(|input|)
    requires FramesWritten(tools, key, nonces, dict, bs, frames) && k < |bs|
    ensures |frames[k]| < TWO_TO_32 && OpenFrame(tools, key, dict, frames[k]) == Ok(Pool(bs[k], |bs[k]|))
  {
    OneBlock(brain, split, input, bs, k);
    BlockBounds(input, k);
    PoolLength(bs[k], |bs[k]|);
    FrameRoundTrip(tools, key, nonces(k), dict, Pool(bs[k], |bs[k]|));
    hide Tools.Valid, Covering, CodedBlocks, Frame, Pool, PoolSize, Size, OpenFrame, BlockOf;
  }

  // Coded blocks laid out as the writers do make a packed file.
  lemma LaidOut(tools: Tools, brain: Option<Codebook>, split: Splitter, password: Bytes, input: Bytes, h: Header,
                nonce: Bytes, nonces: nat -> Bytes, bs: seq<seq<Piece>>, frames: seq<Bytes>)
    requires tools.Valid() && Covering(split) && CodedBlocks(brain, split, input, bs) && |bs| == BlockCount(|input|)
    requires 0 < |input| < TWO_TO_63
    requires h.Valid() && 5 <= h.version <= 8 && h.compressedTable && !h.isPassthrough && !h.isLossy
    requires h.originalSize == |input| && h.originalHash == tools.sha256(input)
    requires (h.usesBrainDict ==> brain.Some?) && KeyFor(tools, h, password).Ok?
    requires var key := KeyFor(tools, h, password).value;
             && FitsFormat(tools, key, nonce, bs) && h.chunkCount == Start(bs, |bs|)
             && FramesWritten(tools, key, nonces, if h.usesBrainDict then brain.value.dictionary else [], bs, frames)
    ensures Archive(tools, brain, password, FileBytes(tools, KeyFor(tools, h, password).value, nonce, h, Entries(bs, |bs|), frames),
                    input, h, bs, frames)
  {
    hide *;
    var key, dict := KeyFor(tools, h, password).value, if h.usesBrainDict then brain.value.dictionary else [];
    FitsWidth(tools, key, nonce, bs);
    CodedIsWellFormed(brain, split, input, bs);
    CountBlocks(|input|, 0);
    FrameCount(tools, key, nonces, dict, bs, frames);
    forall k | 0 <= k < |bs|
      ensures |frames[k]| < TWO_TO_32 && OpenFrame(tools, key, dict, frames[k]) == Ok(Pool(bs[k], |bs[k]|))
    {
      FrameSizes(tools, brain, split, input, key, nonces, dict, bs, frames, k);
    }
    FileLaidOut(tools, password, h, nonce, bs, frames);
    ArchiveHolds(tools, brain, password, FileBytes(tools, key, nonce, h, Entries(bs, |bs|), frames), input, h, bs, frames);
  }

  lemma FitsWidth(tools: Tools, key: Option<Bytes>, nonce: Bytes, bs: seq<seq<Piece>>)
    requires FitsFormat(tools, key, nonce, bs)
    ensures Start(bs, |bs|) < TWO_TO_32
  {
  }

  // Every input of up to 120 million chunks fits.
  lemma ManyChunksFit(tools: Tools, key: Option<Bytes>, nonce: Bytes, bs: seq<seq<Piece>>)
    requires tools.Valid() && Start(bs, |bs|) <= 120_000_000
    ensures FitsFormat(tools, key, nonce, bs)
  {
    var es := Entries(bs, |bs|);
    TableRoundTrip(es);
    BlobSize(tools, key, nonce, es);
    hide TableBlob, Entries, Encoded, Start, Tools.Valid;
  }

  // Coded blocks laid out as the writers do, whatever the number of chunks and the
  // size of their table, which the format keeps in 32 bits: the file reads back to
  // its table and stops at its first frame if and only if both fit.
  lemma ReadBackIffFits(tools: Tools, brain: Option<Codebook>, split: Splitter, password: Bytes, input: Bytes, h: Header,
                        nonce: Bytes, nonces: nat -> Bytes, bs: seq<seq<Piece>>, frames: seq<Bytes>)
    requires tools.Valid() && Covering(split) && CodedBlocks(brain, split, input, bs) && |bs| == BlockCount(|input|)
    requires 0 < |input| < TWO_TO_63
    requires h.Valid() && 5 <= h.version <= 8 && h.compressedTable && !h.isPassthrough && !h.isLossy
    requires h.originalSize == |input| && h.originalHash == tools.sha256(input)
    requires (h.usesBrainDict ==> brain.Some?) && KeyFor(tools, h, password).Ok? && h.chunkCount == Start(bs, |bs|) % TWO_TO_32
    requires FramesWritten(tools, KeyFor(tools, h, password).value, nonces, if h.usesBrainDict then brain.value.dictionary else [], bs, frames)
    ensures var key := KeyFor(tools, h, password).value;
            var m := ReadMetadata(tools, FileBytes(tools, key, nonce, h, Entries(bs, |bs|), frames), password);
            FitsFormat(tools, key, nonce, bs) <==> m.Ok? && m.value.entries == Entries(bs, |bs|) && m.value.pool == Concat(frames, 0)
  {
    hide *;
    var key, es := KeyFor(tools, h, password).value, Entries(bs, |bs|);
    var file := FileBytes(tools, key, nonce, h, es, frames);
    FitsIs(tools, key, nonce, bs);
    var count := InWidth(Start(bs, |bs|));
    if FitsFormat(tools, key, nonce, bs) {
      LaidOut(tools, brain, split, password, input, h, nonce, nonces, bs, frames);
      ArchiveIs(tools, brain, password, file, input, h, bs, frames);
      FileReadBack(tools, password, file, h, bs, frames);
    } else if Start(bs, |bs|) >= TWO_TO_32 {
      MetadataShape(tools, file, password);
    } else {
      CodedIsWellFormed(brain, split, input, bs);
      CountBlocks(|input|, 0);
      FrameCount(tools, key, nonces, if h.usesBrainDict then brain.value.dictionary else [], bs, frames);
      TableTooLong(tools, password, h, nonce, bs, frames);
    }
  }

  lemma TableTooLong(tools: Tools, password: Bytes, h: Header, nonce: Bytes, bs: seq<seq<Piece>>, frames: seq<Bytes>)
    requires tools.Valid() && h.Valid() && 5 <= h.version <= 8 && h.compressedTable && KeyFor(tools, h, password).Ok?
    requires WellFormed(bs) && bs != [] && |frames| == |bs| && Original(bs, |bs|) < TWO_TO_63
    requires h.chunkCount == Start(bs, |bs|) && h.originalSize == Original(bs, |bs|) && NoWrap(Entries(bs, |bs|), 0, 0)
    requires |TableBlob(tools, KeyFor(tools, h, password).value, nonce, Entries(bs, |bs|))| >= TWO_TO_32
    ensures var key := KeyFor(tools, h, password).value;
            var m := ReadMetadata(tools, FileBytes(tools, key, nonce, h, Entries(bs, |bs|), frames), password);
            m.Ok? ==> m.value.entries != Entries(bs, |bs|) || m.value.pool != Concat(frames, 0)
  {
    hide *;
    var key, es := KeyFor(tools, h, password).value, Entries(bs, |bs|);
    var file := FileBytes(tools, key, nonce, h, es, frames);
    var r2 := TableBytes(tools, key, nonce, es) + Concat(frames, 0);
    var r1 := SizesBytes(Lengths(frames), 0) + r2;
    FileIs(tools, key, nonce, h, es, frames);
    FitsIs(tools, key, nonce, bs);
    StartsAtLeast(bs, |bs|);
    FieldWidths(bs);
    var count := InWidth(Start(bs, |bs|));
    HeaderReadBack(h, r1);
    KeptFields(h);
    KeptKey(tools, h, password);
    BlocksCounted(bs);
    SizesReadBack(Lengths(frames), 0, r2);
    assert Lengths(frames)[0..] == Lengths(frames);
    TableReadIff(tools, key, nonce, es, Concat(frames, 0));
    if ReadMetadata(tools, file, password).Ok? { TableOf(tools, file, password, Kept(h), key, r1, Lengths(frames), r2); }
  }

  lemma FitsIs(tools: Tools, key: Option<Bytes>, nonce: Bytes, bs: seq<seq<Piece>>)
    ensures |Entries(bs, |bs|)| == Start(bs, |bs|)
    ensures FitsFormat(tools, key, nonce, bs) <==> Start(bs, |bs|) < TWO_TO_32 && |TableBlob(tools, key, nonce, Entries(bs, |bs|))| < TWO_TO_32
  {
    hide TableBlob, Start;
  }

  lemma FileIs(tools: Tools, key: Option<Bytes>, nonce: Bytes, h: Header, es: seq<ChunkEntry>, frames: seq<Bytes>)
    requires h.Valid()
    ensures FileBytes(tools, key, nonce, h, es, frames) ==
            Serialized(h) + (SizesBytes(Lengths(frames), 0) + (TableBytes(tools, key, nonce, es) + Concat(frames, 0)))
  {
    hide Serialized, SizesBytes, TableBytes, Concat, Header.Valid;
  }

  // The table of a file is what follows its block table.
  lemma TableOf(tools: Tools, r: Bytes, password: Bytes, h: Header, key: Option<Bytes>, r1: Bytes, sizes: seq<u32>, r2: Bytes)
    requires ReadHeader(r) == Ok((h, r1)) && KeyFor(tools, h, password) == Ok(key) && ReadMetadata(tools, r, password).Ok?
    requires h.version >= 2 && h.compressedTable && h.chunkCount != 0
    requires ReadSizes(r1, NumBlocks(h.chunkCount, h.originalSize)) == Ok((sizes, r2))
    ensures var m := ReadMetadata(tools, r, password).value; ReadTable(tools, key, h.chunkCount, r2) == Ok((m.entries, m.pool))
  {
    var table := ReadTable(tools, key, h.chunkCount, r2);
    hide ReadHeader, KeyFor, ReadSizes, ReadTable, ReadPlainTable, NumBlocks;
    assert table.Ok?;
    assert table == Ok((table.value.0, table.value.1));
  }

  lemma BlobSize(tools: Tools, key: Option<Bytes>, nonce: Bytes, es: seq<ChunkEntry>)
    requires tools.Valid()
    ensures |TableBlob(tools, key, nonce, es)| <= |Encoded(es)| + |Encoded(es)| / 8 + 540
  {
    hide Encoded;
  }

  lemma FrameCount(tools: Tools, key: Option<Bytes>, nonces: nat -> Bytes, dict: Bytes, bs: seq<seq<Piece>>, frames: seq<Bytes>)
    requires FramesWritten(tools, key, nonces, dict, bs, frames)
    ensures |frames| == |bs|
  {
  }

  lemma FileLaidOut(tools: Tools, password: Bytes, h: Header, nonce: Bytes, bs: seq<seq<Piece>>, frames: seq<Bytes>)
    requires h.Valid() && 5 <= h.version <= 8 && h.compressedTable && KeyFor(tools, h, password).Ok?
    requires WellFormed(bs) && bs != [] && |frames| == |bs| && Original(bs, |bs|) < TWO_TO_63
    requires h.chunkCount == Start(bs, |bs|) && h.originalSize == Original(bs, |bs|) && NoWrap(Entries(bs, |bs|), 0, 0)
    requires forall k :: 0 <= k < |frames| ==> |frames[k]| < TWO_TO_32
    requires FitsFormat(tools, KeyFor(tools, h, password).value, nonce, bs)
    ensures IsFile(tools, password, FileBytes(tools, KeyFor(tools, h, password).value, nonce, h, Entries(bs, |bs|), frames), h, bs, frames)
  {
    hide Header.Valid, KeyFor, WellFormed, Original, Start, NoWrap, Entries, TableBlob, FileBytes;
  }

  lemma ArchiveHolds(tools: Tools, brain: Option<Codebook>, password: Bytes, bytes: Bytes, input: Bytes, h: Header,
                     bs: seq<seq<Piece>>, frames: seq<Bytes>)
    requires tools.Valid() && IsFile(tools, password, bytes, h, bs, frames) && SoundBlocks(brain, bs) && |frames| == |bs|
    requires !h.isPassthrough && !h.isLossy && (h.usesBrainDict ==> brain.Some?) && KeyFor(tools, h, password).Ok?
    requires FileData(brain, bs, |bs|) == input && h.originalHash == tools.sha256(input) && RegularBlocks(bs)
    requires var key, dict := KeyFor(tools, h, password).value, if h.usesBrainDict then brain.value.dictionary else [];
             forall k :: 0 <= k < |bs| ==> OpenFrame(tools, key, dict, frames[k]) == Ok(Pool(bs[k], |bs[k]|))
    ensures Archive(tools, brain, password, bytes, input, h, bs, frames)
  {
    hide Tools.Valid, IsFile, SoundBlocks, KeyFor, FileData, OpenFrame, Pool, Entries, TrueStarts, RegularBlocks;
    var job := JobHere(tools, brain, password, true, h, bs, frames);
    forall k | 0 <= k < |bs|
      ensures FrameOpens(job, bs[k], frames[k], k in {})
    {
    }
  }
}
