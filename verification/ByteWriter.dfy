// The in-memory writer (pkg/cromlib/pack_bytes.go).
module ByteWriter {
  import opened Common
  import opened Tooling
  import opened Headers
  import opened Chunks
  import opened ChunkTable
  import opened Codebooks
  import opened Blocks
  import opened Container
  import opened Packing
  import opened Writing
  import Coding
  import XorDelta

  // What the entropy and similarity comparisons and the nearest-codeword search
  // came out as for one chunk; no search result means the search failed.
  datatype Evidence = Evidence(highEntropy: bool, best: Option<nat>, lowSimilarity: bool)

  ghost predicate Possible(cb: Codebook, ev: (nat, nat) -> Evidence) {
    forall k, j :: ev(k, j).best.Some? ==> ev(k, j).best.value < |cb.words|
  }

  function Coded(cb: Codebook, index: Coding.ExactIndex, sum64: Bytes -> u64, chunk: Bytes, ev: Evidence): Piece
    requires cb.Valid() && |chunk| < TWO_TO_32 && (ev.best.Some? ==> ev.best.value < |cb.words|)
  {
    var exact := Coding.FindExact(cb, index, sum64, chunk);
    if exact.Some? then Coding.Reference(exact.value, 0, chunk, [])
    else if cb.size >= Coding.ALIGNED_MIN_CODEWORD_SIZE || ev.highEntropy || ev.best.None? then
      Coding.Literal(chunk, LITERAL_INDEX)
    else
      var id := ev.best.value;
      var usable := Coding.Truncated(cb.words[id], |chunk|);
      if chunk == usable then Coding.Reference(id, 0, chunk, [])
      else if ev.lowSimilarity then Coding.Literal(chunk, 0)
      else Coding.Reference(id, 0, chunk, XorDelta.Xored(chunk, usable))
  }

  lemma CodedFaithful(cb: Codebook, index: Coding.ExactIndex, sum64: Bytes -> u64, chunk: Bytes, ev: Evidence)
    requires cb.Valid() && 0 < |chunk| < TWO_TO_32 && (ev.best.Some? ==> ev.best.value < |cb.words|)
    ensures Coding.Faithful(Some(cb), chunk, Coded(cb, index, sum64, chunk, ev))
  {
    hide Coding.Faithful, XorDelta.Xored, Coding.FindExact;
    var exact := Coding.FindExact(cb, index, sum64, chunk);
    if exact.Some? {
      Coding.ExactFaithful(cb, exact.value, 0, chunk);
    } else {
      Coding.LiteralFaithful(Some(cb), chunk, LITERAL_INDEX);
      Coding.LiteralFaithful(Some(cb), chunk, 0);
      if ev.best.Some? {
        if chunk == Coding.Truncated(cb.words[ev.best.value], |chunk|) { Coding.ExactFaithful(cb, ev.best.value, 0, chunk); }
        Coding.XorFaithful(cb, ev.best.value, 0, chunk);
      }
    }
  }

  // A chunk found among the codewords is stored as its ID alone; one not worth a
  // search, or not similar to the nearest codeword, as a literal; one equal to it
  // as its ID; any other one as a residual of its own length against it.
  lemma CodedIs(cb: Codebook, index: Coding.ExactIndex, sum64: Bytes -> u64, chunk: Bytes, ev: Evidence)
    requires cb.Valid() && 0 < |chunk| < TWO_TO_32 && (ev.best.Some? ==> ev.best.value < |cb.words|)
    ensures var p, exact := Coded(cb, index, sum64, chunk, ev), Coding.FindExact(cb, index, sum64, chunk);
            if exact.Some? then p == Piece(exact.value, 0, |chunk|, [])
            else if cb.size >= 1024 || ev.highEntropy || ev.best.None? then p == Piece(LITERAL_ID, 255, |chunk|, chunk)
            else
              var word := cb.words[ev.best.value];
              if chunk == (if |word| > |chunk| then word[..|chunk|] else word) then p == Piece(ev.best.value, 0, |chunk|, [])
              else if ev.lowSimilarity then p == Piece(LITERAL_ID, 0, |chunk|, chunk)
              else p.id == ev.best.value && p.index == 0 && p.size == |p.residual| == |chunk| && Coding.Faithful(Some(cb), chunk, p)
  {
    CodedFaithful(cb, index, sum64, chunk, ev);
    hide Coding.Faithful, XorDelta.Xored, Coding.FindExact;
  }

  // Piece j of block k is the one the decisions call for.
  ghost predicate CodedAs(cb: Codebook, index: Coding.ExactIndex, sum64: Bytes -> u64, chunks: seq<Chunk>, k: nat,
                          ev: (nat, nat) -> Evidence, ps: seq<Piece>)
    requires cb.Valid() && Possible(cb, ev)
  {
    && |ps| == |chunks| && forall j :: 0 <= j < |ps| ==>
         0 < |chunks[j].data| < TWO_TO_32 && ps[j] == Coded(cb, index, sum64, chunks[j].data, ev(k, j))
  }

  lemma CodedAsFaithful(cb: Codebook, index: Coding.ExactIndex, sum64: Bytes -> u64, chunks: seq<Chunk>, k: nat,
                        ev: (nat, nat) -> Evidence, ps: seq<Piece>)
    requires cb.Valid() && Possible(cb, ev) && CodedAs(cb, index, sum64, chunks, k, ev, ps)
    ensures CodedBlock(Some(cb), chunks, ps)
  {
    forall j | 0 <= j < |ps|
      ensures Coding.Faithful(Some(cb), chunks[j].data, ps[j])
    {
      CodedFaithful(cb, index, sum64, chunks[j].data, ev(k, j));
    }
  }

  lemma ChunkSizes(split: Splitter, data: Bytes, j: nat)
    requires Covering(split) && |data| <= BLOCK_SIZE && j < |split(data)|
    ensures 0 < |split(data)[j].data| < TWO_TO_32
  {
    assert Covers(split(data), data, 0);
    CoversAt(split(data), data, 0, j);
  }

  method PackBlock(cb: Codebook, index: Coding.ExactIndex, sum64: Bytes -> u64, split: Splitter, data: Bytes, k: nat,
                   ev: (nat, nat) -> Evidence, before: seq<ChunkEntry>, offset0: u64, ghost base: nat)
    returns (entries: seq<ChunkEntry>, pool: Bytes, offset: u64, ghost ps: seq<Piece>)
    requires cb.Valid() && Possible(cb, ev) && Covering(split) && |data| <= BLOCK_SIZE && offset0 == base % TWO_TO_64
    ensures Gathered(before, ps, base, entries, pool, offset) && CodedAs(cb, index, sum64, split(data), k, ev, ps)
  {
    hide Coded, Gathered, Covering;
    var chunks := split(data);
    entries, pool, offset, ps := before, [], offset0, [];
    GatherStart(before, base);
    for j := 0 to |chunks|
      invariant Gathered(before, ps, base, entries, pool, offset)
      invariant |ps| == j && forall i :: 0 <= i < j ==>
                  0 < |chunks[i].data| < TWO_TO_32 && ps[i] == Coded(cb, index, sum64, chunks[i].data, ev(k, i))
    {
      ChunkSizes(split, data, j);
      var p := Coded(cb, index, sum64, chunks[j].data, ev(k, j));
      GatherStep(before, ps, base, entries, pool, offset, p);
      entries := entries + [EntryFor(p, offset)];
      pool := pool + p.residual;
      offset := Add64(offset, |p.residual|);
      ps := ps + [p];
    }
  }

  function HeaderFor(tools: Tools, cb: Codebook, buildHash: Bytes, input: Bytes, count: nat): Header
    requires |buildHash| >= 8 && |input| < TWO_TO_64 && cb.size < 0x1_0000
  {
    Header(5, false, false, false, false, true, true, Zeros(16), tools.sha256(input), |input|, count % TWO_TO_32,
           cb.size, buildHash[..8], Zeros(24), Zeros(32), 0, [])
  }

  // Block k of the file: its pieces and its frame.
  ghost predicate BlockPacked(tools: Tools, cb: Codebook, index: Coding.ExactIndex, split: Splitter, ev: (nat, nat) -> Evidence,
                              input: Bytes, k: nat, ps: seq<Piece>, frame: Bytes)
    requires cb.Valid() && Possible(cb, ev)
  {
    && CodedAs(cb, index, tools.sum64, split(BlockOf(input, k)), k, ev, ps)
    && frame == Frame(tools, None, [], cb.dictionary, Pool(ps, |ps|))
  }

  // How a block of the input is packed.
  ghost function InMemory(tools: Tools, cb: Codebook, index: Coding.ExactIndex, split: Splitter, ev: (nat, nat) -> Evidence,
                          input: Bytes): (nat, seq<Piece>, Bytes) -> bool
    requires cb.Valid() && Possible(cb, ev)
  {
    (k: nat, ps: seq<Piece>, frame: Bytes) => BlockPacked(tools, cb, index, split, ev, input, k, ps, frame)
  }

  lemma HereIs(tools: Tools, cb: Codebook, index: Coding.ExactIndex, split: Splitter, ev: (nat, nat) -> Evidence,
               input: Bytes, k: nat, ps: seq<Piece>, frame: Bytes)
    requires cb.Valid() && Possible(cb, ev)
    ensures InMemory(tools, cb, index, split, ev, input)(k, ps, frame) <==>
              && CodedAs(cb, index, tools.sum64, split(BlockOf(input, k)), k, ev, ps)
              && frame == Frame(tools, None, [], cb.dictionary, Pool(ps, |ps|))
    ensures Frame(tools, None, [], cb.dictionary, Pool(ps, |ps|)) == tools.CompressPool(Pool(ps, |ps|), cb.dictionary)
  {
    hide Codebook.Valid, Possible, CodedAs, Pool;
  }

  // The block loop.
  method PackBlocks(tools: Tools, cb: Codebook, index: Coding.ExactIndex, split: Splitter, ev: (nat, nat) -> Evidence, input: Bytes)
    returns (entries: seq<ChunkEntry>, blocks: seq<Bytes>, ghost bs: seq<seq<Piece>>)
    requires cb.Valid() && Possible(cb, ev) && Covering(split)
    ensures |bs| == BlockCount(|input|) && entries == Entries(bs, |bs|)
    ensures EachPacked(InMemory(tools, cb, index, split, ev, input), bs, blocks)
  {
    hide *;
    var offset: u64, k := 0, 0;
    entries, blocks, bs := [], [], [];
    LayStart();
    NothingPacked(InMemory(tools, cb, index, split, ev, input));
    CountBlocks(|input|, 0);
    while k * BLOCK_SIZE < |input|
      invariant |bs| == k && (k == 0 || k - 1 < BlockCount(|input|)) && Laid(bs, entries, offset)
      invariant EachPacked(InMemory(tools, cb, index, split, ev, input), bs, blocks)
      decreases |input| - k * BLOCK_SIZE
    {
      CountBlocks(|input|, k);
      Advances(k);
      entries, offset, blocks, bs := PackNext(tools, cb, index, split, ev, input, entries, offset, blocks, bs, k);
      k := k + 1;
    }
    LaidParts(bs, entries, offset);
    AllCounted(|input|, k);
  }

  // One turn of the block loop.
  method PackNext(tools: Tools, cb: Codebook, index: Coding.ExactIndex, split: Splitter, ev: (nat, nat) -> Evidence, input: Bytes,
                  before: seq<ChunkEntry>, offset0: u64, blocks0: seq<Bytes>, ghost bs0: seq<seq<Piece>>, k: nat)
    returns (entries: seq<ChunkEntry>, offset: u64, blocks: seq<Bytes>, ghost bs: seq<seq<Piece>>)
    requires cb.Valid() && Possible(cb, ev) && Covering(split) && |bs0| == k < BlockCount(|input|)
    requires Laid(bs0, before, offset0) && EachPacked(InMemory(tools, cb, index, split, ev, input), bs0, blocks0)
    ensures |bs| == k + 1 && Laid(bs, entries, offset) && EachPacked(InMemory(tools, cb, index, split, ev, input), bs, blocks)
  {
    hide *;
    BlockBounds(input, k);
    LaidParts(bs0, before, offset0);
    var pool; ghost var ps;
    entries, pool, offset, ps := PackBlock(cb, index, tools.sum64, split, BlockOf(input, k), k, ev, before, offset0, Base(bs0, |bs0|));
    LayStep(bs0, ps, before, offset0, entries, pool, offset);
    var frame := tools.CompressPool(pool, cb.dictionary);
    HereIs(tools, cb, index, split, ev, input, k, ps, frame);
    OneMorePacked(InMemory(tools, cb, index, split, ev, input), bs0, blocks0, ps, frame);
    blocks, bs := blocks0 + [frame], bs0 + [ps];
  }

  // Packs the input: every chunk coded as its decisions say, every frame and the
  // table as the format lays them out. If the counts fit the format's fields, the
  // result is an archive of the input.
  method PackBytes(tools: Tools, cb: Codebook, index: Coding.ExactIndex, split: Splitter, buildHash: Bytes,
                   ev: (nat, nat) -> Evidence, input: Bytes)
    returns (r: Result<Bytes>, ghost h: Header, ghost bs: seq<seq<Piece>>, ghost frames: seq<Bytes>)
    requires tools.Valid() && cb.Valid() && Possible(cb, ev) && Covering(split) && |buildHash| == 32 && |input| < TWO_TO_63
    ensures input == [] ==> r == Err(EmptyInput)
    ensures input != [] ==>
              && |bs| == BlockCount(|input|) && EachPacked(InMemory(tools, cb, index, split, ev, input), bs, frames)
              && h == HeaderFor(tools, cb, buildHash, input, Start(bs, |bs|)) && h.Valid()
              && r == Ok(FileBytes(tools, None, [], h, Entries(bs, |bs|), frames))
              && (FitsFormat(tools, None, [], bs) ==> Archive(tools, Some(cb), [], r.value, input, h, bs, frames))
  {
    CodebookSize(cb);
    hide *;
    HeaderValid(tools, cb, buildHash, input, 0);
    bs, frames, h := [], [], HeaderFor(tools, cb, buildHash, input, 0);
    if |input| == 0 {
      return Err(EmptyInput), h, bs, frames;
    }
    var entries, blocks; ghost var pieces;
    entries, blocks, pieces := PackBlocks(tools, cb, index, split, ev, input);
    bs, frames := pieces, blocks;
    var header := HeaderFor(tools, cb, buildHash, input, |entries|);
    h := header;
    HeaderValid(tools, cb, buildHash, input, |entries|);
    r := Ok(FileBytes(tools, None, [], header, entries, blocks));
    if FitsFormat(tools, None, [], bs) {
      PackedArchive(tools, cb, index, split, buildHash, ev, input, bs, frames);
    }
  }

  lemma CodebookSize(cb: Codebook)
    requires cb.Valid()
    ensures 0 < cb.size < 0x1_0000
  {
  }

  // What the header says, field by field.
  lemma HeaderSays(tools: Tools, cb: Codebook, buildHash: Bytes, input: Bytes, count: nat)
    requires |buildHash| >= 8 && |input| < TWO_TO_64 && cb.size < 0x1_0000
    ensures var h := HeaderFor(tools, cb, buildHash, input, count);
            && h.version == 5 && !h.isEncrypted && !h.isPassthrough && !h.isLossy && !h.isConvergent && h.compressedTable && h.usesBrainDict
            && h.originalHash == tools.sha256(input) && h.originalSize == |input| && h.chunkCount == count % TWO_TO_32
            && h.chunkSize == cb.size && h.codebookHash == buildHash[..8] && h.microDict == []
  {
  }

  lemma HeaderValid(tools: Tools, cb: Codebook, buildHash: Bytes, input: Bytes, count: nat)
    requires tools.Valid() && |buildHash| == 32 && |input| < TWO_TO_63 && cb.Valid()
    ensures var h := HeaderFor(tools, cb, buildHash, input, count);
            && h.Valid() && h.version == 5 && h.compressedTable && !h.isPassthrough && !h.isLossy && h.usesBrainDict
            && h.originalSize == |input| && h.originalHash == tools.sha256(input) && KeyFor(tools, h, []) == Ok(None)
            && (count < TWO_TO_32 ==> h.chunkCount == count)
  {
  }

  lemma PackedArchive(tools: Tools, cb: Codebook, index: Coding.ExactIndex, split: Splitter, buildHash: Bytes,
                      ev: (nat, nat) -> Evidence, input: Bytes, bs: seq<seq<Piece>>, frames: seq<Bytes>)
    requires tools.Valid() && cb.Valid() && Possible(cb, ev) && Covering(split) && |buildHash| == 32 && 0 < |input| < TWO_TO_63
    requires |bs| == BlockCount(|input|) && FitsFormat(tools, None, [], bs)
    requires EachPacked(InMemory(tools, cb, index, split, ev, input), bs, frames)
    ensures var h := HeaderFor(tools, cb, buildHash, input, Start(bs, |bs|));
            h.Valid() && Archive(tools, Some(cb), [], FileBytes(tools, None, [], h, Entries(bs, |bs|), frames), input, h, bs, frames)
  {
    var h := HeaderFor(tools, cb, buildHash, input, Start(bs, |bs|));
    HeaderValid(tools, cb, buildHash, input, Start(bs, |bs|));
    forall k | 0 <= k < |bs|
      ensures CodedBlock(Some(cb), split(BlockOf(input, k)), bs[k])
    {
      HereIs(tools, cb, index, split, ev, input, k, bs[k], frames[k]);
      CodedAsFaithful(cb, index, tools.sum64, split(BlockOf(input, k)), k, ev, bs[k]);
    }
    FitsWidth(tools, None, [], bs);
    hide HeaderFor, Tools.Valid, Codebook.Valid, Possible, Covering, CodedBlock, CodedAs, FitsFormat, KeyFor, Archive, FileBytes, Frame;
    LaidOut(tools, Some(cb), split, [], input, h, [], _ => [], bs, frames);
  }
}
