// Where chunks and frames lie in a well-formed file.
module Geometry {
  import opened Common
  import opened Headers
  import opened ChunkTable
  import opened Codebooks
  import opened Blocks
  import opened Container
  import opened Restoring
  import opened Tooling
  import opened Modular

  // Original bytes of the first n entries: the prefix sums of the reader.
  ghost function EndOf(es: seq<ChunkEntry>, n: nat): nat
    requires n <= |es|
  {
    if n == 0 then 0 else EndOf(es, n - 1) + es[n - 1].size
  }

  lemma {:induction false} EndAt(bs: seq<seq<Piece>>, k: nat, j: nat)
    requires k < |bs| && j <= |bs[k]|
    ensures Start(bs, k) + j <= |Entries(bs, |bs|)|
    ensures EndOf(Entries(bs, |bs|), Start(bs, k) + j) == Original(bs, k) + Size(bs[k], j)
    decreases k, j
  {
    StartMonotone(bs, k + 1, |bs|);
    StartNext(bs, k);
    if j > 0 {
      EndAt(bs, k, j - 1);
      EntryAt(bs, k, j - 1, |bs|);
      hide Start, Entries, Original;
    } else if k > 0 {
      EndAt(bs, k - 1, |bs[k - 1]|);
      StartNext(bs, k - 1);
      hide Start, Entries, Original;
    }
  }

  lemma {:induction false} DataAt(brain: Option<Codebook>, ps: seq<Piece>, j: nat, n: nat)
    requires j < n <= |ps| && SoundBlock(brain, ps)
    ensures Size(ps, j) <= Size(ps, j + 1) <= |Data(brain, ps, n)|
    ensures Data(brain, ps, n)[Size(ps, j)..Size(ps, j + 1)] == ChunkData(brain, ps[j])
  {
    DataLength(brain, ps, n - 1);
    DataLength(brain, ps, n);
    SizeStep(ps, j);
    if j < n - 1 {
      DataAt(brain, ps, j, n - 1);
      InPrefix(Data(brain, ps, n - 1), ChunkData(brain, ps[n - 1]), Size(ps, j), Size(ps, j + 1));
    } else {
      InSuffix(Data(brain, ps, n - 1), ChunkData(brain, ps[n - 1]), Size(ps, j), Size(ps, j + 1));
    }
  }

  lemma SizeStep(ps: seq<Piece>, j: nat)
    requires j < |ps|
    ensures Size(ps, j + 1) == Size(ps, j) + ps[j].size
  {
  }

  lemma {:induction false} BlockInFile(brain: Option<Codebook>, bs: seq<seq<Piece>>, k: nat, n: nat)
    requires k < n <= |bs| && SoundBlocks(brain, bs)
    ensures Original(bs, k) <= Original(bs, k + 1) <= |FileData(brain, bs, n)|
    ensures FileData(brain, bs, n)[Original(bs, k)..Original(bs, k + 1)] == Data(brain, bs[k], |bs[k]|)
  {
    hide *;
    ExpectedLength(brain, bs, {}, n - 1);
    ExpectedLength(brain, bs, {}, n);
    StartMonotone(bs, k, k + 1);
    StartMonotone(bs, k + 1, n);
    FileDataStep(brain, bs, n);
    if k < n - 1 {
      BlockInFile(brain, bs, k, n - 1);
      InPrefix(FileData(brain, bs, n - 1), Data(brain, bs[n - 1], |bs[n - 1]|), Original(bs, k), Original(bs, k + 1));
    } else {
      InSuffix(FileData(brain, bs, n - 1), Data(brain, bs[n - 1], |bs[n - 1]|), Original(bs, k), Original(bs, k + 1));
    }
  }

  lemma FileDataStep(brain: Option<Codebook>, bs: seq<seq<Piece>>, n: nat)
    requires 0 < n <= |bs|
    ensures FileData(brain, bs, n) == FileData(brain, bs, n - 1) + Data(brain, bs[n - 1], |bs[n - 1]|)
  {
  }

  // Chunk j of block k in the original, between two neighbouring prefix sums.
  lemma ChunkInFile(brain: Option<Codebook>, bs: seq<seq<Piece>>, k: nat, j: nat)
    requires SoundBlocks(brain, bs) && k < |bs| && j < |bs[k]|
    ensures var es, i := Entries(bs, |bs|), Start(bs, k) + j;
            && i < |es| && EndOf(es, i) <= EndOf(es, i + 1) <= |FileData(brain, bs, |bs|)|
            && es[i].size == bs[k][j].size == |ChunkData(brain, bs[k][j])| && EndOf(es, i + 1) == EndOf(es, i) + es[i].size
            && FileData(brain, bs, |bs|)[EndOf(es, i)..EndOf(es, i + 1)] == ChunkData(brain, bs[k][j])
  {
    hide *;
    SoundAt(brain, bs, k);
    SoundPiece(brain, bs[k], j);
    SoundSize(brain, bs[k][j]);
    EndAt(bs, k, j);
    EndAt(bs, k, j + 1);
    EntryAt(bs, k, j, |bs|);
    EntryKeepsSize(bs[k][j], Base(bs, k) + PoolSize(bs[k], j));
    DataAt(brain, bs[k], j, |bs[k]|);
    BlockInFile(brain, bs, k, |bs|);
    StartNext(bs, k);
    SizeStep(bs[k], j);
    SubSlice(FileData(brain, bs, |bs|), Original(bs, k), Original(bs, k + 1), Size(bs[k], j), Size(bs[k], j + 1));
  }

  lemma SoundAt(brain: Option<Codebook>, bs: seq<seq<Piece>>, k: nat)
    requires SoundBlocks(brain, bs) && k < |bs|
    ensures SoundBlock(brain, bs[k])
  {
  }

  lemma SoundSize(brain: Option<Codebook>, p: Piece)
    requires Sound(brain, p)
    ensures |ChunkData(brain, p)| == p.size
  {
  }

  lemma SubSlice(a: Bytes, from: nat, to: nat, i: nat, j: nat)
    requires from <= to <= |a| && i <= j <= to - from
    ensures a[from..to][i..j] == a[from + i..from + j]
  {
    SameElements(a[from..to][i..j], a[from + i..from + j]);
  }

  // ----- frames --------------------------------------------------------------------------

  // Bytes of the first n frames.
  ghost function FrameSum(sizes: seq<u32>, n: nat): nat
    requires n <= |sizes|
  {
    if n == 0 then 0 else FrameSum(sizes, n - 1) + sizes[n - 1]
  }

  lemma {:induction false} FramesFrom(frames: seq<Bytes>, n: nat)
    requires n <= |frames| && forall k :: 0 <= k < |frames| ==> |frames[k]| < TWO_TO_32
    ensures FrameSum(Lengths(frames), n) <= |Concat(frames, 0)|
    ensures Concat(frames, 0)[FrameSum(Lengths(frames), n)..] == Concat(frames, n)
  {
    if n > 0 {
      FramesFrom(frames, n - 1);
      var all, at := Concat(frames, 0), FrameSum(Lengths(frames), n - 1);
      var size := |frames[n - 1]|;
      assert Lengths(frames)[n - 1] == size;
      assert Concat(frames, n - 1) == frames[n - 1] + Concat(frames, n);
      assert all[at..][size..] == all[at + size..];
    }
  }

  lemma {:induction false} SizesLength(sizes: seq<u32>, i: nat)
    requires i <= |sizes|
    ensures |SizesBytes(sizes, i)| == 4 * (|sizes| - i)
    decreases |sizes| - i
  {
    if i < |sizes| { SizesLength(sizes, i + 1); }
  }

  // The size of everything before the first frame.
  lemma PoolStart(h: Header, bytes: Bytes, frames: seq<Bytes>)
    requires h.Valid() && 2 <= h.version <= 8
    ensures HeaderSize(Kept(h).version) + Kept(h).microDictSize + 4 * |frames| + TableSpace(bytes, h, frames) ==
            |bytes| - |Concat(frames, 0)|
  {
    HeaderRoundTrip(h);
    SizesLength(Lengths(frames), 0);
    hide Serialized, Concat, SizesBytes, ParseHeader;
  }

  // Where the first frame starts, from the metadata alone.
  function DataOffset(m: Metadata): nat {
    var table := if m.header.chunkCount == 0 then 0
                 else if m.tableBytes > 0 then m.tableBytes
                 else m.header.chunkCount * EntrySize(m.header.version) + if m.header.isEncrypted then 28 else 0;
    HeaderSize(m.header.version) + (if m.header.version >= 8 then m.header.microDictSize else 0) + 4 * |m.sizes| + table
  }

  lemma PoolFound(tools: Tools, password: Bytes, bytes: Bytes, h: Header, bs: seq<seq<Piece>>, frames: seq<Bytes>)
    requires tools.Valid() && IsFile(tools, password, bytes, h, bs, frames)
    ensures var m := Metadata(Kept(h), KeyFor(tools, h, password).value, Lengths(frames), Entries(bs, |bs|), TableSpace(bytes, h, frames), Concat(frames, 0));
            && ReadMetadata(tools, bytes, password) == Ok(m)
            && DataOffset(m) <= |bytes| && bytes[DataOffset(m)..] == Concat(frames, 0)
  {
    hide *;
    var nonce := FileParts(tools, password, bytes, h, bs, frames);
    var key, es := KeyFor(tools, h, password).value, Entries(bs, |bs|);
    FileReadBack(tools, password, bytes, h, bs, frames);
    PoolStart(h, bytes, frames);
    KeptFields(h);
    SpaceIs(h, frames, TableBytes(tools, key, nonce, es));
    TableTakesRoom(tools, key, nonce, es);
    var m := Metadata(Kept(h), key, Lengths(frames), es, TableSpace(bytes, h, frames), Concat(frames, 0));
    OffsetInParts(m, h);
    LastPart(Serialized(h), SizesBytes(Lengths(frames), 0), TableBytes(tools, key, nonce, es), Concat(frames, 0));
  }

  lemma OffsetInParts(m: Metadata, h: Header)
    requires m.header == Kept(h) && h.Valid() && 2 <= h.version <= 8 && m.header.chunkCount > 0 && m.tableBytes > 0
    ensures DataOffset(m) == HeaderSize(Kept(h).version) + Kept(h).microDictSize + 4 * |m.sizes| + m.tableBytes
  {
  }

  lemma TableTakesRoom(tools: Tools, key: Option<Bytes>, nonce: Bytes, es: seq<ChunkEntry>)
    ensures |TableBytes(tools, key, nonce, es)| >= 4
  {
    hide TableBlob;
  }

  lemma LastPart(a: Bytes, b: Bytes, c: Bytes, d: Bytes)
    ensures var all := a + (b + (c + d)); all[|all| - |d|..] == d
  {
  }

  // ----- what the constructor precomputes -------------------------------------------------

  // blockOffsets: the absolute offset of each frame.
  ghost predicate FrameOffsets(offsets: seq<nat>, base: nat, sizes: seq<u32>) {
    |offsets| == |sizes| && forall b :: 0 <= b < |offsets| ==> offsets[b] == base + FrameSum(sizes, b)
  }

  // chunkEnds: where each chunk ends in the original.
  ghost predicate ChunkEnds(ends: seq<u64>, es: seq<ChunkEntry>) {
    |ends| == |es| && forall i :: 0 <= i < |ends| ==> ends[i] == EndOf(es, i + 1) % TWO_TO_64
  }

  method ComputeOffsets(base: nat, sizes: seq<u32>) returns (offsets: seq<nat>)
    ensures FrameOffsets(offsets, base, sizes)
  {
    offsets := [];
    var current: nat := base;
    for b := 0 to |sizes|
      invariant |offsets| == b && current == base + FrameSum(sizes, b)
      invariant forall k :: 0 <= k < b ==> offsets[k] == base + FrameSum(sizes, k)
    {
      offsets := offsets + [current];
      current := current + sizes[b];
    }
  }

  method ComputeEnds(es: seq<ChunkEntry>) returns (ends: seq<u64>)
    ensures ChunkEnds(ends, es)
  {
    ends := [];
    var end: u64 := 0;
    for i := 0 to |es|
      invariant |ends| == i && end == EndOf(es, i) % TWO_TO_64
      invariant forall k :: 0 <= k < i ==> ends[k] == EndOf(es, k + 1) % TWO_TO_64
    {
      ModAdd(EndOf(es, i), es[i].size, TWO_TO_64);
      end := Add64(end, es[i].size);
      ends := ends + [end];
    }
  }

  // ReaderAt: what lies past the end of the file is left zero in the buffer.
  function ReadPadded(file: Bytes, at: nat, n: nat): (buf: Bytes)
    ensures |buf| == n
  {
    seq(n, i requires 0 <= i < n => if at + i < |file| then file[at + i] else 0)
  }

  // Each block offset is where the sequential reader would start the block, and
  // the frame is there.
  lemma FrameThere(file: Bytes, base: nat, offsets: seq<nat>, frames: seq<Bytes>, b: nat)
    requires base <= |file| && file[base..] == Concat(frames, 0) && FrameOffsets(offsets, base, Lengths(frames))
    requires b < |frames| && forall k :: 0 <= k < |frames| ==> |frames[k]| < TWO_TO_32
    ensures |offsets| == |frames| && offsets[b] <= |file| && file[offsets[b]..] == Concat(frames, b)
    ensures Lengths(frames)[b] == |frames[b]| && ReadPadded(file, offsets[b], |frames[b]|) == frames[b]
  {
    hide *;
    OffsetAt(base, offsets, Lengths(frames), b);
    LengthsAt(frames, b);
    FramesFrom(frames, b);
    ConcatStep(frames, b);
    Beyond(file, base, FrameSum(Lengths(frames), b));
    PaddedIs(file, offsets[b], frames[b], Concat(frames, b + 1));
  }

  lemma OffsetAt(base: nat, offsets: seq<nat>, sizes: seq<u32>, b: nat)
    requires FrameOffsets(offsets, base, sizes) && b < |sizes|
    ensures |offsets| == |sizes| && offsets[b] == base + FrameSum(sizes, b)
  {
  }

  lemma LengthsAt(frames: seq<Bytes>, b: nat)
    requires b < |frames| && |frames[b]| < TWO_TO_32
    ensures Lengths(frames)[b] == |frames[b]|
  {
  }

  lemma ConcatStep(frames: seq<Bytes>, b: nat)
    requires b < |frames|
    ensures Concat(frames, b) == frames[b] + Concat(frames, b + 1)
  {
  }

  lemma Beyond(file: Bytes, base: nat, n: nat)
    requires base <= |file| && n <= |file[base..]|
    ensures file[base..][n..] == file[base + n..]
  {
  }

  lemma PaddedIs(file: Bytes, at: nat, frame: Bytes, rest: Bytes)
    requires at <= |file| && file[at..] == frame + rest
    ensures ReadPadded(file, at, |frame|) == frame
  {
    forall i | 0 <= i < |frame|
      ensures ReadPadded(file, at, |frame|)[i] == frame[i]
    {
      assert file[at..][i] == file[at + i] && (frame + rest)[i] == frame[i];
    }
    SameElements(ReadPadded(file, at, |frame|), frame);
  }

  // Search on chunkEnds finds the chunk that holds an offset of the original.
  lemma ChunkHolds(es: seq<ChunkEntry>, ends: seq<u64>, off: nat, i: nat)
    requires ChunkEnds(ends, es) && off < EndOf(es, |es|) < TWO_TO_64
    requires i <= |ends| && (i == |ends| || ends[i] > off) && (i == 0 || ends[i - 1] <= off)
    ensures i < |es| && EndOf(es, i) <= off < EndOf(es, i + 1) && ends[i] == EndOf(es, i + 1) == EndOf(es, i) + es[i].size
  {
    EndMonotone(es, i, |es|);
    if i < |es| { EndMonotone(es, i + 1, |es|); }
  }

  lemma {:induction false} EndMonotone(es: seq<ChunkEntry>, i: nat, n: nat)
    requires i <= n <= |es|
    ensures EndOf(es, i) <= EndOf(es, n)
  {
    if i < n { EndMonotone(es, i, n - 1); }
  }

  // Search on blockStarts finds the block that holds a chunk.
  lemma BlockHolds(bs: seq<seq<Piece>>, starts: seq<nat>, i: nat, j: nat)
    requires starts == TrueStarts(bs, 0) && i < Start(bs, |bs|)
    requires j <= |starts| && (j == |starts| || starts[j] >= i + 1) && (j == 0 || starts[j - 1] < i + 1)
    ensures 0 < j <= |bs| == |starts| && starts[j - 1] == Start(bs, j - 1)
    ensures Start(bs, j - 1) <= i < Start(bs, j - 1) + |bs[j - 1]|
  {
    TrueStartsLength(bs, 0);
    if j < |bs| { TrueStartAt(bs, 0, j); }
    if j > 0 { TrueStartAt(bs, 0, j - 1); StartNext(bs, j - 1); }
    StartZero(bs);
    hide TrueStarts, Start;
  }
}
