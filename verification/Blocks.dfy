// A file is packed in blocks of 16 MB of input; the chunk table does not say
// where one block ends, only how large each chunk is (pkg/format/format.go).
module Blocks {
  import opened Common
  import opened ChunkTable

  const BLOCK_SIZE: nat := 16 * 1024 * 1024

  // What the writer knows of one chunk: how it is coded, and its residual.
  datatype Piece = Piece(id: u64, index: byte, size: u32, residual: Bytes)

  // ----- one block ------------------------------------------------------------

  // Original bytes of the first n pieces.
  ghost function Size(ps: seq<Piece>, n: nat): nat
    requires n <= |ps|
  {
    if n == 0 then 0 else Size(ps, n - 1) + ps[n - 1].size
  }

  // The delta pool of the first n pieces.
  function Pool(ps: seq<Piece>, n: nat): Bytes
    requires n <= |ps|
  {
    if n == 0 then [] else Pool(ps, n - 1) + ps[n - 1].residual
  }

  ghost function PoolSize(ps: seq<Piece>, n: nat): nat
    requires n <= |ps|
  {
    if n == 0 then 0 else PoolSize(ps, n - 1) + |ps[n - 1].residual|
  }

  lemma {:induction false} PoolLength(ps: seq<Piece>, n: nat)
    requires n <= |ps|
    ensures |Pool(ps, n)| == PoolSize(ps, n)
  {
    if n > 0 { PoolLength(ps, n - 1); }
  }

  // The residual of piece j lies in the pool where the sizes say.
  lemma {:induction false} PoolSlice(ps: seq<Piece>, j: nat, n: nat)
    requires j < n <= |ps|
    ensures PoolSize(ps, j) + |ps[j].residual| <= PoolSize(ps, n) == |Pool(ps, n)|
    ensures Pool(ps, n)[PoolSize(ps, j)..PoolSize(ps, j) + |ps[j].residual|] == ps[j].residual
  {
    PoolLength(ps, n);
    PoolLength(ps, n - 1);
    if j < n - 1 {
      PoolSlice(ps, j, n - 1);
      var from, to := PoolSize(ps, j), PoolSize(ps, j) + |ps[j].residual|;
      assert Pool(ps, n)[from..to] == Pool(ps, n - 1)[from..to];
    }
  }

  // ----- the whole file ---------------------------------------------------------

  // Chunks, pool bytes and original bytes before block k.
  ghost function Start(bs: seq<seq<Piece>>, k: nat): nat
    requires k <= |bs|
  {
    if k == 0 then 0 else Start(bs, k - 1) + |bs[k - 1]|
  }

  ghost function Base(bs: seq<seq<Piece>>, k: nat): nat
    requires k <= |bs|
  {
    if k == 0 then 0 else Base(bs, k - 1) + PoolSize(bs[k - 1], |bs[k - 1]|)
  }

  ghost function Original(bs: seq<seq<Piece>>, k: nat): nat
    requires k <= |bs|
  {
    if k == 0 then 0 else Original(bs, k - 1) + Size(bs[k - 1], |bs[k - 1]|)
  }

  // The table entry of a piece whose residual starts at offset.
  function EntryOf(p: Piece, offset: nat): ChunkEntry {
    ChunkEntry(p.id, offset % TWO_TO_64, |p.residual| % TWO_TO_32, p.size, p.index)
  }

  // The running DeltaOffset: each chunk starts where the one before it ended.
  ghost function BlockEntries(ps: seq<Piece>, base: nat, n: nat): (es: seq<ChunkEntry>)
    requires n <= |ps|
    ensures |es| == n
  {
    if n == 0 then [] else BlockEntries(ps, base, n - 1) + [EntryOf(ps[n - 1], base + PoolSize(ps, n - 1))]
  }

  ghost function Entries(bs: seq<seq<Piece>>, k: nat): (es: seq<ChunkEntry>)
    requires k <= |bs|
    ensures |es| == Start(bs, k)
  {
    if k == 0 then [] else Entries(bs, k - 1) + BlockEntries(bs[k - 1], Base(bs, k - 1), |bs[k - 1]|)
  }

  lemma {:induction false} BlockEntryAt(ps: seq<Piece>, base: nat, j: nat, n: nat)
    requires j < n <= |ps|
    ensures BlockEntries(ps, base, n)[j] == EntryOf(ps[j], base + PoolSize(ps, j))
  {
    if j < n - 1 { BlockEntryAt(ps, base, j, n - 1); }
  }

  // Entry j of block k, wherever it falls in the table.
  lemma {:induction false} EntryAt(bs: seq<seq<Piece>>, k: nat, j: nat, n: nat)
    requires k < n <= |bs| && j < |bs[k]|
    ensures Start(bs, k) + j < Start(bs, k + 1) <= Start(bs, n)
    ensures Entries(bs, n)[Start(bs, k) + j] == EntryOf(bs[k][j], Base(bs, k) + PoolSize(bs[k], j))
  {
    if k == n - 1 {
      BlockEntryAt(bs[k], Base(bs, k), j, |bs[k]|);
    } else {
      EntryAt(bs, k, j, n - 1);
    }
  }

  lemma {:induction false} StartMonotone(bs: seq<seq<Piece>>, j: nat, k: nat)
    requires j <= k <= |bs|
    ensures Start(bs, j) <= Start(bs, k) && Base(bs, j) <= Base(bs, k) && Original(bs, j) <= Original(bs, k)
  {
    if j < k { StartMonotone(bs, j, k - 1); }
  }

  // The blocks a writer produces: every chunk is positive, every block but the
  // last is full, and the widths of the format are respected.
  ghost predicate WellFormed(bs: seq<seq<Piece>>) {
    && (forall k :: 0 <= k < |bs| ==> PiecesFit(bs[k]))
    && (forall k :: 0 <= k < |bs| - 1 ==> Size(bs[k], |bs[k]|) == BLOCK_SIZE)
    && (bs != [] ==> 0 < Size(bs[|bs| - 1], |bs[|bs| - 1]|) <= BLOCK_SIZE)
    && Base(bs, |bs|) < TWO_TO_64
    && Original(bs, |bs|) < TWO_TO_64
    && Start(bs, |bs|) < TWO_TO_32
  }

  ghost predicate PiecesFit(ps: seq<Piece>) {
    forall j :: 0 <= j < |ps| ==> ps[j].size > 0 && |ps[j].residual| < TWO_TO_32
  }

  lemma {:induction false} SizeMonotone(ps: seq<Piece>, j: nat, n: nat)
    requires j <= n <= |ps| && PiecesFit(ps)
    ensures Size(ps, j) + (n - j) <= Size(ps, n)
  {
    if j < n { SizeMonotone(ps, j, n - 1); }
  }

  lemma BlockSizes(bs: seq<seq<Piece>>, k: nat)
    requires WellFormed(bs) && k < |bs|
    ensures 0 < |bs[k]| && PiecesFit(bs[k]) && 0 < Size(bs[k], |bs[k]|) <= BLOCK_SIZE
    ensures k < |bs| - 1 ==> Size(bs[k], |bs[k]|) == BLOCK_SIZE
  {
    if bs[k] == [] { assert Size(bs[k], 0) == 0; }
  }

  // ----- block boundaries -----------------------------------------------------------

  // The rest of BlockStarts at entry i, with filled bytes in the current block.
  function StartsFrom(es: seq<ChunkEntry>, i: nat, filled: nat): seq<nat>
    requires i <= |es|
    decreases |es| - i
  {
    if i == |es| then []
    else
      var more := filled + es[i].size;
      (if filled == 0 then [i] else []) + StartsFrom(es, i + 1, if more >= BLOCK_SIZE then 0 else more)
  }

  method BlockStarts(es: seq<ChunkEntry>) returns (starts: seq<nat>)
    ensures starts == StartsFrom(es, 0, 0)
  {
    starts := [];
    var filled: nat := 0;
    for i := 0 to |es|
      invariant starts + StartsFrom(es, i, filled) == StartsFrom(es, 0, 0)
    {
      if filled == 0 {
        starts := starts + [i];
      }
      filled := filled + es[i].size;
      if filled >= BLOCK_SIZE {
        filled := 0;
      }
    }
  }

  // The original bytes of entries i to j.
  ghost function SizeBetween(es: seq<ChunkEntry>, i: nat, j: nat): nat
    requires i <= j <= |es|
  {
    if i == j then 0 else SizeBetween(es, i, j - 1) + es[j - 1].size
  }

  // The next block start, for a block that starts at s: an entry of no size is a
  // block of its own, else the block ends as soon as it has BLOCK_SIZE bytes.
  ghost predicate BlockEndsAt(es: seq<ChunkEntry>, s: nat, e: nat) {
    && s < e <= |es|
    && if es[s].size == 0 then e == s + 1
       else SizeBetween(es, s, e - 1) < BLOCK_SIZE && (e < |es| ==> SizeBetween(es, s, e) >= BLOCK_SIZE)
  }

  // Where blocks start in any table: at 0, and wherever one ends.
  lemma {:induction false} AnyStarts(es: seq<ChunkEntry>, s: nat, i: nat, filled: nat, k: nat)
    requires s <= i <= |es| && filled < BLOCK_SIZE
    requires if filled == 0 then s == i else s < i && es[s].size > 0 && filled == SizeBetween(es, s, i) && SizeBetween(es, s, i - 1) < BLOCK_SIZE
    requires k <= |StartsFrom(es, i, filled)|
    ensures var starts := (if filled == 0 then [] else [s]) + StartsFrom(es, i, filled);
            && (s < |es| ==> starts != [] && starts[0] == s) && (s == |es| ==> starts == [])
            && (k < |starts| ==> BlockEndsAt(es, starts[k], if k + 1 < |starts| then starts[k + 1] else |es|))
    decreases |es| - i
  {
    if i < |es| {
      var more := filled + es[i].size;
      var rest := StartsFrom(es, i + 1, if more >= BLOCK_SIZE then 0 else more);
      assert SizeBetween(es, s, i + 1) == SizeBetween(es, s, i) + es[i].size;
      assert filled == 0 ==> SizeBetween(es, s, i) == 0;
      if more == 0 || more >= BLOCK_SIZE {
        assert BlockEndsAt(es, s, i + 1);
        if k > 0 { AnyStarts(es, i + 1, i + 1, 0, k - 1); } else { AnyStarts(es, i + 1, i + 1, 0, 0); }
      } else {
        if k <= |rest| { AnyStarts(es, s, i + 1, more, k); }
      }
    }
  }

  // The starts of any table at all.
  lemma StartsAreEnds(es: seq<ChunkEntry>, k: nat)
    requires k < |StartsFrom(es, 0, 0)|
    ensures var starts := StartsFrom(es, 0, 0);
            starts[0] == 0 && BlockEndsAt(es, starts[k], if k + 1 < |starts| then starts[k + 1] else |es|)
  {
    AnyStarts(es, 0, 0, 0, k);
    assert [] + StartsFrom(es, 0, 0) == StartsFrom(es, 0, 0);
  }

  // The number of blocks is that of full reads needed for the original, one at
  // least where there are chunks.
  lemma NumBlocksIs(chunkCount: u32, originalSize: u64)
    requires originalSize <= BLOCK_SIZE * (TWO_TO_32 - 1)
    ensures var n := NumBlocks(chunkCount, originalSize);
            if chunkCount == 0 then n == 0
            else if originalSize == 0 then n == 1
            else (n - 1) * BLOCK_SIZE < originalSize <= n * BLOCK_SIZE
  {
  }

  // BlockRange: the chunk indexes of block i.
  function BlockRange(starts: seq<nat>, i: nat, numEntries: nat): (nat, nat)
    requires i < |starts|
  {
    (starts[i], if i + 1 < |starts| then starts[i + 1] else numEntries)
  }

  // Header.NumBlocks for the two fields it reads; the last conversion is to uint32.
  function NumBlocks(chunkCount: u32, originalSize: u64): u32 {
    if chunkCount == 0 then 0
    else if originalSize == 0 then 1
    else Add64(originalSize, BLOCK_SIZE - 1) / BLOCK_SIZE % TWO_TO_32
  }

  // The writer's block starts, from block k on.
  ghost function TrueStarts(bs: seq<seq<Piece>>, k: nat): seq<nat>
    requires k <= |bs|
    decreases |bs| - k
  {
    if k == |bs| then [] else [Start(bs, k)] + TrueStarts(bs, k + 1)
  }

  lemma {:induction false} TrueStartAt(bs: seq<seq<Piece>>, k: nat, i: nat)
    requires k <= i < |bs|
    ensures |TrueStarts(bs, k)| == |bs| - k && TrueStarts(bs, k)[i - k] == Start(bs, i)
    decreases |bs| - k
  {
    TrueStartsLength(bs, k);
    if k < i { TrueStartAt(bs, k + 1, i); }
  }

  lemma {:induction false} TrueStartsLength(bs: seq<seq<Piece>>, k: nat)
    requires k <= |bs|
    ensures |TrueStarts(bs, k)| == |bs| - k
    decreases |bs| - k
  {
    if k < |bs| { TrueStartsLength(bs, k + 1); }
  }

  lemma StartsUnfold(es: seq<ChunkEntry>, i: nat, filled: nat)
    requires i <= |es|
    ensures i == |es| ==> StartsFrom(es, i, filled) == []
    ensures i < |es| ==>
              var more := filled + es[i].size;
              var rest := StartsFrom(es, i + 1, if more >= BLOCK_SIZE then 0 else more);
              StartsFrom(es, i, filled) == if filled == 0 then [i] + rest else rest
  {
    if i < |es| {
      var more := filled + es[i].size;
      var rest := StartsFrom(es, i + 1, if more >= BLOCK_SIZE then 0 else more);
      assert [] + rest == rest;
    }
  }

  // Where the counter of BlockStarts stands after j pieces of block k.
  ghost function Filled(ps: seq<Piece>, j: nat): nat
    requires j <= |ps|
  {
    if Size(ps, j) >= BLOCK_SIZE then 0 else Size(ps, j)
  }

  // One entry of the scan, at piece j of block k.
  lemma ScanPiece(bs: seq<seq<Piece>>, k: nat, j: nat)
    requires WellFormed(bs) && k < |bs| && j < |bs[k]|
    ensures Start(bs, k) + j < Start(bs, |bs|)
    ensures var i := Start(bs, k) + j;
            var rest := StartsFrom(Entries(bs, |bs|), i + 1, Filled(bs[k], j + 1));
            StartsFrom(Entries(bs, |bs|), i, Filled(bs[k], j)) == if j == 0 then [i] + rest else rest
  {
    hide *;
    var ps := bs[k];
    EntryAt(bs, k, j, |bs|);
    BlockSizes(bs, k);
    FilledInside(ps, j);
    EntryKeepsSize(ps[j], Base(bs, k) + PoolSize(ps, j));
    StartsUnfold(Entries(bs, |bs|), Start(bs, k) + j, Filled(ps, j));
  }

  lemma EntryKeepsSize(p: Piece, offset: nat)
    ensures EntryOf(p, offset).size == p.size
  {
  }

  lemma FilledInside(ps: seq<Piece>, j: nat)
    requires j < |ps| && PiecesFit(ps) && Size(ps, |ps|) <= BLOCK_SIZE
    ensures Filled(ps, j) == 0 <==> j == 0
    ensures var more := Filled(ps, j) + ps[j].size; Filled(ps, j + 1) == if more >= BLOCK_SIZE then 0 else more
  {
    SizeMonotone(ps, 0, j);
    SizeMonotone(ps, j, |ps|);
  }

  // A block that is followed by another one is full.
  lemma BlockEnds(bs: seq<seq<Piece>>, k: nat)
    requires WellFormed(bs) && k < |bs|
    ensures |bs[k]| > 0 && Start(bs, k + 1) == Start(bs, k) + |bs[k]| <= Start(bs, |bs|)
    ensures k + 1 < |bs| ==> Filled(bs[k], |bs[k]|) == 0
    ensures k + 1 == |bs| ==> StartsFrom(Entries(bs, |bs|), Start(bs, k + 1), Filled(bs[k], |bs[k]|)) == []
  {
    hide *;
    BlockSizes(bs, k);
    StartMonotone(bs, k + 1, |bs|);
    StartNext(bs, k);
    FilledFull(bs[k], |bs[k]|);
    if k + 1 == |bs| { StartsUnfold(Entries(bs, |bs|), Start(bs, k + 1), Filled(bs[k], |bs[k]|)); }
  }

  lemma StartNext(bs: seq<seq<Piece>>, k: nat)
    requires k < |bs|
    ensures Start(bs, k + 1) == Start(bs, k) + |bs[k]|
    ensures Base(bs, k + 1) == Base(bs, k) + PoolSize(bs[k], |bs[k]|)
    ensures Original(bs, k + 1) == Original(bs, k) + Size(bs[k], |bs[k]|)
  {
  }

  lemma FilledFull(ps: seq<Piece>, n: nat)
    requires n <= |ps|
    ensures Size(ps, n) == BLOCK_SIZE ==> Filled(ps, n) == 0
  {
  }

  lemma TrueStartsUnfold(bs: seq<seq<Piece>>, k: nat)
    requires k <= |bs|
    ensures TrueStarts(bs, k) == if k == |bs| then [] else [Start(bs, k)] + TrueStarts(bs, k + 1)
  {
  }

  // From inside block k the scan finds exactly the starts of the later blocks.
  lemma {:induction false} ScanBlock(bs: seq<seq<Piece>>, k: nat, j: nat)
    requires WellFormed(bs) && k < |bs| && 1 <= j <= |bs[k]|
    ensures Start(bs, k) + j <= Start(bs, |bs|)
    ensures StartsFrom(Entries(bs, |bs|), Start(bs, k) + j, Filled(bs[k], j)) == TrueStarts(bs, k + 1)
    decreases |bs| - k, |bs[k]| - j
  {
    hide *;
    BlockEnds(bs, k);
    TrueStartsUnfold(bs, k + 1);
    if j < |bs[k]| {
      ScanPiece(bs, k, j);
      ScanBlock(bs, k, j + 1);
    } else if k + 1 < |bs| {
      BlockEnds(bs, k + 1);
      ScanPiece(bs, k + 1, 0);
      NothingFilled(bs[k + 1]);
      ScanBlock(bs, k + 1, 1);
    }
  }

  lemma NothingFilled(ps: seq<Piece>)
    ensures Filled(ps, 0) == 0
  {
  }

  // The scan of the sizes alone recovers the writer's block boundaries.
  lemma BoundariesRecovered(bs: seq<seq<Piece>>)
    requires WellFormed(bs)
    ensures StartsFrom(Entries(bs, |bs|), 0, 0) == TrueStarts(bs, 0)
    ensures |TrueStarts(bs, 0)| == |bs|
    ensures forall k :: 0 <= k < |bs| ==> BlockRange(TrueStarts(bs, 0), k, Start(bs, |bs|)) == (Start(bs, k), Start(bs, k + 1))
  {
    hide *;
    TrueStartsLength(bs, 0);
    ScanAll(bs);
    forall k | 0 <= k < |bs|
      ensures BlockRange(TrueStarts(bs, 0), k, Start(bs, |bs|)) == (Start(bs, k), Start(bs, k + 1))
    {
      RangeOf(bs, k);
    }
  }

  lemma ScanAll(bs: seq<seq<Piece>>)
    requires WellFormed(bs)
    ensures StartsFrom(Entries(bs, |bs|), 0, 0) == TrueStarts(bs, 0)
  {
    hide *;
    TrueStartsUnfold(bs, 0);
    StartZero(bs);
    if bs == [] {
      StartsUnfold(Entries(bs, 0), 0, 0);
    } else {
      BlockEnds(bs, 0);
      ScanPiece(bs, 0, 0);
      NothingFilled(bs[0]);
      ScanBlock(bs, 0, 1);
    }
  }

  lemma RangeOf(bs: seq<seq<Piece>>, k: nat)
    requires k < |bs| && |TrueStarts(bs, 0)| == |bs|
    ensures BlockRange(TrueStarts(bs, 0), k, Start(bs, |bs|)) == (Start(bs, k), Start(bs, k + 1))
  {
    TrueStartAt(bs, 0, k);
    if k + 1 < |bs| { TrueStartAt(bs, 0, k + 1); }
  }

  lemma StartZero(bs: seq<seq<Piece>>)
    ensures Start(bs, 0) == 0
  {
  }

  lemma {:induction false} FullBlocks(bs: seq<seq<Piece>>, k: nat)
    requires WellFormed(bs) && k < |bs|
    ensures Original(bs, k) == k * BLOCK_SIZE
  {
    if k > 0 {
      FullBlocks(bs, k - 1);
      BlockSizes(bs, k - 1);
    }
  }

  lemma {:induction false} StartsAtLeast(bs: seq<seq<Piece>>, k: nat)
    requires WellFormed(bs) && k <= |bs|
    ensures k <= Start(bs, k)
  {
    if k > 0 {
      StartsAtLeast(bs, k - 1);
      BlockSizes(bs, k - 1);
    }
  }

  // The header's two sizes give the number of blocks.
  lemma BlocksCounted(bs: seq<seq<Piece>>)
    requires WellFormed(bs) && bs != [] && Original(bs, |bs|) < TWO_TO_63
    ensures NumBlocks(Start(bs, |bs|), Original(bs, |bs|)) == |bs|
  {
    hide *;
    var n := |bs| - 1;
    FullBlocks(bs, n);
    BlockSizes(bs, n);
    StartsAtLeast(bs, |bs|);
    StartNext(bs, n);
    CountUp(n, Size(bs[n], |bs[n]|));
    FieldWidths(bs);
    Counted(Start(bs, |bs|), Original(bs, |bs|), n);
  }

  lemma FieldWidths(bs: seq<seq<Piece>>)
    requires WellFormed(bs)
    ensures Start(bs, |bs|) < TWO_TO_32 && Base(bs, |bs|) < TWO_TO_64 && Original(bs, |bs|) < TWO_TO_64
  {
  }

  lemma Counted(count: nat, total: nat, n: nat)
    requires n < count < TWO_TO_32 && 0 < total < TWO_TO_64
    requires Add64(total, BLOCK_SIZE - 1) / BLOCK_SIZE == n + 1
    ensures NumBlocks(count, total) == n + 1
  {
  }

  lemma CountUp(n: nat, rest: nat)
    requires 0 < rest <= BLOCK_SIZE && n * BLOCK_SIZE + rest < TWO_TO_63
    ensures Add64(n * BLOCK_SIZE + rest, BLOCK_SIZE - 1) / BLOCK_SIZE == n + 1
  {
    assert n * BLOCK_SIZE + rest + BLOCK_SIZE - 1 == (n + 1) * BLOCK_SIZE + (rest - 1);
  }
}
