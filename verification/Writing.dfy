// The running state of a writer: the chunk table so far, the pool of the block
// at hand and the global delta offset.
module Writing {
  import opened Common
  import Modular
  import opened ChunkTable
  import opened Blocks

  // Appending does not disturb what is already there.
  lemma {:induction false} PieceAppended(ps: seq<Piece>, p: Piece, base: nat, n: nat)
    requires n <= |ps|
    ensures Pool(ps + [p], n) == Pool(ps, n) && PoolSize(ps + [p], n) == PoolSize(ps, n)
    ensures BlockEntries(ps + [p], base, n) == BlockEntries(ps, base, n)
  {
    if n > 0 { PieceAppended(ps, p, base, n - 1); }
  }

  lemma {:induction false} BlockAppended(bs: seq<seq<Piece>>, ps: seq<Piece>, k: nat)
    requires k <= |bs|
    ensures Start(bs + [ps], k) == Start(bs, k) && Base(bs + [ps], k) == Base(bs, k)
    ensures Entries(bs + [ps], k) == Entries(bs, k)
  {
    if k > 0 { BlockAppended(bs, ps, k - 1); }
  }

  // Entries, pool and offset after the pieces ps of a block that starts at base.
  ghost predicate Gathered(before: seq<ChunkEntry>, ps: seq<Piece>, base: nat, entries: seq<ChunkEntry>, pool: Bytes, offset: u64) {
    && entries == before + BlockEntries(ps, base, |ps|)
    && pool == Pool(ps, |ps|) && offset == (base + PoolSize(ps, |ps|)) % TWO_TO_64
  }

  lemma GatherStart(before: seq<ChunkEntry>, base: nat)
    ensures Gathered(before, [], base, before, [], base % TWO_TO_64)
  {
    assert before + [] == before;
  }

  // The entry a writer appends for a piece, and the state it leaves.
  function EntryFor(p: Piece, offset: u64): ChunkEntry {
    ChunkEntry(p.id, offset, |p.residual| % TWO_TO_32, p.size, p.index)
  }

  lemma GatherStep(before: seq<ChunkEntry>, ps: seq<Piece>, base: nat, entries: seq<ChunkEntry>, pool: Bytes, offset: u64, p: Piece)
    requires Gathered(before, ps, base, entries, pool, offset)
    ensures Gathered(before, ps + [p], base, entries + [EntryFor(p, offset)], pool + p.residual, Add64(offset, |p.residual|))
  {
    var qs, n := ps + [p], |ps|;
    PieceAppended(ps, p, base, n);
    BlockGrows(qs, base, n);
    assert qs[n] == p;
    hide Pool, PoolSize, BlockEntries;
    assert EntryFor(p, offset) == EntryOf(p, base + PoolSize(ps, n));
    assert before + BlockEntries(ps, base, n) + [EntryFor(p, offset)] == before + (BlockEntries(ps, base, n) + [EntryFor(p, offset)]);
    OffsetGrows(base + PoolSize(ps, n), |p.residual|);
  }

  lemma BlockGrows(ps: seq<Piece>, base: nat, n: nat)
    requires n < |ps|
    ensures Pool(ps, n + 1) == Pool(ps, n) + ps[n].residual && PoolSize(ps, n + 1) == PoolSize(ps, n) + |ps[n].residual|
    ensures BlockEntries(ps, base, n + 1) == BlockEntries(ps, base, n) + [EntryOf(ps[n], base + PoolSize(ps, n))]
  {
  }

  lemma OffsetGrows(offset: nat, n: nat)
    ensures Add64(offset % TWO_TO_64, n) == (offset + n) % TWO_TO_64
  {
    Modular.ModAdd(offset, n, TWO_TO_64);
  }

  // Table and offset after the blocks bs.
  ghost predicate Laid(bs: seq<seq<Piece>>, entries: seq<ChunkEntry>, offset: u64) {
    entries == Entries(bs, |bs|) && offset == Base(bs, |bs|) % TWO_TO_64
  }

  lemma LayStart()
    ensures Laid([], [], 0)
  {
  }

  lemma LayStep(bs: seq<seq<Piece>>, ps: seq<Piece>, before: seq<ChunkEntry>, offset0: u64, entries: seq<ChunkEntry>, pool: Bytes, offset: u64)
    requires Laid(bs, before, offset0) && Gathered(before, ps, Base(bs, |bs|), entries, pool, offset)
    ensures Laid(bs + [ps], entries, offset) && pool == Pool(ps, |ps|)
  {
    hide *;
    var cs, n := bs + [ps], |bs|;
    LaidParts(bs, before, offset0);
    GatheredParts(before, ps, Base(bs, n), entries, pool, offset);
    BlockAppended(bs, ps, n);
    FileGrows(cs, n);
    LaidFrom(cs, entries, offset);
  }

  lemma LaidParts(bs: seq<seq<Piece>>, entries: seq<ChunkEntry>, offset: u64)
    requires Laid(bs, entries, offset)
    ensures entries == Entries(bs, |bs|) && |entries| == Start(bs, |bs|) && offset == Base(bs, |bs|) % TWO_TO_64
  {
  }

  lemma LaidFrom(bs: seq<seq<Piece>>, entries: seq<ChunkEntry>, offset: u64)
    requires entries == Entries(bs, |bs|) && offset == Base(bs, |bs|) % TWO_TO_64
    ensures Laid(bs, entries, offset)
  {
  }

  lemma GatheredParts(before: seq<ChunkEntry>, ps: seq<Piece>, base: nat, entries: seq<ChunkEntry>, pool: Bytes, offset: u64)
    requires Gathered(before, ps, base, entries, pool, offset)
    ensures entries == before + BlockEntries(ps, base, |ps|)
    ensures pool == Pool(ps, |ps|) && offset == (base + PoolSize(ps, |ps|)) % TWO_TO_64
  {
  }

  lemma FileGrows(bs: seq<seq<Piece>>, n: nat)
    requires n < |bs|
    ensures Entries(bs, n + 1) == Entries(bs, n) + BlockEntries(bs[n], Base(bs, n), |bs[n]|)
    ensures Base(bs, n + 1) == Base(bs, n) + PoolSize(bs[n], |bs[n]|)
  {
  }

  // The gathering loop of Pack and PackStream.
  method GatherBlock(ps: seq<Piece>, before: seq<ChunkEntry>, offset0: u64, ghost base: nat)
    returns (entries: seq<ChunkEntry>, pool: Bytes, offset: u64)
    requires offset0 == base % TWO_TO_64
    ensures Gathered(before, ps, base, entries, pool, offset)
  {
    hide *;
    entries, pool, offset := before, [], offset0;
    GatherStart(before, base);
    for i := 0 to |ps|
      invariant Gathered(before, ps[..i], base, entries, pool, offset)
    {
      GatherStep(before, ps[..i], base, entries, pool, offset, ps[i]);
      assert ps[..i] + [ps[i]] == ps[..i + 1];
      entries := entries + [EntryFor(ps[i], offset)];
      pool := pool + ps[i].residual;
      offset := Add64(offset, |ps[i].residual|);
    }
    assert ps[..|ps|] == ps;
  }
}
