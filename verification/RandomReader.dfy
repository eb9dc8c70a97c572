// Random access to a packed file (internal/vfs/reader.go).
module RandomAccess {
  import opened Common
  import opened Tooling
  import opened Headers
  import opened ChunkTable
  import opened Codebooks
  import opened Blocks
  import opened Container
  import opened Restoring
  import opened Packing
  import opened Geometry
  import opened RandomView
  import opened RecencyLists
  import opened Caches
  import Coding
  import Patch
  import Polynomial
  import XorDelta

  // sort.Search: the loop, for any predicate.
  method Search(n: nat, f: nat -> bool) returns (i: nat)
    ensures i <= n && (i == n || f(i)) && (i == 0 || !f(i - 1))
  {
    i := 0;
    var j := n;
    while i < j
      invariant 0 <= i <= j <= n
      invariant j == n || f(j)
      invariant i == 0 || !f(i - 1)
    {
      var h := (i + j) / 2;
      if !f(h) {
        i := h + 1;
      } else {
        j := h;
      }
    }
  }

  // The blocks and frames of the file a reader was opened on.
  datatype Source = Source(h: Header, bs: seq<seq<Piece>>, frames: seq<Bytes>, password: Bytes)

  // ----- what the cache may hold -----------------------------------------------------

  // Every cached pool and chunk is the one a fresh reader would compute.
  ghost predicate CacheSound(brain: Option<Codebook>, bs: seq<seq<Piece>>, r: seq<Item>) {
    forall k :: Find(r, k).Some? ==> KnownValue(brain, bs, k, Find(r, k).value)
  }

  ghost predicate KnownValue(brain: Option<Codebook>, bs: seq<seq<Piece>>, k: Key, data: Bytes) {
    match k
    case PoolKey(b) => b < |bs| && data == Pool(bs[b], |bs[b]|)
    case ChunkKey(i) => IsChunk(brain, bs, i, data)
  }

  // Chunk i of the table stands for these bytes.
  ghost predicate IsChunk(brain: Option<Codebook>, bs: seq<seq<Piece>>, i: nat, data: Bytes) {
    var es, all := Entries(bs, |bs|), Shown(brain, bs);
    && i < |es| && EndOf(es, i) <= EndOf(es, i + 1) <= |all|
    && data == all[EndOf(es, i)..EndOf(es, i + 1)]
  }

  lemma CacheGet(brain: Option<Codebook>, bs: seq<seq<Piece>>, r: seq<Item>, k: Key)
    requires CacheSound(brain, bs, r)
    ensures CacheSound(brain, bs, AfterGet(r, k))
    ensures Find(r, k).Some? ==> KnownValue(brain, bs, k, Find(r, k).value)
  {
    hide KnownValue, AfterGet;
    forall k' ensures Find(AfterGet(r, k), k') == Find(r, k') { FindAfterGet(r, k, k'); }
  }

  lemma CachePut(brain: Option<Codebook>, bs: seq<seq<Piece>>, r: seq<Item>, k: Key, data: Bytes, max: int)
    requires CacheSound(brain, bs, r) && KnownValue(brain, bs, k, data)
    ensures CacheSound(brain, bs, AfterPut(r, k, data, max))
  {
    hide KnownValue, AfterPut;
    forall k' | Find(AfterPut(r, k, data, max), k').Some?
      ensures KnownValue(brain, bs, k', Find(AfterPut(r, k, data, max), k').value)
    {
      FindAfterPut(r, k, data, max, k');
    }
  }

  lemma NothingCached(brain: Option<Codebook>, bs: seq<seq<Piece>>)
    ensures CacheSound(brain, bs, [])
  {
  }

  lemma PoolKnown(brain: Option<Codebook>, bs: seq<seq<Piece>>, b: nat, data: Bytes)
    ensures KnownValue(brain, bs, PoolKey(b), data) <==> b < |bs| && data == Pool(bs[b], |bs[b]|)
  {
  }

  lemma ChunkKnown(brain: Option<Codebook>, bs: seq<seq<Piece>>, i: nat, data: Bytes)
    ensures KnownValue(brain, bs, ChunkKey(i), data) <==> IsChunk(brain, bs, i, data)
  {
    hide IsChunk;
  }

  // ----- chunks ------------------------------------------------------------------------

  // Rebuilding as ReadAt does it: a script that does not apply leaves the residual.
  method Rebuild(brain: Option<Codebook>, e: ChunkEntry, res: Bytes) returns (r: Result<Bytes>)
    requires e.index != FRACTAL_INDEX
    ensures r == AtRandom(brain, e.id, e.index, e.size, res)
  {
    if e.id == LITERAL_ID {
      return Ok(res);
    }
    var found := Coding.Lookup(brain, Coding.CleanId(e.id));
    if found.Err? {
      return Err(found.error);
    }
    var usable := Coding.Truncated(found.value, e.size);
    if Coding.IsPatch(e.id) {
      r := Patch.ApplyPatch(usable, res);
      if r.Err? {
        r := Ok(res);
      }
    } else {
      var chunk := XorDelta.Apply(usable, Coding.Truncated(res, e.size));
      r := Ok(chunk);
    }
  }

  // Chunk i lies in block b, and its entry and residual are those of a piece there.
  ghost predicate Located(bs: seq<seq<Piece>>, i: nat, b: nat) {
    && b < |bs| && Start(bs, b) <= i < Start(bs, b) + |bs[b]|
  }

  // The entry of a chunk leads to its residual in the pool of its block, and the
  // residual to the bytes shown there.
  lemma ChunkInPool(brain: Option<Codebook>, bs: seq<seq<Piece>>, i: nat, b: nat)
    requires WellFormed(bs) && SoundBlocks(brain, bs) && Located(bs, i, b)
    ensures i < |Entries(bs, |bs|)| && Start(bs, b) < |Entries(bs, |bs|)|
    ensures var es, pool := Entries(bs, |bs|), Pool(bs[b], |bs[b]|);
            var local := Sub64(es[i].offset, es[Start(bs, b)].offset);
            var end := Add64(local, es[i].deltaSize);
            && local <= end <= |pool|
            && var r := AtRandom(brain, es[i].id, es[i].index, es[i].size, pool[local..end]);
               r.Ok? && |r.value| == es[i].size && IsChunk(brain, bs, i, r.value)
  {
    hide *;
    LocatedParts(bs, i, b);
    var j := i - Start(bs, b);
    EntryAt(bs, b, j, |bs|);
    NextOffsetIsBase(bs, b);
    OffsetInBlock(bs, b, j);
    PoolSlice(bs[b], j, |bs[b]|);
    SoundAt(brain, bs, b);
    SoundPiece(brain, bs[b], j);
    SeenPiece(brain, bs[b][j]);
    ChunkShown(brain, bs, b, j);
    RebuiltHere(brain, bs, i, b, j);
  }

  lemma LocatedParts(bs: seq<seq<Piece>>, i: nat, b: nat)
    requires Located(bs, i, b)
    ensures b < |bs| && Start(bs, b) <= i < Start(bs, b) + |bs[b]|
  {
  }

  lemma RebuiltHere(brain: Option<Codebook>, bs: seq<seq<Piece>>, i: nat, b: nat, j: nat)
    requires b < |bs| && j < |bs[b]| && i == Start(bs, b) + j < |Entries(bs, |bs|)|
    requires Entries(bs, |bs|)[i] == EntryOf(bs[b][j], Base(bs, b) + PoolSize(bs[b], j))
    requires var p := bs[b][j]; AtRandom(brain, p.id, p.index, p.size, p.residual) == Ok(ChunkData(brain, Seen(p)))
    requires |ChunkData(brain, Seen(bs[b][j]))| == bs[b][j].size
    requires EndOf(Entries(bs, |bs|), i) <= EndOf(Entries(bs, |bs|), i + 1) <= |Shown(brain, bs)|
    requires Shown(brain, bs)[EndOf(Entries(bs, |bs|), i)..EndOf(Entries(bs, |bs|), i + 1)] == ChunkData(brain, Seen(bs[b][j]))
    ensures var e, p := Entries(bs, |bs|)[i], bs[b][j];
            var r := AtRandom(brain, e.id, e.index, e.size, p.residual);
            r.Ok? && |r.value| == e.size && IsChunk(brain, bs, i, r.value)
  {
    hide Entries, EndOf, Shown, Start, AtRandom, ChunkData, Seen, Base, PoolSize;
  }

  // ----- the reader ----------------------------------------------------------------------

  method CopyInto(dest: array<byte>, at: nat, src: Bytes)
    requires at + |src| <= dest.Length
    modifies dest
    ensures dest[..] == old(dest[..at]) + src + old(dest[at + |src|..])
  {
    forall k | 0 <= k < |src| {
      dest[at + k] := src[k];
    }
    SameElements(dest[..], old(dest[..at]) + src + old(dest[at + |src|..]));
  }

  class RandomReader {
    const tools: Tools
    const file: Bytes
    const header: Header
    const sizes: seq<u32>
    const entries: seq<ChunkEntry>
    const brain: Option<Codebook>
    const key: Option<Bytes>
    const cache: MemoryCache
    const dataOffset: nat
    const blockOffsets: seq<nat>
    const blockStarts: seq<nat>
    const chunkEnds: seq<u64>
    ghost const source: Source

    // What the constructor computes, for any table.
    ghost predicate Shape()
      reads cache
    {
      && cache.Valid() && blockStarts == StartsFrom(entries, 0, 0)
      && FrameOffsets(blockOffsets, dataOffset, sizes) && ChunkEnds(chunkEnds, entries)
    }

    // The reader was opened on a well-formed file that unpacks.
    ghost predicate Opened() {
      && Readable(tools, brain, source.password, true, file, source.h, source.bs, source.frames, {})
      && header == Kept(source.h) && sizes == Lengths(source.frames) && entries == Entries(source.bs, |source.bs|)
      && key == KeyFor(tools, source.h, source.password).value
      && dataOffset <= |file| && file[dataOffset..] == Concat(source.frames, 0)
    }

    // Besides, its cache holds only what unpacking would compute.
    ghost predicate Good()
      reads cache
    {
      Opened() && CacheSound(brain, source.bs, cache.Recency())
    }

    // What the file is as this reader shows it. It is what the file unpacks to,
    // unless a literal carries a harmful mark.
    ghost function Data(): Bytes { Shown(brain, source.bs) }

    lemma DataIff()
      requires Opened()
      ensures Data() == FileData(brain, source.bs, |source.bs|) <==> HarmlessMarks(source.bs)
    {
      hide *;
      OpenedIs();
      FileOf(tools, brain, source.password, true, file, source.h, source.bs, source.frames);
      DataIs();
      ShownIff(brain, source.bs);
    }

    constructor (tools: Tools, file: Bytes, m: Metadata, brain: Option<Codebook>, password: Bytes, maxMB: int, ghost source: Source)
      requires m.header.version >= 2 && KeyFor(tools, m.header, password).Ok?
      ensures Shape() && fresh(cache) && header == m.header && this.source == source && this.brain == brain
      ensures cache.maxBytes == (if maxMB <= 0 then 64 else maxMB) * 1024 * 1024
      ensures && Readable(tools, brain, password, true, file, source.h, source.bs, source.frames, {})
              && source.password == password && ReadMetadata(tools, file, password) == Ok(m)
              ==> Good()
    {
      hide *;
      var offsets := ComputeOffsets(DataOffset(m), m.sizes);
      var starts := BlockStarts(m.entries);
      var ends := ComputeEnds(m.entries);
      var memCache := new MemoryCache(maxMB);
      this.tools, this.file, this.header, this.sizes, this.entries := tools, file, m.header, m.sizes, m.entries;
      this.brain, this.key, this.cache := brain, KeyFor(tools, m.header, password).value, memCache;
      this.dataOffset, this.blockOffsets, this.blockStarts, this.chunkEnds := DataOffset(m), offsets, starts, ends;
      this.source := source;
      new;
      ShapeIs();
      if && Readable(tools, brain, password, true, file, source.h, source.bs, source.frames, {})
         && source.password == password && ReadMetadata(tools, file, password) == Ok(m) {
        Opens(m);
        NothingCached(brain, source.bs);
        GoodIs();
      }
    }

    lemma ShapeIs()
      ensures Shape() <==> && cache.Valid() && blockStarts == StartsFrom(entries, 0, 0)
                           && FrameOffsets(blockOffsets, dataOffset, sizes) && ChunkEnds(chunkEnds, entries)
    {
      hide StartsFrom, FrameOffsets, ChunkEnds, MemoryCache.Valid;
    }

    lemma GoodIs()
      ensures Good() <==> Opened() && CacheSound(brain, source.bs, cache.Recency())
    {
      hide Opened, CacheSound, MemoryCache.Recency;
    }

    lemma Opens(m: Metadata)
      requires Readable(tools, brain, source.password, true, file, source.h, source.bs, source.frames, {})
      requires ReadMetadata(tools, file, source.password) == Ok(m)
      requires header == m.header && sizes == m.sizes && entries == m.entries && dataOffset == DataOffset(m)
      requires KeyFor(tools, m.header, source.password) == Ok(key)
      ensures Opened()
    {
      hide *;
      FileOf(tools, brain, source.password, true, file, source.h, source.bs, source.frames);
      PoolFound(tools, source.password, file, source.h, source.bs, source.frames);
      KeptKey(tools, source.h, source.password);
      OpenedIs();
    }

    lemma OpenedIs()
      ensures Opened() <==>
              && Readable(tools, brain, source.password, true, file, source.h, source.bs, source.frames, {})
              && header == Kept(source.h) && sizes == Lengths(source.frames) && entries == Entries(source.bs, |source.bs|)
              && KeyFor(tools, source.h, source.password) == Ok(key)
              && dataOffset <= |file| && file[dataOffset..] == Concat(source.frames, 0)
    {
      hide Kept, Lengths, Entries, KeyFor, Concat, IsFile, SoundBlocks, FramesOpen, Tools.Valid;
    }

    // ----- one block ---------------------------------------------------------------------

    lemma BlockFacts(b: nat)
      requires Opened() && FrameOffsets(blockOffsets, dataOffset, sizes)
      ensures |blockOffsets| == |sizes| == |source.bs|
      ensures b < |sizes| ==> OpenFrame(tools, key, Dictionary(), ReadPadded(file, blockOffsets[b], sizes[b])) == Ok(Pool(source.bs[b], |source.bs[b]|))
      ensures header.usesBrainDict ==> brain.Some?
    {
      hide *;
      OpenedIs();
      FileOf(tools, brain, source.password, true, file, source.h, source.bs, source.frames);
      KeptFields(source.h);
      OffsetCount(blockOffsets, dataOffset, sizes);
      SizeCount(source.frames);
      if b < |sizes| {
        FrameThere(file, dataOffset, blockOffsets, source.frames, b);
        FrameHoldsPool(tools, brain, source.password, file, source.h, source.bs, source.frames, b);
      }
      DictionaryIs();
    }

    ghost function Dictionary(): Bytes {
      if header.usesBrainDict && brain.Some? then brain.value.dictionary else []
    }

    lemma DictionaryIs()
      ensures Dictionary() == if header.usesBrainDict && brain.Some? then brain.value.dictionary else []
    {
    }

    method LoadBlockPool(b: u32) returns (r: Result<Bytes>)
      requires Shape()
      modifies cache
      ensures Shape()
      ensures old(Good()) ==> Good() && (b < |source.bs| ==> r == Ok(Pool(source.bs[b], |source.bs[b]|)))
      // It stays in the cache, as what was used last.
      ensures r.Ok? && |r.value| <= cache.maxBytes ==> cache.Recency() != [] && cache.Recency()[0] == Item(PoolKey(b), r.value)
    {
      hide *;
      ShapeIs();
      GoodIs();
      PoolLookup(b);
      var cached := cache.Get(PoolKey(b));
      ShapeIs();
      GoodIs();
      if cached.Some? {
        GotIsFirst(old(cache.Recency()), PoolKey(b));
        return Ok(cached.value);
      }
      // Once more, now holding the lock.
      PoolLookup(b);
      ghost var before := cache.Recency();
      cached := cache.Get(PoolKey(b));
      ShapeIs();
      GoodIs();
      if cached.Some? {
        GotIsFirst(before, PoolKey(b));
        return Ok(cached.value);
      }
      OffsetCount(blockOffsets, dataOffset, sizes);
      if Opened() { BlockFacts(b); }
      if b >= |blockOffsets| {
        return Err(BadBlock);
      }
      if header.usesBrainDict && brain.None? {
        return Err(BadLookup);
      }
      DictionaryIs();
      var dict := if header.usesBrainDict then brain.value.dictionary else [];
      r := OpenFrame(tools, key, dict, ReadPadded(file, blockOffsets[b], sizes[b]));
      if r.Err? {
        return;
      }
      if old(Good()) {
        PoolKnown(brain, source.bs, b, r.value);
        CachePut(brain, source.bs, cache.Recency(), PoolKey(b), r.value, cache.maxBytes);
      }
      if |r.value| <= cache.maxBytes { PutIsFirst(cache.Recency(), PoolKey(b), r.value, cache.maxBytes); }
      cache.Put(PoolKey(b), r.value);
      ShapeIs();
      GoodIs();
    }

    lemma PoolLookup(b: nat)
      ensures Good() ==> CacheSound(brain, source.bs, AfterGet(cache.Recency(), PoolKey(b)))
      ensures Good() && Find(cache.Recency(), PoolKey(b)).Some? ==>
                b < |source.bs| && Find(cache.Recency(), PoolKey(b)) == Some(Pool(source.bs[b], |source.bs[b]|))
    {
      hide *;
      GoodIs();
      if Good() {
        CacheGet(brain, source.bs, cache.Recency(), PoolKey(b));
        var found := Find(cache.Recency(), PoolKey(b));
        if found.Some? { PoolKnown(brain, source.bs, b, found.value); }
      }
    }

    // ----- one chunk -----------------------------------------------------------------------

    // Chunk i, its block found by searching the block starts.
    lemma BlockFound(i: nat, j: nat)
      requires Opened() && blockStarts == StartsFrom(entries, 0, 0) && i < |entries|
      requires j <= |blockStarts| && (j == |blockStarts| || blockStarts[j] >= i + 1) && (j == 0 || blockStarts[j - 1] < i + 1)
      ensures 0 < j <= |source.bs| == |blockStarts| < TWO_TO_32 && (j - 1) % TWO_TO_32 == j - 1
      ensures blockStarts[j - 1] == Start(source.bs, j - 1) < |entries| && Located(source.bs, i, j - 1)
      ensures entries == Entries(source.bs, |source.bs|) && WellFormed(source.bs) && SoundBlocks(brain, source.bs)
    {
      hide *;
      OpenedIs();
      FileOf(tools, brain, source.password, true, file, source.h, source.bs, source.frames);
      BoundariesRecovered(source.bs);
      BlockHolds(source.bs, blockStarts, i, j);
      StartsAtLeast(source.bs, |source.bs|);
      FieldWidths(source.bs);
      SmallIndex(j - 1);
      LocatedIs(source.bs, i, j - 1);
      NextOffsetIsBase(source.bs, j - 1);
    }

    // The chunk from the pool of its block.
    method FromPool(i: nat, b: u32) returns (r: Result<Bytes>)
      requires Shape() && i < |entries| && entries[i].index != FRACTAL_INDEX
      modifies cache
      ensures Shape() && (old(Good()) ==> Good())
      ensures && old(Good()) && SoundBlocks(brain, source.bs) && WellFormed(source.bs)
              && Located(source.bs, i, b) && b < |blockStarts| && blockStarts[b] == Start(source.bs, b)
              ==> r.Ok? && IsChunk(brain, source.bs, i, r.value)
    {
      hide *;
      GoodIs();
      OpenedIs();
      LocatedIs(source.bs, i, b);
      if SoundBlocks(brain, source.bs) && WellFormed(source.bs) && Located(source.bs, i, b) {
        ChunkInPool(brain, source.bs, i, b);
      }
      var loaded := LoadBlockPool(b);
      if loaded.Err? {
        return Err(loaded.error);
      }
      if b >= |blockStarts| || blockStarts[b] >= |entries| {
        return Err(BadBounds);
      }
      var entry, pool := entries[i], loaded.value;
      var local := Sub64(entry.offset, entries[blockStarts[b]].offset);
      var end := Add64(local, entry.deltaSize);
      if end > |pool| || local > end {
        return Err(BadBounds);
      }
      r := Rebuild(brain, entry, pool[local..end]);
    }

    method ReadChunk(i: nat) returns (r: Result<Bytes>)
      requires Shape() && i < |entries|
      modifies cache
      ensures Shape()
      ensures old(Good()) ==> Good() && r.Ok? && IsChunk(brain, source.bs, i, r.value)
      ensures r.Ok? && entries[i].id != LITERAL_ID && |r.value| <= cache.maxBytes ==>
                cache.Recency() != [] && cache.Recency()[0] == Item(ChunkKey(i), r.value)
    {
      hide *;
      ShapeIs();
      GoodIs();
      var entry := entries[i];
      var j := Search(|blockStarts|, (k: nat) => k < |blockStarts| && blockStarts[k] >= i + 1);
      if Opened() { BlockFound(i, j); }
      ChunkLookup(i);
      var cached := cache.Get(ChunkKey(i));
      ShapeIs();
      GoodIs();
      if cached.Some? {
        r := Ok(cached.value);
      } else if entry.index == FRACTAL_INDEX {
        var generated := Polynomial.GeneratePolynomial(entry.id, entry.size);
        r := Ok(generated);
        if Opened() { PolynomialChunk(i, j - 1); }
      } else {
        r := FromPool(i, (j - 1) % TWO_TO_32);
        if r.Err? {
          return;
        }
      }
      ShapeIs();
      GoodIs();
      if old(Good()) { ChunkFits(i, r.value); }
      r := Ok(Coding.Truncated(r.value, entry.size));
      if entry.id != LITERAL_ID {
        if old(Good()) {
          ChunkKnown(brain, source.bs, i, r.value);
          CachePut(brain, source.bs, cache.Recency(), ChunkKey(i), r.value, cache.maxBytes);
        }
        if |r.value| <= cache.maxBytes { PutIsFirst(cache.Recency(), ChunkKey(i), r.value, cache.maxBytes); }
        cache.Put(ChunkKey(i), r.value);
      }
      ShapeIs();
      GoodIs();
    }

    lemma ChunkLookup(i: nat)
      ensures Good() ==> CacheSound(brain, source.bs, AfterGet(cache.Recency(), ChunkKey(i)))
      ensures Good() && Find(cache.Recency(), ChunkKey(i)).Some? ==> IsChunk(brain, source.bs, i, Find(cache.Recency(), ChunkKey(i)).value)
    {
      hide *;
      GoodIs();
      if Good() {
        CacheGet(brain, source.bs, cache.Recency(), ChunkKey(i));
        var found := Find(cache.Recency(), ChunkKey(i));
        if found.Some? { ChunkKnown(brain, source.bs, i, found.value); }
      }
    }

    // Polynomial chunks need no pool.
    lemma PolynomialChunk(i: nat, b: nat)
      requires Opened() && i < |entries| && entries[i].index == FRACTAL_INDEX
      requires Located(source.bs, i, b) && WellFormed(source.bs) && SoundBlocks(brain, source.bs)
      ensures IsChunk(brain, source.bs, i, Polynomial.Generated(entries[i].id, entries[i].size))
    {
      hide *;
      OpenedIs();
      ChunkInPool(brain, source.bs, i, b);
      LocatedIs(source.bs, i, b);
      var e, pool := entries[i], Pool(source.bs[b], |source.bs[b]|);
      var local := Sub64(e.offset, entries[Start(source.bs, b)].offset);
      ShownPolynomial(brain, e, pool[local..Add64(local, e.deltaSize)]);
    }

    // A chunk is exactly as long as its entry says, so clamping leaves it alone.
    lemma ChunkFits(i: nat, data: Bytes)
      requires Opened() && i < |entries| && IsChunk(brain, source.bs, i, data)
      ensures Coding.Truncated(data, entries[i].size) == data
    {
      hide *;
      OpenedIs();
      ChunkLength(brain, source.bs, i, data);
      NoTruncation(data, entries[i].size);
    }

    // ----- reading -----------------------------------------------------------------------

    lemma Extent()
      requires Opened()
      ensures header.originalSize == |Data()| == EndOf(entries, |entries|) < TWO_TO_63
      ensures header.chunkCount != 0 && !header.isPassthrough && Signed(header.originalSize) == |Data()|
    {
      hide *;
      OpenedIs();
      FileOf(tools, brain, source.password, true, file, source.h, source.bs, source.frames);
      KeptFields(source.h);
      ShownLength(brain, source.bs);
      EndTotal(source.bs);
      SignedSmall(header.originalSize);
      DataIs();
    }

    lemma DataIs()
      ensures Data() == Shown(brain, source.bs)
    {
      hide Shown;
    }

    // Which chunk an offset of the original falls in, and where.
    lemma ChunkFound(cur: int, i: nat)
      requires Opened() && ChunkEnds(chunkEnds, entries) && -TWO_TO_63 <= cur < |Data()|
      requires i <= |entries| == |chunkEnds| && (i == |entries| || chunkEnds[i] > cur % TWO_TO_64) && (i == 0 || chunkEnds[i - 1] <= cur % TWO_TO_64)
      ensures cur < 0 ==> i == |entries|
      ensures 0 <= cur ==>
                && i < |entries| && EndOf(entries, i) <= cur < EndOf(entries, i + 1) == EndOf(entries, i) + entries[i].size
                && Signed(cur - chunkEnds[i] + entries[i].size) == cur - EndOf(entries, i)
    {
      hide *;
      Extent();
      Unsigned(cur);
      if 0 <= cur {
        ChunkHolds(entries, chunkEnds, cur, i);
        SignedSmall(cur - EndOf(entries, i));
      } else if i < |entries| {
        EndBelow(entries, chunkEnds, i);
      }
    }

    // The part of a chunk that is copied is the part of the original asked for.
    lemma ChunkPart(i: nat, chunk: Bytes, cur: nat, n: nat)
      requires Opened() && i < |entries| && IsChunk(brain, source.bs, i, chunk)
      requires EndOf(entries, i) <= cur && cur + n <= EndOf(entries, i + 1)
      ensures |chunk| == EndOf(entries, i + 1) - EndOf(entries, i) && EndOf(entries, i + 1) <= |Data()|
      ensures chunk[cur - EndOf(entries, i)..cur + n - EndOf(entries, i)] == Data()[cur..cur + n]
    {
      hide *;
      OpenedIs();
      DataIs();
      ChunkIs(brain, source.bs, i, chunk);
      SubSlice(Data(), EndOf(entries, i), EndOf(entries, i + 1), cur - EndOf(entries, i), cur + n - EndOf(entries, i));
    }

    // Files stored as they are: the payload from the offset on, as far as it goes.
    method ReadPassthrough(dest: array<byte>, want: nat, off: i64) returns (n: nat, err: Option<Error>)
      requires want <= dest.Length
      modifies dest
      ensures n <= want && dest[n..] == old(dest[n..])
      ensures dataOffset <= |file| && 0 <= off ==>
                var plain := if key.Some? then tools.decrypt(key.value, file[dataOffset..]) else Ok(file[dataOffset..]);
                && (plain.Ok? && off <= |plain.value| ==>
                      && n == Min(want, |plain.value| - off) && dest[..n] == plain.value[off..off + n]
                      && err == if key.None? && n < want then Some(EndOfFile) else None)
                && (plain.Err? || off > |plain.value| ==> n == 0 && err.Some?)
    {
      n := 0;
      if dataOffset > |file| {
        return 0, Some(EndOfFile);
      }
      var plain := if key.Some? then tools.decrypt(key.value, file[dataOffset..]) else Ok(file[dataOffset..]);
      if plain.Err? {
        return 0, Some(plain.error);
      }
      if off < 0 || off > |plain.value| {
        return 0, Some(BadBounds);
      }
      n := Min(want, |plain.value| - off);
      CopyInto(dest, 0, plain.value[off..off + n]);
      err := if key.None? && n < want then Some(EndOfFile) else None;
    }

    // The chunk that holds an offset of the original, as the search finds it.
    ghost predicate Holds(i: nat, cur: int)
      requires |chunkEnds| == |entries|
    {
      && 0 <= cur && i < |entries| && EndOf(entries, i) <= cur < EndOf(entries, i + 1) == EndOf(entries, i) + entries[i].size
      && Signed(cur - chunkEnds[i] + entries[i].size) == cur - EndOf(entries, i)
    }

    // One round of the loop: from chunk i into dest[n..m].
    method CopyChunk(dest: array<byte>, n: nat, want: nat, cur: int, i: nat) returns (m: nat, err: Option<Error>)
      requires Shape() && n < want <= dest.Length && i < |entries| == |chunkEnds|
      modifies cache, dest
      ensures Shape() && n <= m <= want && (err == None ==> n < m)
      ensures dest[..n] == old(dest[..n]) && dest[m..] == old(dest[m..])
      ensures old(Good()) ==> Good()
      ensures old(Good()) && Holds(i, cur) ==> err == None && IsSlice(dest[n..m], Data(), cur)
    {
      hide *;
      GoodIs();
      HoldsIs(i, cur);
      m := n;
      var entry := entries[i];
      var chunkOffset := Signed(cur - chunkEnds[i] + entry.size);
      var chunk := ReadChunk(i);
      if chunk.Err? {
        return n, Some(chunk.error);
      }
      var toCopy := entry.size - chunkOffset;
      if want - n < toCopy {
        toCopy := want - n;
      }
      if old(Good()) && Holds(i, cur) { ChunkPart(i, chunk.value, cur, toCopy); }
      if chunkOffset + toCopy > |chunk.value| {
        toCopy := |chunk.value| - chunkOffset;
      }
      if toCopy <= 0 {
        return n, Some(ShortRead);
      }
      if chunkOffset < 0 {
        return n, Some(BadBounds);
      }
      var part := chunk.value[chunkOffset..chunkOffset + toCopy];
      ghost var before := dest[..];
      CopyInto(dest, n, part);
      m := n + toCopy;
      Copied(before, dest[..], n, part);
      if old(Good()) && Holds(i, cur) { PartIs(part, Data(), cur); }
      return m, None;
    }

    lemma HoldsIs(i: nat, cur: int)
      requires |chunkEnds| == |entries|
      ensures Holds(i, cur) <==>
              && 0 <= cur && i < |entries| && EndOf(entries, i) <= cur < EndOf(entries, i + 1) == EndOf(entries, i) + entries[i].size
              && Signed(cur - chunkEnds[i] + entries[i].size) == cur - EndOf(entries, i)
    {
      hide EndOf, Signed;
    }

    method ReadAt(dest: array<byte>, off: i64) returns (n: nat, err: Option<Error>)
      requires Shape()
      modifies cache, dest
      ensures Shape() && n <= dest.Length && dest[n..] == old(dest[n..])
      ensures off >= Signed(header.originalSize) ==> n == 0 && err == Some(EndOfFile)
      ensures old(Good()) ==> Good()
      ensures old(Good()) && 0 <= off < |Data()| && dest.Length > 0 ==>
                err == None && n == Min(dest.Length, |Data()| - off) && dest[..n] == Data()[off..off + n]
      ensures old(Good()) && (off < 0 || dest.Length == 0) ==> n == 0 && err == Some(EndOfFile)
    {
      hide *;
      n := 0;
      GoodIs();
      if Opened() { Extent(); }
      var size := Signed(header.originalSize);
      if off >= size {
        return 0, Some(EndOfFile);
      }
      var want := if off + dest.Length > size then size - off else dest.Length;
      MinIs(dest.Length, size - off);
      if header.chunkCount == 0 || header.isPassthrough {
        n, err := ReadPassthrough(dest, want, off);
        return;
      }
      SliceEmpty(dest[..0], Data(), off);
      while n < want
        invariant Shape() && n <= want && dest[n..] == old(dest[n..])
        invariant old(Good()) ==> Good() && (off < 0 ==> n == 0)
        invariant old(Good()) && 0 <= off <= |Data()| ==> IsSlice(dest[..n], Data(), off)
        decreases want - n
      {
        ShapeIs();
        EndCount(chunkEnds, entries);
        var cur := off + n;
        var i := Search(|entries|, (k: nat) => k < |chunkEnds| && chunkEnds[k] > cur % TWO_TO_64);
        if Opened() {
          ChunkFound(cur, i);
          HoldsIs(i, cur);
        }
        if i >= |entries| {
          break;
        }
        ghost var before := dest[..];
        var m, failed := CopyChunk(dest, n, want, cur, i);
        Grown(before, old(dest[..]), dest[..], n, m);
        if failed.Some? {
          return m, failed;
        }
        SliceGrows(dest[..], n, m, Data(), off);
        n := m;
      }
      SliceIs(dest[..n], Data(), off);
      if n == 0 {
        return 0, Some(EndOfFile);
      }
      return n, None;
    }
  }

  // A part of a longer string, where it starts.
  ghost predicate IsSlice(part: Bytes, all: Bytes, at: int) {
    0 <= at && at + |part| <= |all| && part == all[at..at + |part|]
  }

  lemma SliceIs(part: Bytes, all: Bytes, at: int)
    ensures IsSlice(part, all, at) <==> 0 <= at && at + |part| <= |all| && part == all[at..at + |part|]
  {
  }

  lemma SliceEmpty(part: Bytes, all: Bytes, at: int)
    ensures part == [] && 0 <= at <= |all| ==> IsSlice(part, all, at)
  {
  }

  lemma SliceGrows(dest: Bytes, n: nat, m: nat, all: Bytes, at: int)
    requires n <= m <= |dest|
    ensures IsSlice(dest[..n], all, at) && IsSlice(dest[n..m], all, at + n) ==> IsSlice(dest[..m], all, at)
  {
    assert dest[..m] == dest[..n] + dest[n..m];
  }

  lemma PartIs(part: Bytes, all: Bytes, at: nat)
    requires at + |part| <= |all| && part == all[at..at + |part|]
    ensures IsSlice(part, all, at)
  {
  }

  // What copying into the middle of a buffer leaves, before and after.
  lemma Copied(before: Bytes, after: Bytes, n: nat, src: Bytes)
    requires n + |src| <= |before| && after == before[..n] + src + before[n + |src|..]
    ensures |after| == |before| && after[..n] == before[..n] && after[n..n + |src|] == src && after[n + |src|..] == before[n + |src|..]
  {
  }

  lemma Grown(before: Bytes, first: Bytes, after: Bytes, n: nat, m: nat)
    requires |before| == |first| == |after| && n <= m <= |before| && before[n..] == first[n..] && after[m..] == before[m..]
    ensures after[m..] == first[m..]
  {
    assert before[n..][m - n..] == before[m..] && first[n..][m - n..] == first[m..];
  }

  lemma EndCount(ends: seq<u64>, es: seq<ChunkEntry>)
    requires ChunkEnds(ends, es)
    ensures |ends| == |es|
  {
  }

  lemma EndBelow(es: seq<ChunkEntry>, ends: seq<u64>, i: nat)
    requires ChunkEnds(ends, es) && i < |ends| && EndOf(es, |es|) < TWO_TO_63
    ensures ends[i] < TWO_TO_63
  {
    EndMonotone(es, i + 1, |es|);
  }

  lemma EndTotal(bs: seq<seq<Piece>>)
    ensures EndOf(Entries(bs, |bs|), |Entries(bs, |bs|)|) == Original(bs, |bs|)
  {
    if bs != [] {
      var k := |bs| - 1;
      EndAt(bs, k, |bs[k]|);
      StartNext(bs, k);
    }
  }

  lemma SignedSmall(n: int)
    requires 0 <= n < TWO_TO_63
    ensures Signed(n) == n
  {
  }

  lemma Unsigned(cur: int)
    requires -TWO_TO_63 <= cur < TWO_TO_63
    ensures cur % TWO_TO_64 == if cur < 0 then cur + TWO_TO_64 else cur
    ensures cur < 0 ==> cur % TWO_TO_64 >= TWO_TO_63
  {
  }

  lemma ChunkIs(brain: Option<Codebook>, bs: seq<seq<Piece>>, i: nat, data: Bytes)
    requires IsChunk(brain, bs, i, data)
    ensures var es, all := Entries(bs, |bs|), Shown(brain, bs);
            && i < |es| && EndOf(es, i) <= EndOf(es, i + 1) <= |all| && data == all[EndOf(es, i)..EndOf(es, i + 1)]
  {
  }

  lemma NoTruncation(data: Bytes, n: nat)
    ensures |data| <= n ==> Coding.Truncated(data, n) == data
  {
  }

  lemma ChunkLength(brain: Option<Codebook>, bs: seq<seq<Piece>>, i: nat, data: Bytes)
    requires IsChunk(brain, bs, i, data)
    ensures i < |Entries(bs, |bs|)| && |data| == Entries(bs, |bs|)[i].size
  {
    hide Entries, Shown;
  }

  lemma ShownPolynomial(brain: Option<Codebook>, e: ChunkEntry, residual: Bytes)
    requires e.index == FRACTAL_INDEX
    ensures AtRandom(brain, e.id, e.index, e.size, residual) == Ok(Polynomial.Generated(e.id, e.size))
  {
    hide Polynomial.Generated;
  }

  lemma SmallIndex(n: int)
    ensures 0 <= n < TWO_TO_32 ==> n % TWO_TO_32 == n
  {
  }

  lemma LocatedIs(bs: seq<seq<Piece>>, i: nat, b: nat)
    ensures Located(bs, i, b) <==> b < |bs| && Start(bs, b) <= i < Start(bs, b) + |bs[b]|
  {
    hide Start;
  }

  lemma OffsetCount(offsets: seq<nat>, base: nat, sizes: seq<u32>)
    requires FrameOffsets(offsets, base, sizes)
    ensures |offsets| == |sizes|
  {
  }

  lemma SizeCount(frames: seq<Bytes>)
    ensures |Lengths(frames)| == |frames|
  {
  }

  lemma FrameHoldsPool(tools: Tools, brain: Option<Codebook>, password: Bytes, bytes: Bytes, h: Header,
                       bs: seq<seq<Piece>>, frames: seq<Bytes>, b: nat)
    requires Readable(tools, brain, password, true, bytes, h, bs, frames, {}) && b < |bs|
    ensures |frames| == |bs| && KeyFor(tools, h, password).Ok? && (h.usesBrainDict ==> brain.Some?)
    ensures OpenFrame(tools, KeyFor(tools, h, password).value, if h.usesBrainDict then brain.value.dictionary else [], frames[b]) ==
            Ok(Pool(bs[b], |bs[b]|))
  {
    hide IsFile, SoundBlocks, Tools.Valid, KeyFor, Entries, TrueStarts, Pool, OpenFrame;
    assert FrameOpens(JobHere(tools, brain, password, true, h, bs, frames), bs[b], frames[b], b in {});
  }

  lemma FileOf(tools: Tools, brain: Option<Codebook>, password: Bytes, strict: bool, bytes: Bytes, h: Header,
               bs: seq<seq<Piece>>, frames: seq<Bytes>)
    requires Readable(tools, brain, password, strict, bytes, h, bs, frames, {})
    ensures tools.Valid() && IsFile(tools, password, bytes, h, bs, frames) && h.Valid() && 5 <= h.version <= 8
    ensures SoundBlocks(brain, bs) && WellFormed(bs) && |frames| == |bs| && KeyFor(tools, h, password).Ok?
    ensures h.originalSize == Original(bs, |bs|) < TWO_TO_63 && h.chunkCount == Start(bs, |bs|) > 0
    ensures !h.isPassthrough && (h.usesBrainDict ==> brain.Some?)
    ensures forall k :: 0 <= k < |frames| ==> |frames[k]| < TWO_TO_32
  {
    StartsAtLeast(bs, |bs|);
    hide SoundBlocks, WellFormed, FileBytes, TableBlob, KeyFor, Original, Start, Tools.Valid, Header.Valid, Entries, FramesOpen, NoWrap;
  }

  // Mounting a file: its metadata, then the reader. On a file that unpacks the
  // reader is good, and shows what unpacking gives if no mark does harm; on a
  // packed file its data are the packed input, so every later ReadAt returns
  // slices of that.
  method Open(tools: Tools, file: Bytes, brain: Option<Codebook>, password: Bytes, maxMB: int,
              ghost input: Bytes, ghost source: Source) returns (r: Result<RandomReader>)
    ensures r.Ok? ==> fresh(r.value) && fresh(r.value.cache) && r.value.Shape() && r.value.source == source
    ensures Readable(tools, brain, password, true, file, source.h, source.bs, source.frames, {}) && source.password == password ==>
              && r.Ok? && r.value.Good()
              && (r.value.Data() == FileData(brain, source.bs, |source.bs|) <==> HarmlessMarks(source.bs))
    ensures Archive(tools, brain, password, file, input, source.h, source.bs, source.frames) && source.password == password ==>
              r.Ok? && r.value.Good() && r.value.Data() == input
  {
    hide *;
    if Archive(tools, brain, password, file, input, source.h, source.bs, source.frames) {
      ArchiveShown(tools, brain, password, file, input, source.h, source.bs, source.frames);
    }
    if Readable(tools, brain, password, true, file, source.h, source.bs, source.frames, {}) {
      ReadableOpens(tools, brain, password, file, source.h, source.bs, source.frames);
    }
    var m := ReadMetadata(tools, file, password);
    if m.Err? {
      return Err(m.error);
    }
    if m.value.header.version < 2 {
      return Err(BadVersion);
    }
    var key := KeyFor(tools, m.value.header, password);
    if key.Err? {
      return Err(key.error);
    }
    var reader := new RandomReader(tools, file, m.value, brain, password, maxMB, source);
    reader.DataIs();
    reader.GoodIs();
    if reader.Opened() { reader.DataIff(); }
    r := Ok(reader);
  }

  lemma ReadableOpens(tools: Tools, brain: Option<Codebook>, password: Bytes, bytes: Bytes, h: Header, bs: seq<seq<Piece>>, frames: seq<Bytes>)
    requires Readable(tools, brain, password, true, bytes, h, bs, frames, {})
    ensures var m := ReadMetadata(tools, bytes, password);
            m.Ok? && m.value.header.version >= 2 && KeyFor(tools, m.value.header, password).Ok?
  {
    hide *;
    FileOf(tools, brain, password, true, bytes, h, bs, frames);
    FileReadBack(tools, password, bytes, h, bs, frames);
    KeptFields(h);
    KeptKey(tools, h, password);
  }

  lemma ArchiveShown(tools: Tools, brain: Option<Codebook>, password: Bytes, bytes: Bytes, input: Bytes, h: Header,
                     bs: seq<seq<Piece>>, frames: seq<Bytes>)
    requires Archive(tools, brain, password, bytes, input, h, bs, frames)
    ensures Readable(tools, brain, password, true, bytes, h, bs, frames, {}) && Shown(brain, bs) == input
  {
    hide *;
    ArchiveIs(tools, brain, password, bytes, input, h, bs, frames);
    RegularIsHarmless(bs);
    ShownIff(brain, bs);
  }
}
