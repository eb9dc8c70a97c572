// What unpacking refuses, of bytes nobody vouches for (pkg/format/reader.go and
// pkg/cromlib/unpacker.go).
module Refusals {
  import opened Common
  import opened Tooling
  import opened Headers
  import opened ChunkTable
  import opened Codebooks
  import opened Blocks
  import opened Container
  import opened Unpacker
  import Coding

  // ----- headers ------------------------------------------------------------------------

  // The length of the fixed part of a header.
  function FixedPart(v: u16): nat {
    if v == 1 then 50 else if v <= 3 then 68 else if v == 4 then 80 else if v == 5 then 112 else if v <= 7 then 137 else 141
  }

  // What there has to be at the front of a stream for a header to be read: the magic
  // number, a known version, and all the bytes that version has, with the
  // micro-dictionary within its cap.
  ghost predicate HeaderThere(r: Bytes) {
    && |r| >= 50 && r[..4] == [67, 82, 79, 77]
    && var v := GetU16(r[4..6]);
       && 1 <= v <= 9 && |r| >= FixedPart(v)
       && (v >= 8 ==> GetU32(r[137..141]) <= 32 * 1024 * 1024 && |r| >= 141 + GetU32(r[137..141]))
  }

  lemma Fronts(r: Bytes, v: u16)
    requires 1 <= v <= 9 && |r| >= HeaderSize(v)
    ensures HeaderSize(v) == FixedPart(v) >= 50 && (v >= 8 ==> HeaderSize(v) == 141)
    ensures r[..6] + r[6..][..HeaderSize(v) - 6] == r[..HeaderSize(v)] && r[6..][HeaderSize(v) - 6..] == r[HeaderSize(v)..]
    ensures r[..6][4..6] == r[4..6] && (v >= 8 ==> r[..HeaderSize(v)][137..141] == r[137..141])
  {
  }

  // What is left after the version, the fixed part and the payload have been taken.
  lemma HeaderTaken(r: Bytes)
    ensures ReadHeader(r).Ok? <==>
              && |r| >= 6
              && var v := GetU16(r[4..6]);
                 && 1 <= v <= 9 && |r| >= HeaderSize(v) >= 6
                 && (v >= 8 ==> |r| >= 141)
                 && var micro := if v >= 8 then GetU32(r[137..141]) else 0;
                    micro <= MAX_MICRO_DICT && |r| >= HeaderSize(v) + micro && ParseHeader(r[..HeaderSize(v) + micro]).Ok?
    ensures ReadHeader(r).Ok? ==>
              var v := GetU16(r[4..6]);
              var micro := if v >= 8 then GetU32(r[137..141]) else 0;
              ReadHeader(r) == Ok((ParseHeader(r[..HeaderSize(v) + micro]).value, r[HeaderSize(v) + micro..]))
  {
    hide ParseHeader, GetU16, GetU32, HeaderSize;
    if |r| >= 6 {
      assert r[..6][4..6] == r[4..6];
      var v := GetU16(r[4..6]);
      if 1 <= v <= 9 {
        Sizes(v);
        if |r| >= HeaderSize(v) {
          Fronts(r, v);
          var n := HeaderSize(v);
          var micro := if v >= 8 then GetU32(r[137..141]) else 0;
          if |r| >= n + micro { Payload(r, n, micro); }
        }
      }
    }
  }

  lemma Sizes(v: u16)
    requires 1 <= v <= 9
    ensures HeaderSize(v) == FixedPart(v) >= 50 && (v >= 8 ==> HeaderSize(v) == 141)
  {
  }

  lemma Payload(r: Bytes, n: nat, micro: nat)
    requires n + micro <= |r|
    ensures r[..n] + r[n..][..micro] == r[..n + micro] && r[n..][micro..] == r[n + micro..]
  {
  }

  // Parsing, of exactly the bytes the version has.
  lemma HeaderParsed(r: Bytes, v: u16, micro: nat)
    requires |r| >= 6 && v == GetU16(r[4..6]) && 1 <= v <= 9 && |r| == HeaderSize(v) + micro
    requires micro == (if v >= 8 && |r| >= 141 then GetU32(r[137..141]) else 0) <= MAX_MICRO_DICT
    ensures ParseHeader(r).Ok? <==> r[..4] == [67, 82, 79, 77]
    ensures ParseHeader(r).Ok? ==> ParseHeader(r).value.version == v && |ParseHeader(r).value.microDict| == micro
  {
    Sizes(v);
    hide GetU16, GetU32, GetU64, HasBit;
    assert r[0..4] == r[..4];
    if v >= 8 { assert Field(r, 137, 4) == r[137..141]; }
  }

  // A header is read exactly when it is there, and takes exactly its own bytes.
  lemma HeaderReadIff(r: Bytes)
    ensures ReadHeader(r).Ok? <==> HeaderThere(r)
    ensures ReadHeader(r).Ok? ==>
              var (h, rest) := ReadHeader(r).value;
              && h.version == GetU16(r[4..6])
              && |r| == FixedPart(h.version) + |h.microDict| + |rest| && rest == r[FixedPart(h.version) + |h.microDict|..]
  {
    hide ReadHeader, ParseHeader, GetU16, GetU32, HeaderSize, FixedPart;
    HeaderTaken(r);
    if |r| >= 6 {
      var v := GetU16(r[4..6]);
      if 1 <= v <= 9 {
        Sizes(v);
        var micro := if v >= 8 && |r| >= 141 then GetU32(r[137..141]) else 0;
        var n := HeaderSize(v) + micro;
        if |r| >= n && micro <= MAX_MICRO_DICT {
          assert r[..n][4..6] == r[4..6] && r[..n][..4] == r[..4];
          if v >= 8 { assert r[..n][137..141] == r[137..141]; }
          HeaderParsed(r[..n], v, micro);
        }
      }
    }
  }

  // ----- metadata -------------------------------------------------------------------------

  lemma {:induction false} SizesTaken(r: Bytes, n: nat)
    ensures var got := ReadSizes(r, n);
            got.Ok? ==> |got.value.0| == n && |r| == 4 * n + |got.value.1| && got.value.1 == r[4 * n..]
    decreases n
  {
    hide GetU32;
    if n > 0 && |r| >= 4 {
      SizesTaken(r[4..], n - 1);
      var got := ReadSizes(r[4..], n - 1);
      if got.Ok? { assert r[4..][4 * (n - 1)..] == r[4 * n..]; }
    }
  }

  lemma TableRest(tools: Tools, key: Option<Bytes>, count: u32, r: Bytes)
    ensures var got := ReadTable(tools, key, count, r);
            got.Ok? ==>
              && |r| >= 4 && GetU32(r[..4]) <= (31 * count + 1024) + (31 * count + 1024) / 8
              && |r| == 4 + GetU32(r[..4]) + |got.value.1| && got.value.1 == r[4 + GetU32(r[..4])..]
  {
    hide GetU32, OpenTable;
    if |r| >= 4 && |r| >= 4 + GetU32(r[..4]) { Payload(r, 4, GetU32(r[..4])); }
  }

  // Entries of fixed size, with the overhead of encryption.
  function PlainSize(h: Header): nat {
    (if h.version >= 7 then 25 * h.chunkCount else 24 * h.chunkCount) + if h.isEncrypted then 28 else 0
  }

  lemma PlainRest(tools: Tools, key: Option<Bytes>, h: Header, r: Bytes)
    ensures var got := ReadPlainTable(tools, key, h, r);
            var size := PlainSize(h);
            got.Ok? ==> |r| == size + |got.value.1| && got.value.1 == r[size..]
  {
    hide ParsedTable;
  }

  // The table and the pool, which share what is left behind the block table.
  lemma TableSpan(tools: Tools, r: Bytes, password: Bytes)
    ensures var got := ReadMetadata(tools, r, password);
            got.Ok? ==>
              && ReadHeader(r).Ok?
              && var m, r2 := got.value, AfterSizes(got.value.header, ReadHeader(r).value.1);
                 && 0 <= m.tableBytes && |r2| == m.tableBytes + |m.pool| && m.pool == r2[m.tableBytes..]
                 && m.tableBytes <= TableCap(m.header)
  {
    hide *;
    MetadataSteps(tools, r, password);
    var got := ReadMetadata(tools, r, password);
    if got.Ok? {
      var m := got.value;
      var h, r2 := m.header, AfterSizes(m.header, ReadHeader(r).value.1);
      CapIs(h);
      assert r2[0..] == r2;
      TableRest(tools, m.key, h.chunkCount, r2);
      PlainRest(tools, m.key, h, r2);
    }
  }

  // How long a table can be.
  function TableCap(h: Header): nat {
    var columns := 31 * h.chunkCount + 1024;
    if h.chunkCount == 0 then 0 else if h.compressedTable then 4 + columns + columns / 8 else PlainSize(h)
  }

  lemma CapIs(h: Header)
    ensures h.chunkCount > 0 && h.compressedTable ==> TableCap(h) == 4 + (31 * h.chunkCount + 1024) + (31 * h.chunkCount + 1024) / 8
    ensures h.chunkCount > 0 && !h.compressedTable ==> TableCap(h) == PlainSize(h)
    ensures TableCap(h) >= 0
  {
  }

  // Of any file that is read: the header is there, then come one size a block and a
  // table within its cap, and the pool is all the rest.
  lemma MetadataLayout(tools: Tools, r: Bytes, password: Bytes)
    ensures var got := ReadMetadata(tools, r, password);
            got.Ok? ==>
              var m := got.value;
              var before := FixedPart(m.header.version) + |m.header.microDict| + 4 * |m.sizes|;
              && HeaderThere(r) && m.header.version == GetU16(r[4..6])
              && 0 <= m.tableBytes <= TableCap(m.header)
              && |r| == before + m.tableBytes + |m.pool| && m.pool == r[before + m.tableBytes..]
  {
    hide *;
    HeaderReadIff(r);
    MetadataSteps(tools, r, password);
    TableSpan(tools, r, password);
    var got := ReadMetadata(tools, r, password);
    if got.Ok? {
      var m := got.value;
      var h, r1, r2 := m.header, ReadHeader(r).value.1, AfterSizes(m.header, ReadHeader(r).value.1);
      SizesTaken(r1, NumBlocks(h.chunkCount, h.originalSize));
      assert r1[0..] == r1;
      Tail(r, FixedPart(h.version) + |h.microDict|, 4 * |m.sizes|, m.tableBytes, r1, r2, m.pool);
    }
  }

  // And what the parts agree on: a password if the header asks for one, and then the
  // key made from that; as many sizes as blocks; as many entries as announced.
  lemma MetadataAgrees(tools: Tools, r: Bytes, password: Bytes)
    ensures var got := ReadMetadata(tools, r, password);
            got.Ok? ==>
              var m := got.value;
              var h := m.header;
              && (h.isEncrypted ==> password != [] && m.key == Some(tools.deriveKey(password, h.salt)))
              && (!h.isEncrypted ==> m.key == None)
              && |m.sizes| == (if h.version >= 2 then NumBlocks(h.chunkCount, h.originalSize) else 0)
              && |m.entries| == h.chunkCount
  {
    hide *;
    MetadataShape(tools, r, password);
    MetadataSteps(tools, r, password);
    var got := ReadMetadata(tools, r, password);
    if got.Ok? {
      var m := got.value;
      KeyIs(tools, m.header, password);
      SizesTaken(ReadHeader(r).value.1, NumBlocks(m.header.chunkCount, m.header.originalSize));
    }
  }

  // What is left behind the block table.
  function AfterSizes(h: Header, r1: Bytes): Bytes {
    var n := NumBlocks(h.chunkCount, h.originalSize);
    if h.version >= 2 && |r1| >= 4 * n then r1[4 * n..] else r1
  }

  lemma KeyIs(tools: Tools, h: Header, password: Bytes)
    ensures var key := KeyFor(tools, h, password);
            key.Ok? ==> if h.isEncrypted then password != [] && key.value == Some(tools.deriveKey(password, h.salt)) else key.value == None
  {
  }

  lemma MetadataSteps(tools: Tools, r: Bytes, password: Bytes)
    ensures var got := ReadMetadata(tools, r, password);
            got.Ok? ==>
              && ReadHeader(r).Ok? && got.value.header == ReadHeader(r).value.0
              && var m, r1 := got.value, ReadHeader(r).value.1;
                 var h := m.header;
                 var n := NumBlocks(h.chunkCount, h.originalSize);
                 var r2 := AfterSizes(h, r1);
                 && KeyFor(tools, h, password) == Ok(m.key)
                 && (h.version >= 2 ==> ReadSizes(r1, n) == Ok((m.sizes, r2)) && |r1| >= 4 * n && r2 == r1[4 * n..])
                 && (h.version < 2 ==> m.sizes == [] && r2 == r1)
                 && (h.chunkCount == 0 ==> m.tableBytes == 0 && m.pool == r2)
                 && (h.chunkCount > 0 ==>
                      && m.tableBytes == |r2| - |m.pool|
                      && (h.compressedTable ==> ReadTable(tools, m.key, h.chunkCount, r2).Ok? && ReadTable(tools, m.key, h.chunkCount, r2).value.1 == m.pool)
                      && (!h.compressedTable ==> ReadPlainTable(tools, m.key, h, r2).Ok? && ReadPlainTable(tools, m.key, h, r2).value.1 == m.pool))
  {
    hide ReadHeader, KeyFor, ReadSizes, ReadTable, ReadPlainTable, NumBlocks;
    var got := ReadHeader(r);
    if got.Ok? { SizesTaken(got.value.1, NumBlocks(got.value.0.chunkCount, got.value.0.originalSize)); }
  }

  lemma Tail(r: Bytes, a: nat, b: nat, c: nat, r1: Bytes, r2: Bytes, pool: Bytes)
    requires a + |r1| == |r| && r1 == r[a..] && b + |r2| == |r1| && r2 == r1[b..] && c + |pool| == |r2| && pool == r2[c..]
    ensures |r| == a + b + c + |pool| && pool == r[a + b + c..]
  {
  }

  // ----- blocks ------------------------------------------------------------------------------

  // From block i on, every frame is there and is decrypted; a strict run also
  // decompresses each.
  ghost predicate FramesThere(job: Job, i: nat, stream: Bytes)
    decreases |job.sizes| - i
  {
    i < |job.sizes| ==>
      && |stream| >= job.sizes[i]
      && (var frame := stream[..job.sizes[i]];
          var plain := if job.key.Some? then job.tools.decrypt(job.key.value, frame) else Ok(frame);
          && plain.Ok? && (job.strict && plain.value != [] ==> job.tools.unzstd(plain.value, job.dict).Ok?))
      && FramesThere(job, i + 1, stream[job.sizes[i]..])
  }

  lemma {:induction false} ChunksLeaveStream(job: Job, pool: Bytes, count: nat, s: State)
    ensures var t := ChunkSteps(job, pool, count, s); t.Ok? ==> t.value.stream == s.stream
    decreases count
  {
    hide Coding.Rebuilt, Sub64, Add64;
    if count > 0 && s.next < |job.entries| {
      var t := ChunkStep(job, pool, s);
      if t.Ok? { ChunksLeaveStream(job, pool, count - 1, t.value); }
    }
  }

  lemma FrameTaken(job: Job, i: nat, s: State)
    requires i < |job.sizes| == |job.starts|
    ensures var t := BlockStep(job, i, s);
            t.Ok? ==>
              && |s.stream| >= job.sizes[i] && t.value.stream == s.stream[job.sizes[i]..]
              && var frame := s.stream[..job.sizes[i]];
                 var plain := if job.key.Some? then job.tools.decrypt(job.key.value, frame) else Ok(frame);
                 && plain.Ok? && (job.strict && plain.value != [] ==> job.tools.unzstd(plain.value, job.dict).Ok?)
  {
    hide ChunkSteps, BlockRange, ZeroFill;
    if |s.stream| >= job.sizes[i] {
      var frame := s.stream[..job.sizes[i]];
      var plain := if job.key.Some? then job.tools.decrypt(job.key.value, frame) else Ok(frame);
      if plain.Ok? {
        var pool := job.tools.DecompressPool(plain.value, job.dict);
        var (first, end) := BlockRange(job.starts, i, |job.entries|);
        if pool.Ok? { ChunksLeaveStream(job, pool.value, if end > first then end - first else 0, s.(stream := s.stream[job.sizes[i]..])); }
      }
    }
  }

  lemma {:induction false} BlocksNeedFrames(job: Job, i: nat, s: State)
    requires |job.sizes| == |job.starts|
    ensures BlockSteps(job, i, s).Ok? ==> FramesThere(job, i, s.stream)
    decreases |job.sizes| - i
  {
    hide BlockStep;
    if i < |job.sizes| {
      FrameTaken(job, i, s);
      var t := BlockStep(job, i, s);
      if t.Ok? { BlocksNeedFrames(job, i + 1, t.value); }
    }
  }

  // Whatever the bytes are, a file with chunks is unpacked only if it is of a version
  // with blocks, its table has as many blocks as the block table, no entry asks for a
  // brain that is not there, and its frames are there and open: in tolerant mode too
  // an end in the middle of a frame, or a frame of another key, is refused.
  lemma UnpackNeeds(tools: Tools, brain: Option<Codebook>, password: Bytes, strict: bool, data: Bytes)
    ensures Unpacked(tools, brain, password, strict, data).Ok? ==>
              && ReadMetadata(tools, data, password).Ok?
              && var m := ReadMetadata(tools, data, password).value;
                 m.header.chunkCount > 0 && !m.header.isPassthrough ==>
                   && m.header.version >= 2 && |StartsFrom(m.entries, 0, 0)| == |m.sizes|
                   && (brain.None? ==> !m.header.usesBrainDict && forall e :: e in m.entries ==> e.id == 0xFFFF_FFFF_FFFF_FFFF || e.index == FRACTAL_INDEX)
                   && var dict := if m.header.usesBrainDict then brain.value.dictionary else [];
                      FramesThere(Job(tools, brain, dict, m.key, strict, m.entries, StartsFrom(m.entries, 0, 0), m.sizes), 0, m.pool)
  {
    hide ReadMetadata, StartsFrom, BlockSteps, FramesThere;
    var m := ReadMetadata(tools, data, password);
    if m.Ok? {
      var job := JobFor(tools, brain, strict, m.value);
      if job.Ok? { BlocksNeedFrames(job.value, 0, Start0(m.value)); }
    }
  }
}
