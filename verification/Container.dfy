// The file around the chunks: header, block table, compressed chunk table and
// one frame per block (pkg/format/reader.go, internal/delta/compress.go).
module Container {
  import opened Common
  import opened Tooling
  import opened Headers
  import opened ChunkTable
  import opened Blocks

  // maxColumnBytesPerEntry
  const MAX_COLUMN_BYTES: nat := 31

  // ----- frames ---------------------------------------------------------------------

  // The frame of a block, as written and as read. An absent key means no encryption.
  function Frame(tools: Tools, key: Option<Bytes>, nonce: Bytes, dict: Bytes, pool: Bytes): Bytes {
    var frame := tools.CompressPool(pool, dict);
    if key.Some? then tools.encrypt(key.value, nonce, frame) else frame
  }

  function OpenFrame(tools: Tools, key: Option<Bytes>, dict: Bytes, frame: Bytes): Result<Bytes> {
    var plain :- if key.Some? then tools.decrypt(key.value, frame) else Ok(frame);
    tools.DecompressPool(plain, dict)
  }

  lemma FrameRoundTrip(tools: Tools, key: Option<Bytes>, nonce: Bytes, dict: Bytes, pool: Bytes)
    requires tools.Valid()
    ensures OpenFrame(tools, key, dict, Frame(tools, key, nonce, dict, pool)) == Ok(pool)
    ensures |Frame(tools, key, nonce, dict, pool)| <= |pool| + |pool| / 8 + 540
  {
  }

  // With a key, what is stored is ciphertext of the compressed pool, and a frame that
  // cannot be decrypted does not open; without one it is the compressed pool.
  lemma FrameSealed(tools: Tools, key: Option<Bytes>, nonce: Bytes, dict: Bytes, pool: Bytes, frame: Bytes)
    ensures key.Some? ==> Frame(tools, key, nonce, dict, pool) == tools.encrypt(key.value, nonce, if pool == [] then [] else tools.zstd(pool, dict))
    ensures key.None? ==> Frame(tools, key, nonce, dict, pool) == if pool == [] then [] else tools.zstd(pool, dict)
    ensures key.Some? && tools.decrypt(key.value, frame).Err? ==> OpenFrame(tools, key, dict, frame).Err?
  {
  }

  lemma TableSealed(tools: Tools, key: Option<Bytes>, nonce: Bytes, es: seq<ChunkEntry>)
    ensures var table := tools.tableZstd(Encoded(es));
            var blob := if key.Some? then tools.encrypt(key.value, nonce, table) else table;
            TableBytes(tools, key, nonce, es) == U32(|blob| % TWO_TO_32) + blob
  {
    hide Encoded, U32;
  }

  // ----- the chunk table -------------------------------------------------------------

  function TableBlob(tools: Tools, key: Option<Bytes>, nonce: Bytes, es: seq<ChunkEntry>): Bytes {
    var blob := tools.tableZstd(Encoded(es));
    if key.Some? then tools.encrypt(key.value, nonce, blob) else blob
  }

  // EncodeCompressedTable: the blob behind its 32-bit length.
  function TableBytes(tools: Tools, key: Option<Bytes>, nonce: Bytes, es: seq<ChunkEntry>): Bytes {
    var blob := TableBlob(tools, key, nonce, es);
    U32(|blob| % TWO_TO_32) + blob
  }

  function MaxTable(count: u32): nat { count * MAX_COLUMN_BYTES + 1024 }

  function OpenTable(tools: Tools, key: Option<Bytes>, count: u32, blob: Bytes): Result<seq<ChunkEntry>> {
    var plain :- if key.Some? then tools.decrypt(key.value, blob) else Ok(blob);
    var table :- tools.tableUnzstd(plain, MaxTable(count));
    Decoded(table, count)
  }

  // readCompressedTable: the entries and the rest of the stream.
  function ReadTable(tools: Tools, key: Option<Bytes>, count: u32, r: Bytes): Result<(seq<ChunkEntry>, Bytes)> {
    var (head, r1) :- ReadFull(r, 4);
    var size := GetU32(head);
    if size > MaxTable(count) + MaxTable(count) / 8 then Err(BadTable)
    else
      var (blob, r2) :- ReadFull(r1, size);
      var es :- OpenTable(tools, key, count, blob);
      Ok((es, r2))
  }

  // A table is accepted by the reader's size limits whatever it holds, and read
  // back exactly when no ID wraps.
  lemma TableReadBack(tools: Tools, key: Option<Bytes>, nonce: Bytes, es: seq<ChunkEntry>, rest: Bytes)
    requires tools.Valid() && |es| < TWO_TO_32 && |TableBlob(tools, key, nonce, es)| < TWO_TO_32
    ensures ReadTable(tools, key, |es|, TableBytes(tools, key, nonce, es) + rest) == Ok((es, rest)) <==> NoWrap(es, 0, 0)
  {
    hide *;
    var blob := TableBlob(tools, key, nonce, es);
    var head := U32(|blob|);
    TableRoundTrip(es);
    BlobOpens(tools, key, nonce, es);
    GetU32Put(|blob|);
    TableSplit(tools, key, nonce, es, rest);
    ReadExactly(head, blob + rest);
    ReadExactly(blob, rest);
    ReadTableInParts(tools, key, |es|, head + (blob + rest), head, blob + rest, blob, rest);
  }

  // For tables of any size: the count and the length of the blob are kept in 32
  // bits, so a table is read back exactly when both fit and no ID wraps.
  lemma TableReadIff(tools: Tools, key: Option<Bytes>, nonce: Bytes, es: seq<ChunkEntry>, rest: Bytes)
    requires tools.Valid()
    ensures ReadTable(tools, key, |es| % TWO_TO_32, TableBytes(tools, key, nonce, es) + rest) == Ok((es, rest)) <==>
              |es| < TWO_TO_32 && |TableBlob(tools, key, nonce, es)| < TWO_TO_32 && NoWrap(es, 0, 0)
  {
    hide *;
    var blob := TableBlob(tools, key, nonce, es);
    var width := InWidth(|blob|);
    var count := InWidth(|es|);
    if |es| < TWO_TO_32 && |blob| < TWO_TO_32 {
      TableReadBack(tools, key, nonce, es, rest);
    } else {
      var r := TableBytes(tools, key, nonce, es) + rest;
      TableCount(tools, key, count, r);
      TableTaken(tools, key, count, r);
      TableHead(tools, key, nonce, es, rest);
      GetU32Put(width);
    }
  }

  lemma InWidth(n: nat) returns (w: u32)
    ensures w == n % TWO_TO_32 && (w == n <==> n < TWO_TO_32)
  {
    w := n % TWO_TO_32;
  }

  // What reading a table takes off the stream.
  lemma TableTaken(tools: Tools, key: Option<Bytes>, count: u32, r: Bytes)
    ensures var got := ReadTable(tools, key, count, r);
            got.Ok? ==> |r| >= 4 && |r| == 4 + GetU32(r[..4]) + |got.value.1|
  {
    hide GetU32, OpenTable, MaxTable;
  }

  lemma TableHead(tools: Tools, key: Option<Bytes>, nonce: Bytes, es: seq<ChunkEntry>, rest: Bytes)
    ensures var blob, r := TableBlob(tools, key, nonce, es), TableBytes(tools, key, nonce, es) + rest;
            |r| == 4 + |blob| + |rest| && r[..4] == U32(|blob| % TWO_TO_32)
  {
    hide TableBlob, U32;
  }

  lemma TableSplit(tools: Tools, key: Option<Bytes>, nonce: Bytes, es: seq<ChunkEntry>, rest: Bytes)
    requires |TableBlob(tools, key, nonce, es)| < TWO_TO_32
    ensures var blob := TableBlob(tools, key, nonce, es);
            TableBytes(tools, key, nonce, es) + rest == U32(|blob|) + (blob + rest)
  {
    hide TableBlob, U32;
  }

  lemma ReadTableInParts(tools: Tools, key: Option<Bytes>, count: u32, r: Bytes, head: Bytes, r1: Bytes, blob: Bytes, rest: Bytes)
    requires |head| == 4 && ReadFull(r, 4) == Ok((head, r1)) && ReadFull(r1, |blob|) == Ok((blob, rest))
    requires GetU32(head) == |blob| <= MaxTable(count) + MaxTable(count) / 8
    ensures var table := OpenTable(tools, key, count, blob);
            ReadTable(tools, key, count, r) == if table.Ok? then Ok((table.value, rest)) else Err(table.error)
  {
    hide ReadFull, GetU32, OpenTable, MaxTable;
  }

  lemma BlobOpens(tools: Tools, key: Option<Bytes>, nonce: Bytes, es: seq<ChunkEntry>)
    requires tools.Valid() && |es| < TWO_TO_32 && |Encoded(es)| <= 31 * |es| + 40
    ensures var blob := TableBlob(tools, key, nonce, es);
            && OpenTable(tools, key, |es|, blob) == Decoded(Encoded(es), |es|)
            && |blob| <= MaxTable(|es|) + MaxTable(|es|) / 8
  {
    hide Encoded, Decoded;
  }

  // Tables of files without CompressedTable: fixed-size entries.
  function EntrySize(version: u16): nat { if version >= 7 then 25 else 24 }

  function ParsedTable(data: Bytes, count: nat, version: u16): Result<seq<ChunkEntry>>
    decreases count
  {
    var size := EntrySize(version);
    if |data| < count * size then Err(BadTable)
    else if count == 0 then Ok([])
    else
      assert size <= count * size;
      var e := ChunkEntry(GetU64(data[0..8]), GetU64(data[8..16]), GetU32(data[16..20]), GetU32(data[20..24]),
                          if version >= 7 then data[24] else 0);
      var rest :- ParsedTable(data[size..], count - 1, version);
      Ok([e] + rest)
  }

  function ReadPlainTable(tools: Tools, key: Option<Bytes>, h: Header, r: Bytes): Result<(seq<ChunkEntry>, Bytes)> {
    var (raw, rest) :- ReadFull(r, h.chunkCount * EntrySize(h.version) + if h.isEncrypted then 28 else 0);
    var plain :- if key.Some? then tools.decrypt(key.value, raw) else Ok(raw);
    var es :- ParsedTable(plain, h.chunkCount, h.version);
    Ok((es, rest))
  }

  // ----- the block table ------------------------------------------------------------------

  function SizesBytes(sizes: seq<u32>, i: nat): Bytes
    requires i <= |sizes|
    decreases |sizes| - i
  {
    if i == |sizes| then [] else U32(sizes[i]) + SizesBytes(sizes, i + 1)
  }

  function ReadSizes(r: Bytes, n: nat): Result<(seq<u32>, Bytes)> {
    if n == 0 then Ok(([], r))
    else
      var (head, r1) :- ReadFull(r, 4);
      var (sizes, r2) :- ReadSizes(r1, n - 1);
      Ok(([GetU32(head)] + sizes, r2))
  }

  lemma {:induction false} SizesReadBack(sizes: seq<u32>, i: nat, rest: Bytes)
    requires i <= |sizes|
    ensures ReadSizes(SizesBytes(sizes, i) + rest, |sizes| - i) == Ok((sizes[i..], rest))
    decreases |sizes| - i
  {
    if i == |sizes| {
      assert [] + rest == rest;
    } else {
      SizesReadBack(sizes, i + 1, rest);
      GetU32Put(sizes[i]);
      hide U32, GetU32;
      ReadExactly(U32(sizes[i]), SizesBytes(sizes, i + 1) + rest);
      assert SizesBytes(sizes, i) + rest == U32(sizes[i]) + (SizesBytes(sizes, i + 1) + rest);
      assert sizes[i..] == [sizes[i]] + sizes[i + 1..];
    }
  }

  // ----- reading the metadata --------------------------------------------------------------

  // The pool is the stream from the first frame on; tableBytes is what the chunk
  // table took of it before.
  datatype Metadata = Metadata(header: Header, key: Option<Bytes>, sizes: seq<u32>, entries: seq<ChunkEntry>, tableBytes: int, pool: Bytes)

  // The length of the micro-dictionary that follows the fixed part of a header.
  function MicroSize(v: u16, fixed: Bytes): u32
    requires v >= 8 ==> |fixed| >= 141
  {
    if v >= 8 then GetU32(fixed[137..141]) else 0
  }

  // The header off the front of a stream, its length known from the version and,
  // from version 8 on, from its own micro-dictionary field.
  function ReadHeader(r: Bytes): Result<(Header, Bytes)> {
    var (meta, r1) :- ReadFull(r, 6);
    var v := GetU16(meta[4..6]);
    if v == 0 || v > 9 then Err(BadVersion)
    else
      var (base, r2) :- ReadFull(r1, HeaderSize(v) - 6);
      var fixed := meta + base;
      var micro := MicroSize(v, fixed);
      if micro > MAX_MICRO_DICT then Err(BadHeader)
      else
        var (payload, r3) :- ReadFull(r2, micro);
        var h :- ParseHeader(fixed + payload);
        Ok((h, r3))
  }

  // The key a header calls for, from the password given.
  function KeyFor(tools: Tools, h: Header, password: Bytes): Result<Option<Bytes>> {
    if !h.isEncrypted then Ok(None)
    else if password == [] then Err(NoKey)
    else Ok(Some(tools.deriveKey(password, h.salt)))
  }

  function ReadMetadata(tools: Tools, r: Bytes, password: Bytes): Result<Metadata> {
    var (h, r1) :- ReadHeader(r);
    var key :- KeyFor(tools, h, password);
    var (sizes, r2) :- if h.version >= 2 then ReadSizes(r1, NumBlocks(h.chunkCount, h.originalSize)) else Ok(([], r1));
    if h.chunkCount == 0 then Ok(Metadata(h, key, sizes, [], 0, r2))
    else
      var (es, pool) :- if h.compressedTable then ReadTable(tools, key, h.chunkCount, r2) else ReadPlainTable(tools, key, h, r2);
      Ok(Metadata(h, key, sizes, es, |r2| - |pool|, pool))
  }

  // What every file that is read satisfies: as many entries as the header
  // announces, and a digest of 32 bytes.
  lemma MetadataShape(tools: Tools, r: Bytes, password: Bytes)
    ensures var m := ReadMetadata(tools, r, password);
            m.Ok? ==> |m.value.entries| == m.value.header.chunkCount && |m.value.header.originalHash| == 32
  {
    var h := ReadHeader(r);
    if h.Ok? {
      HashWidth(r);
      var key := KeyFor(tools, h.value.0, password);
      var sizes := if h.value.0.version >= 2 then ReadSizes(h.value.1, NumBlocks(h.value.0.chunkCount, h.value.0.originalSize)) else Ok(([], h.value.1));
      if key.Ok? && sizes.Ok? {
        TableCount(tools, key.value, h.value.0.chunkCount, sizes.value.1);
        PlainCount(tools, key.value, h.value.0, sizes.value.1);
      }
    }
    hide ReadHeader, KeyFor, ReadSizes, NumBlocks, ReadTable, ReadPlainTable;
  }

  lemma HashWidth(r: Bytes)
    ensures ReadHeader(r).Ok? ==> |ReadHeader(r).value.0.originalHash| == 32
  {
    hide GetU16, GetU32, GetU64, MicroSize, HasBit;
  }

  lemma TableCount(tools: Tools, key: Option<Bytes>, count: u32, r: Bytes)
    ensures ReadTable(tools, key, count, r).Ok? ==> |ReadTable(tools, key, count, r).value.0| == count
  {
    var head := ReadFull(r, 4);
    if head.Ok? {
      var size := GetU32(head.value.0);
      var body := ReadFull(head.value.1, size);
      if body.Ok? { OpenedCount(tools, key, count, body.value.0); }
    }
    hide OpenTable, GetU32, MaxTable;
  }

  lemma OpenedCount(tools: Tools, key: Option<Bytes>, count: u32, blob: Bytes)
    ensures OpenTable(tools, key, count, blob).Ok? ==> |OpenTable(tools, key, count, blob).value| == count
  {
    var plain := if key.Some? then tools.decrypt(key.value, blob) else Ok(blob);
    if plain.Ok? {
      var table := tools.tableUnzstd(plain.value, MaxTable(count));
      if table.Ok? { DecodedCount(table.value, count); }
    }
    hide Decoded;
  }

  lemma {:induction false} ParsedCount(data: Bytes, count: nat, version: u16)
    ensures ParsedTable(data, count, version).Ok? ==> |ParsedTable(data, count, version).value| == count
    decreases count
  {
    var size := EntrySize(version);
    if count > 0 && |data| >= count * size {
      assert size <= count * size;
      ParsedCount(data[size..], count - 1, version);
      hide GetU32, GetU64;
    }
  }

  lemma PlainCount(tools: Tools, key: Option<Bytes>, h: Header, r: Bytes)
    ensures ReadPlainTable(tools, key, h, r).Ok? ==> |ReadPlainTable(tools, key, h, r).value.0| == h.chunkCount
  {
    var raw := ReadFull(r, h.chunkCount * EntrySize(h.version) + if h.isEncrypted then 28 else 0);
    if raw.Ok? {
      var plain := if key.Some? then tools.decrypt(key.value, raw.value.0) else Ok(raw.value.0);
      if plain.Ok? { ParsedCount(plain.value, h.chunkCount, h.version); }
    }
    hide ReadFull, ParsedTable, EntrySize;
  }

  lemma HeaderReadBack(h: Header, rest: Bytes)
    requires h.Valid()
    ensures ReadHeader(Serialized(h) + rest) == Ok((Kept(h), rest))
  {
    hide *;
    var data, v := Serialized(h), Written(h.version);
    HeaderRoundTrip(h);
    HeaderStarts(h, data, v);
    var n := HeaderSize(v);
    var meta, base, payload := data[..6], data[6..n], data[n..];
    Pieces(data, rest, n);
    ReadExactly(meta, base + (payload + rest));
    ReadExactly(base, payload + rest);
    ReadExactly(payload, rest);
    ReadHeaderInParts(data + rest, v, meta, base, payload, rest, Kept(h));
  }

  lemma Pieces(data: Bytes, rest: Bytes, n: nat)
    requires 6 <= n <= |data|
    ensures data + rest == data[..6] + (data[6..n] + (data[n..] + rest))
    ensures (data[..6] + data[6..n]) + data[n..] == data
  {
  }

  lemma HeaderStarts(h: Header, data: Bytes, v: u16)
    requires h.Valid() && data == Serialized(h) && v == Written(h.version)
    requires |data| == HeaderSize(v) + if v == 8 then |h.microDict| else 0
    ensures 1 <= v <= 8 && 50 <= HeaderSize(v) <= |data| && GetU16(data[..6][4..6]) == v
    ensures v >= 8 ==> HeaderSize(v) == 141
    ensures MicroSize(v, data[..6] + data[6..HeaderSize(v)]) == |data| - HeaderSize(v) <= MAX_MICRO_DICT
  {
    hide *;
    WrittenIsKnown(h.version);
    SizeBounds(v);
    Prelude(h, data);
    assert data[..6][4..6] == data[4..6];
    var fixed := data[..6] + data[6..HeaderSize(v)];
    NoMicro(v, fixed);
    if v == 8 {
      MicroField(h, data);
      assert fixed[137..141] == data[137..141];
      Micro(v, fixed);
    }
  }

  lemma SizeBounds(v: u16)
    requires 1 <= v <= 8
    ensures 50 <= HeaderSize(v) && (v == 8 ==> HeaderSize(v) == 141)
  {
  }

  lemma NoMicro(v: u16, fixed: Bytes)
    requires v >= 8 ==> |fixed| >= 141
    ensures v < 8 ==> MicroSize(v, fixed) == 0 <= MAX_MICRO_DICT
  {
  }

  lemma Micro(v: u16, fixed: Bytes)
    requires v >= 8 && |fixed| >= 141
    ensures MicroSize(v, fixed) == GetU32(fixed[137..141])
  {
  }

  lemma ReadHeaderInParts(r: Bytes, v: u16, meta: Bytes, base: Bytes, payload: Bytes, rest: Bytes, h: Header)
    requires |meta| == 6 && GetU16(meta[4..6]) == v && 1 <= v <= 9 && |base| == HeaderSize(v) - 6 && HeaderSize(v) >= 50
    requires v >= 8 ==> HeaderSize(v) == 141
    requires MicroSize(v, meta + base) == |payload| <= MAX_MICRO_DICT
    requires ReadFull(r, |meta|) == Ok((meta, base + (payload + rest)))
    requires ReadFull(base + (payload + rest), |base|) == Ok((base, payload + rest))
    requires ReadFull(payload + rest, |payload|) == Ok((payload, rest))
    requires ParseHeader((meta + base) + payload) == Ok(h)
    ensures ReadHeader(r) == Ok((h, rest))
  {
    hide ReadFull, ParseHeader, GetU16, MicroSize, HeaderSize;
  }

  lemma MicroField(h: Header, data: Bytes)
    requires h.Valid() && data == Serialized(h) && Written(h.version) == 8
    ensures |data| == 141 + h.microDictSize && GetU32(data[137..141]) == h.microDictSize <= MAX_MICRO_DICT
  {
    Prelude(h, data);
    BaseFields(h, data, 8);
    LateFields(h, data, 8);
    GetU32Put(h.microDictSize);
    HeaderRoundTrip(h);
    hide Serialized, ParseHeader, Kept, GetU32, U32, From6, From68;
    assert Field(data, 137, 4) == data[137..141];
  }

  // A file whose header asks for a key is not read without a password.
  lemma NoKeyNoFile(tools: Tools, h: Header, rest: Bytes)
    requires h.Valid() && 5 <= h.version <= 8 && h.isEncrypted
    ensures ReadMetadata(tools, Serialized(h) + rest, []) == Err(NoKey)
  {
    HeaderReadBack(h, rest);
    KeptFields(h);
    hide Serialized, Kept, ReadHeader, Header.Valid;
  }

  // ----- whole files ------------------------------------------------------------------------

  // The frames one after the other, from frame i on.
  function Concat(frames: seq<Bytes>, i: nat): Bytes
    requires i <= |frames|
    decreases |frames| - i
  {
    if i == |frames| then [] else frames[i] + Concat(frames, i + 1)
  }

  function Lengths(frames: seq<Bytes>): (sizes: seq<u32>)
    ensures |sizes| == |frames|
  {
    seq(|frames|, i requires 0 <= i < |frames| => |frames[i]| % TWO_TO_32)
  }

  function FileBytes(tools: Tools, key: Option<Bytes>, nonce: Bytes, h: Header, es: seq<ChunkEntry>, frames: seq<Bytes>): Bytes
    requires h.Valid()
  {
    Serialized(h) + (SizesBytes(Lengths(frames), 0) + (TableBytes(tools, key, nonce, es) + Concat(frames, 0)))
  }

  // A file whose table describes the blocks bs and that holds one frame a block;
  // nothing is said here about what is in the frames.
  ghost predicate IsFile(tools: Tools, password: Bytes, bytes: Bytes, h: Header, bs: seq<seq<Piece>>, frames: seq<Bytes>)
  {
    && h.Valid() && 5 <= h.version <= 8 && h.compressedTable
    && WellFormed(bs) && bs != [] && |frames| == |bs| && Original(bs, |bs|) < TWO_TO_63
    && h.chunkCount == Start(bs, |bs|) && h.originalSize == Original(bs, |bs|)
    && KeyFor(tools, h, password).Ok?
    && (forall k :: 0 <= k < |frames| ==> |frames[k]| < TWO_TO_32)
    && NoWrap(Entries(bs, |bs|), 0, 0)
    && exists nonce: Bytes ::
         var key := KeyFor(tools, h, password).value;
         |TableBlob(tools, key, nonce, Entries(bs, |bs|))| < TWO_TO_32
         && bytes == FileBytes(tools, key, nonce, h, Entries(bs, |bs|), frames)
  }

  // The reader finds the header, the frame sizes, the table, and stops where the
  // first frame starts.
  lemma FileReadBack(tools: Tools, password: Bytes, bytes: Bytes, h: Header, bs: seq<seq<Piece>>, frames: seq<Bytes>)
    requires tools.Valid() && IsFile(tools, password, bytes, h, bs, frames)
    ensures ReadMetadata(tools, bytes, password) ==
            Ok(Metadata(Kept(h), KeyFor(tools, h, password).value, Lengths(frames), Entries(bs, |bs|), TableSpace(bytes, h, frames), Concat(frames, 0)))
  {
    hide *;
    var nonce := FileParts(tools, password, bytes, h, bs, frames);
    var es, key := Entries(bs, |bs|), KeyFor(tools, h, password).value;
    var r2 := TableBytes(tools, key, nonce, es) + Concat(frames, 0);
    var r1 := SizesBytes(Lengths(frames), 0) + r2;
    HeaderReadBack(h, r1);
    SizesReadBack(Lengths(frames), 0, r2);
    assert Lengths(frames)[0..] == Lengths(frames);
    BlocksCounted(bs);
    KeptKey(tools, h, password);
    TableReadBack(tools, key, nonce, es, Concat(frames, 0));
    KeptFields(h);
    SpaceIs(h, frames, TableBytes(tools, key, nonce, es));
    ReadInParts(tools, bytes, password, Kept(h), key, r1, r2, Lengths(frames), es, Concat(frames, 0));
  }

  // What is left of a file for its table once header, sizes and frames are out.
  ghost function TableSpace(bytes: Bytes, h: Header, frames: seq<Bytes>): int
  {
    |bytes| - |Serialized(h)| - |SizesBytes(Lengths(frames), 0)| - |Concat(frames, 0)|
  }

  lemma SpaceIs(h: Header, frames: seq<Bytes>, table: Bytes)
    ensures TableSpace(Serialized(h) + (SizesBytes(Lengths(frames), 0) + (table + Concat(frames, 0))), h, frames) == |table|
    ensures |table + Concat(frames, 0)| - |Concat(frames, 0)| == |table|
  {
    hide Serialized, SizesBytes, Concat;
  }

  // The facts of IsFile, with its nonce.
  lemma FileParts(tools: Tools, password: Bytes, bytes: Bytes, h: Header, bs: seq<seq<Piece>>, frames: seq<Bytes>)
    returns (nonce: Bytes)
    requires IsFile(tools, password, bytes, h, bs, frames)
    ensures h.Valid() && 5 <= h.version <= 8 && h.compressedTable && WellFormed(bs) && bs != [] && |frames| == |bs|
    ensures 0 < h.chunkCount == |Entries(bs, |bs|)| == Start(bs, |bs|) < TWO_TO_32
    ensures h.originalSize == Original(bs, |bs|) < TWO_TO_63
    ensures KeyFor(tools, h, password).Ok? && NoWrap(Entries(bs, |bs|), 0, 0)
    ensures forall k :: 0 <= k < |frames| ==> |frames[k]| < TWO_TO_32
    ensures var es, key := Entries(bs, |bs|), KeyFor(tools, h, password).value;
            && |TableBlob(tools, key, nonce, es)| < TWO_TO_32
            && bytes == Serialized(h) + (SizesBytes(Lengths(frames), 0) + (TableBytes(tools, key, nonce, es) + Concat(frames, 0)))
  {
    StartsAtLeast(bs, |bs|);
    hide Serialized, SizesBytes, TableBytes, Concat, TableBlob, Header.Valid, Lengths, NoWrap, Entries, KeyFor;
    var es, key := Entries(bs, |bs|), KeyFor(tools, h, password).value;
    nonce :| |TableBlob(tools, key, nonce, es)| < TWO_TO_32 && bytes == FileBytes(tools, key, nonce, h, es, frames);
  }

  lemma KeptKey(tools: Tools, h: Header, password: Bytes)
    requires h.Valid() && 5 <= h.version <= 8
    ensures KeyFor(tools, Kept(h), password) == KeyFor(tools, h, password)
  {
  }

  lemma KeptFields(h: Header)
    requires h.Valid() && 5 <= h.version <= 8
    ensures var k := Kept(h);
            && k.version == h.version && k.isEncrypted == h.isEncrypted && k.isPassthrough == h.isPassthrough
            && k.isLossy == h.isLossy && k.usesBrainDict == h.usesBrainDict && k.compressedTable == h.compressedTable
            && k.salt == h.salt && k.originalHash == h.originalHash && k.originalSize == h.originalSize
            && k.chunkCount == h.chunkCount && k.microDict == (if h.version == 8 then h.microDict else [])
  {
  }

  lemma ReadInParts(tools: Tools, bytes: Bytes, password: Bytes, h: Header, key: Option<Bytes>, r1: Bytes, r2: Bytes,
                    sizes: seq<u32>, es: seq<ChunkEntry>, pool: Bytes)
    requires ReadHeader(bytes) == Ok((h, r1)) && KeyFor(tools, h, password) == Ok(key)
    requires h.version >= 2 && h.compressedTable && h.chunkCount != 0
    requires ReadSizes(r1, NumBlocks(h.chunkCount, h.originalSize)) == Ok((sizes, r2))
    requires ReadTable(tools, key, h.chunkCount, r2) == Ok((es, pool))
    ensures ReadMetadata(tools, bytes, password) == Ok(Metadata(h, key, sizes, es, |r2| - |pool|, pool))
  {
    hide ReadHeader, KeyFor, ReadSizes, ReadTable, ReadPlainTable, NumBlocks;
  }
}
