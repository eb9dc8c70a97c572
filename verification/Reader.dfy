// Reading the front of a file off a stream (pkg/format/reader.go).
module StreamReader {
  import opened Common
  import opened Tooling
  import opened Headers
  import opened ChunkTable
  import opened Blocks
  import opened Container

  // The block table, parsed from the bytes that hold it.
  function ParsedSizes(b: Bytes, n: nat): seq<u32>
    requires |b| == 4 * n
  {
    if n == 0 then [] else [GetU32(b[..4])] + ParsedSizes(b[4..], n - 1)
  }

  // Reading all sizes at once or one by one is the same.
  lemma {:induction false} SizesAtOnce(r: Bytes, n: nat)
    ensures ReadSizes(r, n) == if |r| < 4 * n then Err(ShortRead) else Ok((ParsedSizes(r[..4 * n], n), r[4 * n..]))
    decreases n
  {
    hide GetU32;
    if n > 0 && |r| >= 4 {
      SizesAtOnce(r[4..], n - 1);
      if |r| >= 4 * n {
        assert r[..4 * n][..4] == r[..4] && r[..4 * n][4..] == r[4..][..4 * (n - 1)];
        assert r[4..][4 * (n - 1)..] == r[4 * n..];
      }
    }
  }

  lemma {:induction false} ParsedNext(b: Bytes, n: nat, i: nat)
    requires |b| == 4 * n && i < n
    ensures |ParsedSizes(b, n)| == n && ParsedSizes(b, n)[i] == GetU32(b[4 * i..4 * i + 4])
    decreases n
  {
    hide GetU32;
    SizesCount(b, n);
    if i > 0 {
      ParsedNext(b[4..], n - 1, i - 1);
      SameElements(b[4..][4 * (i - 1)..4 * (i - 1) + 4], b[4 * i..4 * i + 4]);
    }
  }

  lemma {:induction false} SizesCount(b: Bytes, n: nat)
    requires |b| == 4 * n
    ensures |ParsedSizes(b, n)| == n
  {
    hide GetU32;
    if n > 0 { SizesCount(b[4..], n - 1); }
  }

  class Reader {
    const tools: Tools
    const data: Bytes
    var pos: nat

    ghost predicate Valid()
      reads this
    {
      pos <= |data|
    }

    // What the stream still holds.
    ghost function Rest(): Bytes
      requires Valid()
      reads this
    {
      data[pos..]
    }

    constructor (tools: Tools, data: Bytes)
      ensures Valid() && Rest() == data && this.tools == tools
    {
      this.tools, this.data, pos := tools, data, 0;
      new;
      assert data[0..] == data;
    }

    // io.ReadFull
    method Take(n: nat) returns (r: Result<Bytes>)
      requires Valid()
      modifies this
      ensures Valid() && (r.Ok? ==> |r.value| == n)
      ensures var got := ReadFull(old(Rest()), n);
              if got.Err? then r == Err(got.error) && Rest() == [] else r == Ok(got.value.0) && Rest() == got.value.1
    {
      if |data| - pos < n {
        pos := |data|;
        return Err(ShortRead);
      }
      r := Ok(data[pos..pos + n]);
      assert data[pos..][..n] == data[pos..pos + n] && data[pos..][n..] == data[pos + n..];
      pos := pos + n;
    }

    method TakeHeader() returns (r: Result<Header>)
      requires Valid()
      modifies this
      ensures Valid()
      ensures var got := ReadHeader(old(Rest()));
              if got.Err? then r == Err(got.error) else r == Ok(got.value.0) && Rest() == got.value.1
    {
      hide ReadFull, GetU16, ParseHeader, MicroSize, Rest;
      var meta := Take(6);
      if meta.Err? {
        return Err(meta.error);
      }
      var version := GetU16(meta.value[4..6]);
      if version == 0 || version > 9 {
        return Err(BadVersion);
      }
      var headerBuf := Take(HeaderSize(version) - 6);
      if headerBuf.Err? {
        return Err(headerBuf.error);
      }
      var fixed := meta.value + headerBuf.value;
      var micro := MicroSize(version, fixed);
      if micro > MAX_MICRO_DICT {
        return Err(BadHeader);
      }
      var payload := Take(micro);
      if payload.Err? {
        return Err(payload.error);
      }
      return ParseHeader(fixed + payload.value);
    }

    method TakeBlockTable(numBlocks: u32) returns (r: Result<seq<u32>>)
      requires Valid()
      modifies this
      ensures Valid()
      ensures var got := ReadSizes(old(Rest()), numBlocks);
              if got.Err? then r == Err(got.error) else r == Ok(got.value.0) && Rest() == got.value.1
    {
      hide ReadSizes, GetU32, ParsedSizes;
      SizesAtOnce(Rest(), numBlocks);
      var blockBuf := Take(numBlocks * 4);
      if blockBuf.Err? {
        return Err(blockBuf.error);
      }
      var blockTable := new u32[numBlocks];
      SizesCount(blockBuf.value, numBlocks);
      for i := 0 to numBlocks
        modifies blockTable
        invariant forall k :: 0 <= k < i ==> blockTable[k] == ParsedSizes(blockBuf.value, numBlocks)[k]
      {
        ParsedNext(blockBuf.value, numBlocks, i);
        blockTable[i] := GetU32(blockBuf.value[i * 4..i * 4 + 4]);
      }
      SameElements(blockTable[..], ParsedSizes(blockBuf.value, numBlocks));
      return Ok(blockTable[..]);
    }

    method TakeTable(key: Option<Bytes>, h: Header) returns (r: Result<seq<ChunkEntry>>)
      requires Valid()
      modifies this
      ensures Valid()
      ensures var got := if h.compressedTable then ReadTable(tools, key, h.chunkCount, old(Rest())) else ReadPlainTable(tools, key, h, old(Rest()));
              if got.Err? then r == Err(got.error) else r == Ok(got.value.0) && Rest() == got.value.1
    {
      hide ReadFull, GetU32, Decoded, ParsedTable, Rest, MaxTable, EntrySize;
      if h.compressedTable {
        var sizeBuf := Take(4);
        if sizeBuf.Err? {
          return Err(sizeBuf.error);
        }
        var size := GetU32(sizeBuf.value);
        if size > MaxTable(h.chunkCount) + MaxTable(h.chunkCount) / 8 {
          return Err(BadTable);
        }
        var blob := Take(size);
        if blob.Err? {
          return Err(blob.error);
        }
        return OpenTable(tools, key, h.chunkCount, blob.value);
      }
      var tableBuf := Take(h.chunkCount * EntrySize(h.version) + if h.isEncrypted then 28 else 0);
      if tableBuf.Err? {
        return Err(tableBuf.error);
      }
      var plain := if key.Some? then tools.decrypt(key.value, tableBuf.value) else Ok(tableBuf.value);
      if plain.Err? {
        return Err(plain.error);
      }
      return ParsedTable(plain.value, h.chunkCount, h.version);
    }

    // Stops at the first byte of the pool, having read what the layout says.
    method TakeMetadata(password: Bytes) returns (r: Result<(Header, seq<u32>, seq<ChunkEntry>)>)
      requires Valid()
      modifies this
      ensures Valid()
      ensures var m := ReadMetadata(tools, old(Rest()), password);
              if m.Err? then r == Err(m.error)
              else r == Ok((m.value.header, m.value.sizes, m.value.entries)) && Rest() == m.value.pool
    {
      hide ReadHeader, KeyFor, ReadSizes, NumBlocks, ReadTable, ReadPlainTable, Rest;
      var header := TakeHeader();
      if header.Err? {
        return Err(header.error);
      }
      var h := header.value;
      var key := KeyFor(tools, h, password);
      if key.Err? {
        return Err(key.error);
      }
      var blockTable: Result<seq<u32>> := Ok([]);
      if h.version >= 2 {
        blockTable := TakeBlockTable(NumBlocks(h.chunkCount, h.originalSize));
        if blockTable.Err? {
          return Err(blockTable.error);
        }
      }
      if h.chunkCount == 0 {
        return Ok((h, blockTable.value, []));
      }
      var entries := TakeTable(key.value, h);
      if entries.Err? {
        return Err(entries.error);
      }
      return Ok((h, blockTable.value, entries.value));
    }
  }
}
