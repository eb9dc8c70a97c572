// The chunk table in columns (pkg/format/format.go): each value as its difference
// from what is expected.
module ChunkTable {
  import opened Common
  import Varint
  import Zigzag

  // Marks a chunk stored verbatim: the largest uint64.
  const LITERAL_ID: u64 := TWO_TO_64 - 1
  const LITERAL_INDEX: byte := 255
  const FRACTAL_INDEX: byte := 253

  datatype ChunkEntry = ChunkEntry(id: u64, offset: u64, deltaSize: u32, size: u32, index: byte)

  // ----- the columns ------------------------------------------------------------

  // What is written for the ID of an entry, given the ID expected for it.
  function IdWord(e: ChunkEntry, prev: u64): u64 {
    Zigzag.RoundTrip(Sub64(e.id, prev));
    if e.id == LITERAL_ID then 0 else Add64(Zigzag.Zig(Sub64(e.id, prev)), 1)
  }

  function NextId(e: ChunkEntry, prev: u64): u64 {
    if e.id == LITERAL_ID then prev else Add64(e.id, 1)
  }

  function OffsetWord(e: ChunkEntry, next: u64): u64 {
    Zigzag.RoundTrip(Sub64(e.offset, next));
    Zigzag.Zig(Sub64(e.offset, next))
  }

  function NextOffset(e: ChunkEntry): u64 { Add64(e.offset, e.deltaSize) }

  datatype Columns = Columns(ids: Bytes, offsets: Bytes, deltaSizes: Bytes, sizes: Bytes, indexes: Bytes)

  // One entry's contribution to each column, in front of the rest.
  function Row(e: ChunkEntry, prev: u64, next: u64, rest: Columns): Columns {
    Columns(Varint.Write(IdWord(e, prev)) + rest.ids, Varint.Write(OffsetWord(e, next)) + rest.offsets,
            Varint.Write(e.deltaSize) + rest.deltaSizes, Varint.Write(e.size) + rest.sizes, [e.index] + rest.indexes)
  }

  // The columns of entries[i..], with the running expectations at entry i.
  function ColumnsOf(es: seq<ChunkEntry>, i: nat, prev: u64, next: u64): Columns
    requires i <= |es|
    decreases |es| - i
  {
    if i == |es| then Columns([], [], [], [], [])
    else Row(es[i], prev, next, ColumnsOf(es, i + 1, NextId(es[i], prev), NextOffset(es[i])))
  }

  function Framed(col: Bytes): Bytes { Varint.Write(|col|) + col }

  function Joined(c: Columns): Bytes {
    Framed(c.ids) + (Framed(c.offsets) + (Framed(c.deltaSizes) + (Framed(c.sizes) + c.indexes)))
  }

  function Encoded(es: seq<ChunkEntry>): Bytes { Joined(ColumnsOf(es, 0, 0, 0)) }

  // ----- reading the columns back -------------------------------------------------

  // next(col): one value off the front of a column.
  function TakeValue(col: Bytes): Result<(u64, Bytes)> {
    Varint.ReadBounds(col, 0);
    Varint.CapacityIs64();
    match Varint.Read(col, 0)
    case None => Err(BadTable)
    case Some((v, n)) => Ok((v, col[n..]))
  }

  // A whole column off the front of the table.
  function TakeColumn(data: Bytes): Result<(Bytes, Bytes)> {
    Varint.ReadBounds(data, 0);
    match Varint.Read(data, 0)
    case None => Err(BadTable)
    case Some((size, n)) =>
      if size > |data| - n then Err(BadTable) else Ok((data[n..n + size], data[n + size..]))
  }

  // The entry coded by the four values and the index byte.
  function Entry(idWord: u64, offsetWord: u64, deltaSize: u64, size: u64, index: byte, prev: u64, next: u64): ChunkEntry {
    ChunkEntry(
      if idWord == 0 then LITERAL_ID else Add64(prev, Zigzag.Unzig(idWord - 1)),
      Add64(next, Zigzag.Unzig(offsetWord)),
      deltaSize % TWO_TO_32, size % TWO_TO_32, index)
  }

  // prevID moves on exactly when the coded word says the entry is no literal.
  function ReadId(idWord: u64, e: ChunkEntry, prev: u64): u64 {
    if idWord == 0 then prev else Add64(e.id, 1)
  }

  function TakeRow(c: Columns, prev: u64, next: u64): Result<(ChunkEntry, u64, Columns)>
    requires c.indexes != []
  {
    var (a, ids) :- TakeValue(c.ids);
    var (b, offsets) :- TakeValue(c.offsets);
    var (d, deltaSizes) :- TakeValue(c.deltaSizes);
    var (s, sizes) :- TakeValue(c.sizes);
    var e := Entry(a, b, d, s, c.indexes[0], prev, next);
    Ok((e, ReadId(a, e, prev), Columns(ids, offsets, deltaSizes, sizes, c.indexes[1..])))
  }

  function Rows(c: Columns, prev: u64, next: u64): Result<seq<ChunkEntry>>
    decreases |c.indexes|
  {
    if c.indexes == [] then Ok([])
    else
      var (e, prev', rest) :- TakeRow(c, prev, next);
      var es :- Rows(rest, prev', NextOffset(e));
      Ok([e] + es)
  }

  function Split(data: Bytes): Result<Columns> {
    var (ids, r1) :- TakeColumn(data);
    var (offsets, r2) :- TakeColumn(r1);
    var (deltaSizes, r3) :- TakeColumn(r2);
    var (sizes, r4) :- TakeColumn(r3);
    Ok(Columns(ids, offsets, deltaSizes, sizes, r4))
  }

  function Decoded(data: Bytes, count: u32): Result<seq<ChunkEntry>> {
    var c :- Split(data);
    if |c.indexes| != count then Err(BadTable) else Rows(c, 0, 0)
  }

  lemma {:induction false} RowsCounted(c: Columns, prev: u64, next: u64)
    ensures Rows(c, prev, next).Ok? ==> |Rows(c, prev, next).value| == |c.indexes|
    decreases |c.indexes|
  {
    hide TakeRow;
    if c.indexes != [] {
      var row := TakeRow(c, prev, next);
      if row.Ok? {
        RowKept(c, prev, next);
        RowsCounted(row.value.2, row.value.1, NextOffset(row.value.0));
      }
    }
  }

  lemma RowKept(c: Columns, prev: u64, next: u64)
    requires c.indexes != [] && TakeRow(c, prev, next).Ok?
    ensures |TakeRow(c, prev, next).value.2.indexes| == |c.indexes| - 1
  {
    hide TakeValue, Entry, ReadId;
  }

  // A table that is read has as many entries as were announced.
  lemma DecodedCount(data: Bytes, count: u32)
    ensures Decoded(data, count).Ok? ==> |Decoded(data, count).value| == count
  {
    hide Split, Rows;
    var c := Split(data);
    if c.Ok? { RowsCounted(c.value, 0, 0); }
  }

  // ----- the round trip -------------------------------------------------------------

  // The one ID the format cannot hold: 2^63 away from the ID expected for it.
  predicate Wraps(e: ChunkEntry, prev: u64) {
    e.id != LITERAL_ID && Sub64(e.id, prev) == TWO_TO_63
  }

  predicate NoWrap(es: seq<ChunkEntry>, i: nat, prev: u64)
    requires i <= |es|
    decreases |es| - i
  {
    i == |es| || (!Wraps(es[i], prev) && NoWrap(es, i + 1, NextId(es[i], prev)))
  }

  lemma TakeWritten(v: u64, rest: Bytes)
    ensures TakeValue(Varint.Write(v) + rest) == Ok((v, rest))
  {
    Varint.ReadWrite(v, rest);
    assert (Varint.Write(v) + rest)[|Varint.Write(v)|..] == rest;
  }

  lemma TakeFramed(col: Bytes, rest: Bytes)
    requires |col| < TWO_TO_64
    ensures TakeColumn(Framed(col) + rest) == Ok((col, rest))
  {
    var head := Varint.Write(|col|);
    assert Framed(col) + rest == head + (col + rest);
    Varint.ReadWrite(|col|, col + rest);
    var data := head + (col + rest);
    assert data[|head|..|head| + |col|] == col && data[|head| + |col|..] == rest;
  }

  lemma SplitJoined(c: Columns)
    requires |c.ids| < TWO_TO_64 && |c.offsets| < TWO_TO_64 && |c.deltaSizes| < TWO_TO_64 && |c.sizes| < TWO_TO_64
    ensures Split(Joined(c)) == Ok(c)
  {
    hide TakeColumn, Framed;
    var r3 := Framed(c.sizes) + c.indexes;
    var r2 := Framed(c.deltaSizes) + r3;
    var r1 := Framed(c.offsets) + r2;
    TakeFramed(c.ids, r1);
    TakeFramed(c.offsets, r2);
    TakeFramed(c.deltaSizes, r3);
    TakeFramed(c.sizes, c.indexes);
  }

  lemma SubAdd(a: u64, b: u64)
    ensures Add64(b, Sub64(a, b)) == a
  {
  }

  // The coded ID word is 0 for a literal and, by wrap-around, for one other ID.
  lemma IdWritten(e: ChunkEntry, prev: u64)
    ensures IdWord(e, prev) == 0 <==> e.id == LITERAL_ID || Wraps(e, prev)
    ensures IdWord(e, prev) != 0 ==> Add64(prev, Zigzag.Unzig(IdWord(e, prev) - 1)) == e.id
  {
    var d := Sub64(e.id, prev);
    Zigzag.RoundTrip(d);
    SubAdd(e.id, prev);
    hide Zigzag.Zig, Zigzag.Unzig, Sub64;
  }

  lemma OffsetWritten(e: ChunkEntry, next: u64)
    ensures Add64(next, Zigzag.Unzig(OffsetWord(e, next))) == e.offset
  {
    Zigzag.RoundTrip(Sub64(e.offset, next));
    SubAdd(e.offset, next);
  }

  lemma EntryWritten(e: ChunkEntry, prev: u64, next: u64)
    ensures var a := IdWord(e, prev);
            var read := Entry(a, OffsetWord(e, next), e.deltaSize, e.size, e.index, prev, next);
            if Wraps(e, prev) then read.id == LITERAL_ID else read == e && ReadId(a, read, prev) == NextId(e, prev)
  {
    hide IdWord, OffsetWord, Zigzag.Unzig, Wraps;
    IdWritten(e, prev);
    OffsetWritten(e, next);
    WrapsAreIds(e, prev);
  }

  lemma WrapsAreIds(e: ChunkEntry, prev: u64)
    ensures Wraps(e, prev) ==> e.id != LITERAL_ID
  {
  }

  // A row is read back as it was written; if the ID wraps, as a literal.
  lemma TakeRowWritten(e: ChunkEntry, prev: u64, next: u64, rest: Columns)
    ensures var row := TakeRow(Row(e, prev, next, rest), prev, next);
            if Wraps(e, prev) then row.Ok? && row.value.0.id == LITERAL_ID
            else row == Ok((e, NextId(e, prev), rest))
  {
    hide TakeValue, IdWord, OffsetWord, NextId, ReadId, Entry, Wraps;
    TakeWritten(IdWord(e, prev), rest.ids);
    TakeWritten(OffsetWord(e, next), rest.offsets);
    TakeWritten(e.deltaSize, rest.deltaSizes);
    TakeWritten(e.size, rest.sizes);
    assert ([e.index] + rest.indexes)[1..] == rest.indexes;
    EntryWritten(e, prev, next);
  }

  lemma SameHead(e: ChunkEntry, f: ChunkEntry, x: seq<ChunkEntry>, y: seq<ChunkEntry>)
    ensures [e] + x == [f] + y <==> e == f && x == y
  {
    if [e] + x == [f] + y {
      assert ([e] + x)[0] == e && ([f] + y)[0] == f;
      assert ([e] + x)[1..] == x && ([f] + y)[1..] == y;
    }
  }

  lemma {:induction false} RowsWritten(es: seq<ChunkEntry>, i: nat, prev: u64, next: u64)
    requires i <= |es|
    ensures Rows(ColumnsOf(es, i, prev, next), prev, next) == Ok(es[i..]) <==> NoWrap(es, i, prev)
    decreases |es| - i
  {
    Unfolded(es, i, prev, next);
    hide *;
    if i < |es| {
      var e := es[i];
      RowsWritten(es, i + 1, NextId(e, prev), NextOffset(e));
      RowsStep(e, prev, next, ColumnsOf(es, i + 1, NextId(e, prev), NextOffset(e)), es[i + 1..]);
      assert es[i..] == [e] + es[i + 1..];
    }
  }

  lemma Unfolded(es: seq<ChunkEntry>, i: nat, prev: u64, next: u64)
    requires i <= |es|
    ensures i == |es| ==> Rows(ColumnsOf(es, i, prev, next), prev, next) == Ok([]) && es[i..] == [] && NoWrap(es, i, prev)
    ensures i < |es| ==>
              && ColumnsOf(es, i, prev, next) == Row(es[i], prev, next, ColumnsOf(es, i + 1, NextId(es[i], prev), NextOffset(es[i])))
              && (NoWrap(es, i, prev) <==> !Wraps(es[i], prev) && NoWrap(es, i + 1, NextId(es[i], prev)))
  {
  }

  lemma RowsStep(e: ChunkEntry, prev: u64, next: u64, rest: Columns, tail: seq<ChunkEntry>)
    ensures Rows(Row(e, prev, next, rest), prev, next) == Ok([e] + tail) <==>
            !Wraps(e, prev) && Rows(rest, NextId(e, prev), NextOffset(e)) == Ok(tail)
  {
    var c := Row(e, prev, next, rest);
    TakeRowWritten(e, prev, next, rest);
    WrapsAreIds(e, prev);
    hide TakeRow, Wraps, Rows;
    var row := TakeRow(c, prev, next);
    RowsUnfold(c, prev, next);
    var more := Rows(row.value.2, row.value.1, NextOffset(row.value.0));
    if more.Ok? { SameHead(row.value.0, e, more.value, tail); }
  }

  lemma RowsUnfold(c: Columns, prev: u64, next: u64)
    requires c.indexes != []
    ensures var row := TakeRow(c, prev, next);
            row.Ok? ==>
              var more := Rows(row.value.2, row.value.1, NextOffset(row.value.0));
              Rows(c, prev, next) == if more.Err? then Err(more.error) else Ok([row.value.0] + more.value)
  {
  }

  // ----- sizes ------------------------------------------------------------------------

  ghost function Total(c: Columns): nat {
    |c.ids| + |c.offsets| + |c.deltaSizes| + |c.sizes| + |c.indexes|
  }

  lemma {:induction false} ColumnSizes(es: seq<ChunkEntry>, i: nat, prev: u64, next: u64)
    requires i <= |es|
    ensures var c := ColumnsOf(es, i, prev, next); |c.indexes| == |es| - i && Total(c) <= 31 * (|es| - i)
    decreases |es| - i
  {
    if i < |es| {
      var e := es[i];
      ColumnSizes(es, i + 1, NextId(e, prev), NextOffset(e));
      Varint.Lengths();
      hide Varint.Write, IdWord, OffsetWord;
      assert |Varint.Write(IdWord(e, prev))| <= 10 && |Varint.Write(OffsetWord(e, next))| <= 10;
      assert |Varint.Write(e.deltaSize)| <= 5 && |Varint.Write(e.size)| <= 5;
    }
  }

  lemma FramedSize(col: Bytes)
    requires |col| < TWO_TO_64
    ensures |Framed(col)| <= |col| + 10
  {
    Varint.Lengths();
  }

  // The table decodes to the entries exactly when no ID wraps, and its size is
  // within what the reader accepts for that many entries.
  lemma TableRoundTrip(es: seq<ChunkEntry>)
    requires |es| < TWO_TO_32
    ensures Decoded(Encoded(es), |es|) == Ok(es) <==> NoWrap(es, 0, 0)
    ensures |Encoded(es)| <= 31 * |es| + 40
  {
    var c := ColumnsOf(es, 0, 0, 0);
    ColumnSizes(es, 0, 0, 0);
    hide Framed, Rows, NoWrap, ColumnsOf;
    SplitJoined(c);
    RowsWritten(es, 0, 0, 0);
    assert es[0..] == es;
    FramedSize(c.ids);
    FramedSize(c.offsets);
    FramedSize(c.deltaSizes);
    FramedSize(c.sizes);
  }

  // IDs of a codebook of fewer than 2^60 words, with or without the patch flag,
  // and 24-bit seeds never wrap.
  lemma {:induction false} SmallIdsDoNotWrap(es: seq<ChunkEntry>, i: nat, prev: u64)
    requires i <= |es| && prev <= TWO_TO_63 - 1
    requires forall e :: e in es ==> e.id == LITERAL_ID || e.id < TWO_TO_63 - 1
    ensures NoWrap(es, i, prev)
    decreases |es| - i
  {
    if i < |es| {
      assert es[i] in es;
      SmallIdsDoNotWrap(es, i + 1, NextId(es[i], prev));
    }
  }

  // A table the format does not carry.
  lemma WrapExample()
    ensures var es := [ChunkEntry(TWO_TO_63, 0, 0, 1, 0)]; Decoded(Encoded(es), 1) != Ok(es)
  {
    var es := [ChunkEntry(TWO_TO_63, 0, 0, 1, 0)];
    TableRoundTrip(es);
    assert Wraps(es[0], 0);
  }

  // ----- the loops ----------------------------------------------------------------------

  ghost function Glue(a: Columns, b: Columns): Columns {
    Columns(a.ids + b.ids, a.offsets + b.offsets, a.deltaSizes + b.deltaSizes, a.sizes + b.sizes, a.indexes + b.indexes)
  }

  // The invariant of the encoding loop at entry i.
  ghost predicate Encoding(es: seq<ChunkEntry>, i: nat, prev: u64, next: u64, done: Columns) {
    i <= |es| && Glue(done, ColumnsOf(es, i, prev, next)) == ColumnsOf(es, 0, 0, 0)
  }

  function Appended(c: Columns, e: ChunkEntry, prev: u64, next: u64): Columns {
    Columns(c.ids + Varint.Write(IdWord(e, prev)), c.offsets + Varint.Write(OffsetWord(e, next)),
            c.deltaSizes + Varint.Write(e.deltaSize), c.sizes + Varint.Write(e.size), c.indexes + [e.index])
  }

  lemma EncodeStep(es: seq<ChunkEntry>, i: nat, prev: u64, next: u64, done: Columns)
    requires Encoding(es, i, prev, next, done) && i < |es|
    ensures Encoding(es, i + 1, NextId(es[i], prev), NextOffset(es[i]), Appended(done, es[i], prev, next))
  {
    var rest := ColumnsOf(es, i + 1, NextId(es[i], prev), NextOffset(es[i]));
    Unfolded(es, i, prev, next);
    hide ColumnsOf, IdWord, OffsetWord, Varint.Write;
    GlueRow(done, es[i], prev, next, rest);
  }

  lemma GlueRow(done: Columns, e: ChunkEntry, prev: u64, next: u64, rest: Columns)
    ensures Glue(done, Row(e, prev, next, rest)) == Glue(Appended(done, e, prev, next), rest)
  {
    Regroup(done.ids, Varint.Write(IdWord(e, prev)), rest.ids);
    Regroup(done.offsets, Varint.Write(OffsetWord(e, next)), rest.offsets);
    Regroup(done.deltaSizes, Varint.Write(e.deltaSize), rest.deltaSizes);
    Regroup(done.sizes, Varint.Write(e.size), rest.sizes);
    Regroup(done.indexes, [e.index], rest.indexes);
  }

  lemma EncodeEnds(es: seq<ChunkEntry>, prev: u64, next: u64, done: Columns)
    requires Encoding(es, |es|, prev, next, done)
    ensures Joined(done) == Encoded(es)
  {
    assert Glue(done, Columns([], [], [], [], [])) == done;
  }

  lemma EncodeStarts(es: seq<ChunkEntry>)
    ensures Encoding(es, 0, 0, 0, Columns([], [], [], [], []))
  {
    var c := ColumnsOf(es, 0, 0, 0);
    assert Glue(Columns([], [], [], [], []), c) == c;
  }

  method EncodeTableColumns(es: seq<ChunkEntry>) returns (out: Bytes)
    ensures out == Encoded(es)
  {
    hide Encoding, ColumnsOf, Encoded, Varint.Write, Zigzag.Zig;
    var ids, offsets, deltaSizes, sizes: Bytes, indexes: Bytes := [], [], [], [], [];
    var prevID: u64, nextOffset: u64 := 0, 0;
    EncodeStarts(es);
    for i := 0 to |es|
      invariant Encoding(es, i, prevID, nextOffset, Columns(ids, offsets, deltaSizes, sizes, indexes))
    {
      EncodeStep(es, i, prevID, nextOffset, Columns(ids, offsets, deltaSizes, sizes, indexes));
      var e := es[i];
      ids, prevID := ids + Varint.Write(IdWord(e, prevID)), NextId(e, prevID);
      offsets := offsets + Varint.Write(OffsetWord(e, nextOffset));
      nextOffset := NextOffset(e);
      deltaSizes := deltaSizes + Varint.Write(e.deltaSize);
      sizes := sizes + Varint.Write(e.size);
      indexes := indexes + [e.index];
    }
    EncodeEnds(es, prevID, nextOffset, Columns(ids, offsets, deltaSizes, sizes, indexes));
    out := Framed(ids) + (Framed(offsets) + (Framed(deltaSizes) + (Framed(sizes) + indexes)));
  }

  // The rows read so far and the outcome of the others.
  ghost function Following(done: seq<ChunkEntry>, rest: Result<seq<ChunkEntry>>): Result<seq<ChunkEntry>> {
    if rest.Ok? then Ok(done + rest.value) else rest
  }

  lemma DecodeStep(c: Columns, prev: u64, next: u64, done: seq<ChunkEntry>)
    requires c.indexes != []
    ensures var row := TakeRow(c, prev, next);
            Following(done, Rows(c, prev, next)) ==
            if row.Err? then Err(row.error)
            else Following(done + [row.value.0], Rows(row.value.2, row.value.1, NextOffset(row.value.0)))
  {
    var row := TakeRow(c, prev, next);
    if row.Ok? {
      var more := Rows(row.value.2, row.value.1, NextOffset(row.value.0));
      RowsUnfold(c, prev, next);
      if more.Ok? { Regroup(done, [row.value.0], more.value); }
    }
  }

  lemma DecodeEnds(c: Columns, prev: u64, next: u64, done: seq<ChunkEntry>)
    ensures c.indexes == [] ==> Following(done, Rows(c, prev, next)) == Ok(done)
    ensures Following([], Rows(c, prev, next)) == Rows(c, prev, next)
  {
    assert done + [] == done;
    var r := Rows(c, prev, next);
    if r.Ok? { assert [] + r.value == r.value; }
  }

  lemma TakeRowRest(c: Columns, prev: u64, next: u64)
    requires c.indexes != []
    ensures TakeRow(c, prev, next).Ok? ==> TakeRow(c, prev, next).value.2.indexes == c.indexes[1..]
  {
  }

  method DecodeTableColumns(data: Bytes, count: u32) returns (r: Result<seq<ChunkEntry>>)
    ensures r == Decoded(data, count)
  {
    hide Split, TakeRow, Rows, Following;
    var split := Split(data);
    if split.Err? {
      return Err(split.error);
    }
    var cols := split.value;
    if |cols.indexes| != count {
      return Err(BadTable);
    }
    var entries: seq<ChunkEntry>, prevID: u64, nextOffset: u64 := [], 0, 0;
    ghost var all := Rows(cols, 0, 0);
    DecodeEnds(cols, 0, 0, []);
    for i := 0 to count
      invariant |cols.indexes| == count - i
      invariant Following(entries, Rows(cols, prevID, nextOffset)) == all
    {
      DecodeStep(cols, prevID, nextOffset, entries);
      TakeRowRest(cols, prevID, nextOffset);
      var row := TakeRow(cols, prevID, nextOffset);
      if row.Err? {
        return Err(row.error);
      }
      entries := entries + [row.value.0];
      prevID, nextOffset, cols := row.value.1, NextOffset(row.value.0), row.value.2;
    }
    DecodeEnds(cols, prevID, nextOffset, entries);
    return Ok(entries);
  }
}
