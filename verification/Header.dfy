// The header of a .crom file, by version (pkg/format/format.go).
module Headers {
  import opened Common

  const MAGIC: Bytes := [67, 82, 79, 77]
  const MAX_MICRO_DICT: nat := 32 * 1024 * 1024

  datatype Header = Header(
    version: u16, isEncrypted: bool, isPassthrough: bool, isConvergent: bool, isLossy: bool,
    usesBrainDict: bool, compressedTable: bool, salt: Bytes, originalHash: Bytes,
    originalSize: u64, chunkCount: u32, chunkSize: u32, codebookHash: Bytes,
    codebookHashes: Bytes, merkleRoot: Bytes, microDictSize: u32, microDict: Bytes)
  {
    // The fixed-size fields of the struct, and the one length field that has to
    // agree with its payload.
    ghost predicate Valid() {
      && |salt| == 16 && |originalHash| == 32 && |codebookHash| == 8 && |codebookHashes| == 24
      && |merkleRoot| == 32 && microDictSize == |microDict| <= MAX_MICRO_DICT
    }
  }

  // Serialize turns every version it does not know into 8.
  function Written(version: u16): u16 {
    if version == 1 || 2 <= version <= 8 then version else 8
  }

  function HeaderSize(version: u16): nat {
    if version <= 1 then 50
    else if version <= 3 then 68
    else if version == 4 then 80
    else if version == 5 then 112
    else if version <= 7 then 137
    else 141
  }

  // The first of the three codebook hashes.
  function First8(hashes: Bytes): Bytes { if |hashes| >= 8 then hashes[..8] else hashes }

  function Bit(b: bool, weight: byte): byte { if b then weight else 0 }

  function Flags(h: Header): byte {
    Bit(h.isPassthrough, 1) + Bit(h.isLossy, 2) + Bit(h.usesBrainDict, 4) + Bit(h.compressedTable, 8)
  }

  // ----- layout -------------------------------------------------------------------

  // The fields from each offset on, up to the end.
  function From137(h: Header, v: u16): Bytes { if v >= 8 then U32(h.microDictSize) + h.microDict else [] }
  function From112(h: Header, v: u16): Bytes {
    if v >= 6 then [Bit(h.isConvergent, 1)] + (h.codebookHashes + From137(h, v)) else []
  }
  function From80(h: Header, v: u16): Bytes { if v >= 5 then h.merkleRoot + From112(h, v) else [] }
  function From68(h: Header, v: u16): Bytes
  {
    if v >= 4 then U32(h.chunkSize) + ((if v >= 6 then First8(h.codebookHashes) else h.codebookHash) + From80(h, v)) else []
  }
  function From24(h: Header, v: u16): Bytes
  {
    h.originalHash + (U64(h.originalSize) + (U32(h.chunkCount) + From68(h, v)))
  }
  function From6(h: Header, v: u16): Bytes
  {
    if v == 1 then h.originalHash + (U64(h.originalSize) + U32(h.chunkCount))
    else [Bit(h.isEncrypted, 1)] + ([Flags(h)] + (h.salt + From24(h, v)))
  }

  function Serialized(h: Header): Bytes
  {
    MAGIC + (U16(Written(h.version)) + From6(h, Written(h.version)))
  }

  // ----- reading --------------------------------------------------------------------

  predicate HasBit(flags: byte, weight: nat)
    requires weight > 0
  {
    flags / weight % 2 == 1
  }

  function ParseV1(data: Bytes): Header
    requires |data| >= 50
  {
    Header(1, false, false, false, false, false, false, Zeros(16), Field(data, 6, 32),
           GetU64(Field(data, 38, 8)), GetU32(Field(data, 46, 4)), 0, Zeros(8), Zeros(24), Zeros(32), 0, [])
  }

  function ParseV2(data: Bytes, v: u16): Result<Header>
    requires 2 <= v <= 9 && |data| >= HeaderSize(v)
  {
    var micro: u32 := if v >= 8 then GetU32(Field(data, 137, 4)) else 0;
    if micro > MAX_MICRO_DICT || (micro > 0 && |data| < 141 + micro) then Err(BadHeader)
    else Ok(Header(
      v, data[6] == 1,
      v >= 3 && HasBit(data[7], 1), v >= 6 && data[112] == 1, v >= 3 && HasBit(data[7], 2),
      v >= 3 && HasBit(data[7], 4), v >= 3 && HasBit(data[7], 8),
      Field(data, 8, 16), Field(data, 24, 32), GetU64(Field(data, 56, 8)), GetU32(Field(data, 64, 4)),
      if v >= 4 then GetU32(Field(data, 68, 4)) else 0,
      if v >= 6 then Field(data, 113, 8) else if v >= 4 then Field(data, 72, 8) else Zeros(8),
      if v >= 6 then Field(data, 113, 24) else Zeros(24),
      if v >= 5 then Field(data, 80, 32) else Zeros(32),
      micro, if micro > 0 then Field(data, 141, micro) else []))
  }

  function ParseHeader(data: Bytes): Result<Header> {
    if |data| < 50 then Err(BadHeader)
    else if data[0..4] != MAGIC then Err(BadMagic)
    else
      var v := GetU16(data[4..6]);
      if v == 1 then Ok(ParseV1(data))
      else if 2 <= v <= 9 then
        if |data| < HeaderSize(v) then Err(BadHeader) else ParseV2(data, v)
      else Err(BadVersion)
  }

  // ----- the round trip ----------------------------------------------------------------

  // What is left of a header once it is written: the version's own fields.
  function Kept(h: Header): Header
  {
    var v := Written(h.version);
    Header(v, v >= 2 && h.isEncrypted, v >= 3 && h.isPassthrough, v >= 6 && h.isConvergent, v >= 3 && h.isLossy,
           v >= 3 && h.usesBrainDict, v >= 3 && h.compressedTable,
           if v >= 2 then h.salt else Zeros(16), h.originalHash, h.originalSize, h.chunkCount,
           if v >= 4 then h.chunkSize else 0,
           if v >= 6 then First8(h.codebookHashes) else if v >= 4 then h.codebookHash else Zeros(8),
           if v >= 6 then h.codebookHashes else Zeros(24), if v >= 5 then h.merkleRoot else Zeros(32),
           if v >= 8 then h.microDictSize else 0, if v >= 8 then h.microDict else [])
  }

  // A field found where the bytes before it end.
  lemma FieldAt(data: Bytes, at: nat, f: Bytes, rest: Bytes)
    requires at <= |data| && data[at..] == f + rest
    ensures at + |f| <= |data| && Field(data, at, |f|) == f && data[at + |f|..] == rest
  {
    assert data[at..][..|f|] == f && data[at..][|f|..] == rest;
  }

  lemma FlagBits(h: Header)
    ensures HasBit(Flags(h), 1) == h.isPassthrough && HasBit(Flags(h), 2) == h.isLossy
    ensures HasBit(Flags(h), 4) == h.usesBrainDict && HasBit(Flags(h), 8) == h.compressedTable
  {
  }

  lemma Prelude(h: Header, data: Bytes)
    requires h.Valid() && data == Serialized(h)
    ensures var v := Written(h.version);
            |data| >= 6 && data[0..4] == MAGIC && GetU16(data[4..6]) == v && data[6..] == From6(h, v)
  {
    var v := Written(h.version);
    GetU16Put(v);
    hide From6, U16, GetU16;
    assert data[0..] == data;
    FieldAt(data, 0, MAGIC, U16(v) + From6(h, v));
    FieldAt(data, 4, U16(v), From6(h, v));
  }

  lemma BaseFields(h: Header, data: Bytes, v: u16)
    requires h.Valid() && 2 <= v <= 8 && |data| >= 6 && data[6..] == From6(h, v)
    ensures |data| >= 68 && data[6] == Bit(h.isEncrypted, 1) && data[7] == Flags(h)
    ensures Field(data, 8, 16) == h.salt && Field(data, 24, 32) == h.originalHash
    ensures Field(data, 56, 8) == U64(h.originalSize) && Field(data, 64, 4) == U32(h.chunkCount)
    ensures data[68..] == From68(h, v)
  {
    hide Flags, Bit, From68, U64, U32;
    var e, f, size, count := Bit(h.isEncrypted, 1), Flags(h), U64(h.originalSize), U32(h.chunkCount);
    FieldAt(data, 6, [e], [f] + (h.salt + From24(h, v)));
    assert data[6] == Field(data, 6, 1)[0];
    FieldAt(data, 7, [f], h.salt + From24(h, v));
    assert data[7] == Field(data, 7, 1)[0];
    FieldAt(data, 8, h.salt, From24(h, v));
    FieldAt(data, 24, h.originalHash, size + (count + From68(h, v)));
    FieldAt(data, 56, size, count + From68(h, v));
    FieldAt(data, 64, count, From68(h, v));
  }

  lemma FieldsFrom68(h: Header, data: Bytes, v: u16)
    requires h.Valid() && 4 <= v <= 8 && |data| >= 68 && data[68..] == From68(h, v)
    ensures |data| >= 80 && Field(data, 68, 4) == U32(h.chunkSize) && data[80..] == From80(h, v)
    ensures Field(data, 72, 8) == if v >= 6 then First8(h.codebookHashes) else h.codebookHash
  {
    hide U32, From80;
    var hash := if v >= 6 then First8(h.codebookHashes) else h.codebookHash;
    FieldAt(data, 68, U32(h.chunkSize), hash + From80(h, v));
    FieldAt(data, 72, hash, From80(h, v));
  }

  lemma FieldsFrom112(h: Header, data: Bytes, v: u16)
    requires h.Valid() && 6 <= v <= 8 && |data| >= 112 && data[112..] == From112(h, v)
    ensures |data| >= 137 && data[112] == Bit(h.isConvergent, 1) && data[137..] == From137(h, v)
    ensures Field(data, 113, 24) == h.codebookHashes && Field(data, 113, 8) == First8(h.codebookHashes)
  {
    hide Bit, From137;
    FieldAt(data, 112, [Bit(h.isConvergent, 1)], h.codebookHashes + From137(h, v));
    assert data[112] == Field(data, 112, 1)[0];
    FieldAt(data, 113, h.codebookHashes, From137(h, v));
    assert Field(data, 113, 8) == Field(data, 113, 24)[..8] == First8(h.codebookHashes);
  }

  lemma FieldsFrom137(h: Header, data: Bytes)
    requires h.Valid() && |data| >= 137 && data[137..] == From137(h, 8)
    ensures |data| == 141 + |h.microDict|
    ensures Field(data, 137, 4) == U32(h.microDictSize) && Field(data, 141, |h.microDict|) == h.microDict
  {
    hide U32;
    FieldAt(data, 137, U32(h.microDictSize), h.microDict);
    assert h.microDict + [] == h.microDict;
    FieldAt(data, 141, h.microDict, []);
  }

  lemma LateFields(h: Header, data: Bytes, v: u16)
    requires h.Valid() && 2 <= v <= 8 && |data| >= 68 && data[68..] == From68(h, v)
    ensures |data| == HeaderSize(v) + if v >= 8 then |h.microDict| else 0
    ensures v >= 4 ==> Field(data, 68, 4) == U32(h.chunkSize)
    ensures 4 <= v < 6 ==> Field(data, 72, 8) == h.codebookHash
    ensures v >= 5 ==> Field(data, 80, 32) == h.merkleRoot
    ensures v >= 6 ==> data[112] == Bit(h.isConvergent, 1) && Field(data, 113, 24) == h.codebookHashes
    ensures v >= 6 ==> Field(data, 113, 8) == First8(h.codebookHashes)
    ensures v >= 8 ==> Field(data, 137, 4) == U32(h.microDictSize) && Field(data, 141, |h.microDict|) == h.microDict
  {
    hide Bit, U32, Field;
    if v < 4 {
      assert From68(h, v) == [];
    } else {
      FieldsFrom68(h, data, v);
      hide From68;
      if v == 4 {
        assert From80(h, v) == [];
      } else {
        FieldAt(data, 80, h.merkleRoot, From112(h, v));
        hide From80;
        if v == 5 {
          assert From112(h, v) == [];
        } else {
          FieldsFrom112(h, data, v);
          if v == 8 { FieldsFrom137(h, data); }
        }
      }
    }
  }

  // Reading back what was written gives the fields the version holds.
  lemma HeaderRoundTrip(h: Header)
    requires h.Valid()
    ensures |Serialized(h)| == HeaderSize(Written(h.version)) + if Written(h.version) == 8 then |h.microDict| else 0
    ensures ParseHeader(Serialized(h)) == Ok(Kept(h))
  {
    var data, v := Serialized(h), Written(h.version);
    Prelude(h, data);
    WrittenIsKnown(h.version);
    if v == 1 {
      ParsedV1(h, data);
    } else {
      ParsedV2(h, data, v);
    }
    hide Serialized, From6, ParseV1, ParseV2, Kept;
  }

  lemma WrittenIsKnown(version: u16)
    ensures Written(version) == 1 || 2 <= Written(version) <= 8
  {
  }

  lemma ParsedV1(h: Header, data: Bytes)
    requires h.Valid() && Written(h.version) == 1 && |data| >= 6 && data[6..] == From6(h, 1)
    ensures |data| == 50 && ParseV1(data) == Kept(h)
  {
    FirstVersion(h, data);
    GetU64Put(h.originalSize);
    GetU32Put(h.chunkCount);
    hide From6, U64, U32, GetU64, GetU32, Field;
  }

  lemma ParsedV2(h: Header, data: Bytes, v: u16)
    requires h.Valid() && v == Written(h.version) && 2 <= v <= 8 && |data| >= 6 && data[6..] == From6(h, v)
    ensures |data| == HeaderSize(v) + if v >= 8 then |h.microDict| else 0
    ensures ParseV2(data, v) == Ok(Kept(h))
  {
    hide From6, From68, U64, U32, GetU64, GetU32, Field, Flags, HasBit;
    BaseFields(h, data, v);
    LateFields(h, data, v);
    GetU64Put(h.originalSize);
    GetU32Put(h.chunkCount);
    GetU32Put(h.chunkSize);
    GetU32Put(h.microDictSize);
    FlagBits(h);
  }

  lemma FirstVersion(h: Header, data: Bytes)
    requires h.Valid() && |data| >= 6 && data[6..] == From6(h, 1)
    ensures |data| == 50 && Field(data, 6, 32) == h.originalHash
    ensures Field(data, 38, 8) == U64(h.originalSize) && Field(data, 46, 4) == U32(h.chunkCount)
  {
    hide U64, U32;
    var size, count := U64(h.originalSize), U32(h.chunkCount);
    FieldAt(data, 6, h.originalHash, size + count);
    FieldAt(data, 38, size, count);
    assert count + [] == count;
    FieldAt(data, 46, count, []);
  }

  // ----- writing into a buffer ------------------------------------------------------------

  method Put(buf: array<byte>, at: nat, src: Bytes)
    requires at + |src| <= buf.Length
    modifies buf
    ensures buf[..at + |src|] == old(buf[..at]) + src && buf[at + |src|..] == old(buf[at + |src|..])
  {
    forall k | 0 <= k < |src| {
      buf[at + k] := src[k];
    }
    SameElements(buf[..at + |src|], old(buf[..at]) + src);
    SameElements(buf[at + |src|..], old(buf[at + |src|..]));
  }

  // The buffer holds everything before a position; rest belongs from there on.
  ghost predicate Filled(buf: Bytes, at: nat, rest: Bytes, whole: Bytes) {
    at + |rest| == |buf| == |whole| && buf[..at] + rest == whole
  }

  lemma FilledMore(before: Bytes, after: Bytes, at: nat, src: Bytes, rest: Bytes, whole: Bytes)
    requires Filled(before, at, src + rest, whole) && |after| == |before| && after[..at + |src|] == before[..at] + src
    ensures Filled(after, at + |src|, rest, whole)
  {
    assert (before[..at] + src) + rest == before[..at] + (src + rest);
  }

  lemma FilledAll(buf: Bytes, whole: Bytes)
    requires Filled(buf, |buf|, [], whole)
    ensures buf == whole
  {
    assert buf[..|buf|] + [] == buf;
  }

  // Writes a field at its place.
  method PutField(buf: array<byte>, at: nat, src: Bytes, ghost rest: Bytes, ghost whole: Bytes)
    requires Filled(buf[..], at, src + rest, whole)
    modifies buf
    ensures Filled(buf[..], at + |src|, rest, whole)
  {
    ghost var before := buf[..];
    Put(buf, at, src);
    assert before[..at] == old(buf[..at]);
    FilledMore(before, buf[..], at, src, rest, whole);
  }

  method Serialize(h: Header) returns (data: Bytes)
    requires h.Valid()
    ensures data == Serialized(h)
  {
    hide Serialized, From6, From24, From68, From80, From112, From137, Filled, Flags, HeaderSize, U16, U32, U64, Written;
    HeaderRoundTrip(h);
    WrittenIsKnown(h.version);
    var v := Written(h.version);
    ghost var whole := Serialized(h);
    var buf := new byte[HeaderSize(v) + if v >= 8 then h.microDictSize else 0];
    Starts(h, buf[..]);
    PutField(buf, 0, MAGIC, U16(v) + From6(h, v), whole);
    PutField(buf, 4, U16(v), From6(h, v), whole);
    if v == 1 {
      SerializeFirst(buf, h, whole);
    } else {
      SerializeBase(buf, h, v, whole);
      SerializeLate(buf, h, v, whole);
    }
    Ends(h, buf[..]);
    data := buf[..];
  }

  method SerializeFirst(buf: array<byte>, h: Header, ghost whole: Bytes)
    requires h.Valid() && Filled(buf[..], 6, From6(h, 1), whole)
    modifies buf
    ensures exists at :: Filled(buf[..], at, [], whole)
  {
    hide Filled, U32, U64;
    PutField(buf, 6, h.originalHash, U64(h.originalSize) + U32(h.chunkCount), whole);
    PutField(buf, 38, U64(h.originalSize), U32(h.chunkCount), whole);
    assert U32(h.chunkCount) + [] == U32(h.chunkCount);
    PutField(buf, 46, U32(h.chunkCount), [], whole);
  }

  method SerializeBase(buf: array<byte>, h: Header, v: u16, ghost whole: Bytes)
    requires h.Valid() && 2 <= v <= 8 && Filled(buf[..], 6, From6(h, v), whole)
    modifies buf
    ensures Filled(buf[..], 68, From68(h, v), whole)
  {
    hide Filled, From68, U32, U64, Flags;
    var e, f, size, count := Bit(h.isEncrypted, 1), Flags(h), U64(h.originalSize), U32(h.chunkCount);
    PutField(buf, 6, [e], [f] + (h.salt + From24(h, v)), whole);
    PutField(buf, 7, [f], h.salt + From24(h, v), whole);
    PutField(buf, 8, h.salt, From24(h, v), whole);
    PutField(buf, 24, h.originalHash, size + (count + From68(h, v)), whole);
    PutField(buf, 56, size, count + From68(h, v), whole);
    PutField(buf, 64, count, From68(h, v), whole);
  }

  // The fields of the later versions, as far as there are any.
  method SerializeLate(buf: array<byte>, h: Header, v: u16, ghost whole: Bytes)
    requires h.Valid() && 2 <= v <= 8 && Filled(buf[..], 68, From68(h, v), whole)
    modifies buf
    ensures exists at :: Filled(buf[..], at, [], whole)
  {
    hide Filled, U32, First8;
    if v >= 4 {
      var hash := if v >= 6 then First8(h.codebookHashes) else h.codebookHash;
      PutField(buf, 68, U32(h.chunkSize), hash + From80(h, v), whole);
      FirstHash(h);
      PutField(buf, 72, hash, From80(h, v), whole);
    }
    if v >= 5 {
      PutField(buf, 80, h.merkleRoot, From112(h, v), whole);
      if v >= 6 {
        var convergent := Bit(h.isConvergent, 1);
        PutField(buf, 112, [convergent], h.codebookHashes + From137(h, v), whole);
        var hashes := h.codebookHashes;
        ThreeHashes(hashes, From137(h, v));
        PutField(buf, 113, hashes[0..8], hashes[8..16] + (hashes[16..24] + From137(h, v)), whole);
        PutField(buf, 121, hashes[8..16], hashes[16..24] + From137(h, v), whole);
        PutField(buf, 129, hashes[16..24], From137(h, v), whole);
        if v >= 8 {
          PutField(buf, 137, U32(h.microDictSize), h.microDict, whole);
          assert h.microDict + [] == h.microDict;
          PutField(buf, 141, h.microDict, [], whole);
        }
      }
    }
  }

  lemma FirstHash(h: Header)
    requires h.Valid()
    ensures |First8(h.codebookHashes)| == 8
  {
  }

  lemma ThreeHashes(hashes: Bytes, rest: Bytes)
    requires |hashes| == 24
    ensures hashes[0..8] + (hashes[8..16] + (hashes[16..24] + rest)) == hashes + rest
  {
  }

  lemma Starts(h: Header, buf: Bytes)
    requires h.Valid() && |buf| == |Serialized(h)|
    ensures Filled(buf, 0, MAGIC + (U16(Written(h.version)) + From6(h, Written(h.version))), Serialized(h))
  {
    hide From6, U16;
    assert buf[..0] + Serialized(h) == Serialized(h);
  }

  lemma Ends(h: Header, buf: Bytes)
    requires exists at :: Filled(buf, at, [], Serialized(h))
    ensures buf == Serialized(h)
  {
    hide Serialized;
    FilledAll(buf, Serialized(h));
  }
}
