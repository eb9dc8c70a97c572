// Messages of the sync protocol (internal/network/protocol.go).
module Messages {
  import opened Common
  import opened Tooling

  const MSG_SYNC_REQ: byte := 1
  const MSG_MANIFEST: byte := 2
  const MSG_DIFF_REQ: byte := 3
  const MSG_ERROR: byte := 255
  const MAX_REQUEST_SIZE: nat := 64 * 1024 * 1024
  const MAX_MESSAGE_SIZE: nat := 100 * 1024 * 1024
  const MAX_MANIFEST_SIZE: nat := 1024 * 1024 * 1024

  // sendMsg, and its reader for a given bound on the payload.
  function Message(kind: byte, payload: Bytes): Bytes {
    [kind] + U32(|payload| % TWO_TO_32) + payload
  }

  function ReadMessage(stream: Bytes, limit: nat): Result<(byte, Bytes)> {
    var (head, rest) :- ReadFull(stream, 5);
    var size := GetU32(head[1..5]);
    if size > limit then Err(BadMessage)
    else
      var (payload, _) :- ReadFull(rest, size);
      Ok((head[0], payload))
  }

  // A message is received exactly when it keeps the reader's bound.
  lemma MessageReadBack(kind: byte, payload: Bytes, limit: nat)
    requires |payload| < TWO_TO_32
    ensures ReadMessage(Message(kind, payload), limit) == (if |payload| <= limit then Ok((kind, payload)) else Err(BadMessage))
  {
    GetU32Put(|payload|);
    hide U32, GetU32;
    var head := [kind] + U32(|payload|);
    assert head[1..5] == U32(|payload|);
    ReadExactly(head, payload);
    assert payload + [] == payload;
    ReadExactly(payload, []);
  }

  // ----- the request for missing chunks --------------------------------------------------

  function Words(indices: seq<u32>, i: nat): Bytes
    requires i <= |indices|
    decreases |indices| - i
  {
    if i == |indices| then [] else U32(indices[i]) + Words(indices, i + 1)
  }

  // The name behind its 16-bit length, the number of indexes, the indexes.
  function DiffRequest(name: Bytes, indices: seq<u32>): Bytes {
    U16(|name| % 0x1_0000) + (name + (U32(|indices| % TWO_TO_32) + Words(indices, 0)))
  }

  function ReadWords(b: Bytes, n: nat): seq<u32>
    requires |b| >= 4 * n
  {
    if n == 0 then [] else [GetU32(b[..4])] + ReadWords(b[4..], n - 1)
  }

  // handleDiffReq: the length of the name is a 16-bit number, and so is every
  // sum made with it; the sums with the number of indexes are 32-bit ones. A
  // slice whose bounds come out reversed stops the handler.
  function ReadDiffRequest(payload: Bytes): Result<(Bytes, seq<u32>)> {
    if |payload| < 6 then Err(BadMessage)
    else
      var nameLen := GetU16(payload[0..2]);
      var nameEnd := (2 + nameLen) % 0x1_0000;
      if |payload| < (2 + nameLen + 4) % 0x1_0000 then Err(BadMessage)
      else if nameEnd < 2 || nameEnd + 4 > |payload| then Err(BadMessage)
      else
        var count := GetU32(payload[nameEnd..nameEnd + 4]);
        if |payload| % TWO_TO_32 < (nameEnd + 4 + count * 4 % TWO_TO_32) % TWO_TO_32 then Err(BadMessage)
        else if nameEnd + 4 + count * 4 > |payload| then Err(BadMessage)
        else Ok((payload[2..nameEnd], ReadWords(payload[nameEnd + 4..], count)))
  }

  lemma {:induction false} WordsLength(indices: seq<u32>, i: nat)
    requires i <= |indices|
    ensures |Words(indices, i)| == 4 * (|indices| - i)
    decreases |indices| - i
  {
    if i < |indices| { WordsLength(indices, i + 1); }
  }

  lemma {:induction false} WordsReadBack(indices: seq<u32>, i: nat)
    requires i <= |indices|
    ensures |Words(indices, i)| == 4 * (|indices| - i) && ReadWords(Words(indices, i), |indices| - i) == indices[i..]
    decreases |indices| - i
  {
    WordsLength(indices, i);
    if i < |indices| {
      WordsReadBack(indices, i + 1);
      GetU32Put(indices[i]);
      hide U32, GetU32;
      assert Words(indices, i)[..4] == U32(indices[i]) && Words(indices, i)[4..] == Words(indices, i + 1);
    }
  }

  lemma RequestLength(name: Bytes, indices: seq<u32>)
    ensures |DiffRequest(name, indices)| == 6 + |name| + 4 * |indices|
  {
    WordsLength(indices, 0);
  }

  // A request within the size the server takes is read back exactly when the
  // name is shorter than 65534 bytes.
  lemma RequestReadBack(name: Bytes, indices: seq<u32>)
    requires |DiffRequest(name, indices)| <= MAX_REQUEST_SIZE
    ensures ReadDiffRequest(DiffRequest(name, indices)) == Ok((name, indices)) <==> |name| < 0xfffe
  {
    hide *;
    LimitIs();
    RequestLength(name, indices);
    RequestParts(name, indices);
    WordsReadBack(indices, 0);
    assert indices[0..] == indices;
    if |name| < 0xfffe {
      ShortName(DiffRequest(name, indices), name, indices);
    } else {
      LongName(DiffRequest(name, indices), |name| % 0x1_0000, name, indices);
    }
  }

  lemma LimitIs()
    ensures MAX_REQUEST_SIZE == 0x400_0000 < TWO_TO_32
  {
  }

  lemma RequestParts(name: Bytes, indices: seq<u32>)
    requires |indices| < TWO_TO_32 && |DiffRequest(name, indices)| == 6 + |name| + 4 * |indices|
    ensures var p := DiffRequest(name, indices);
            && GetU16(p[0..2]) == |name| % 0x1_0000 && p[2..2 + |name|] == name
            && GetU32(p[2 + |name|..6 + |name|]) == |indices| && p[6 + |name|..] == Words(indices, 0)
  {
    GetU16Put(|name| % 0x1_0000);
    GetU32Put(|indices|);
    hide U16, U32, GetU16, GetU32, Words;
    var p, head, count := DiffRequest(name, indices), U16(|name| % 0x1_0000), U32(|indices|);
    assert p[0..2] == head;
    assert p[2..] == name + (count + Words(indices, 0));
    assert p[2..][..|name|] == name && p[2..2 + |name|] == p[2..][..|name|];
    assert p[2 + |name|..] == count + Words(indices, 0);
    assert p[2 + |name|..][..4] == count && p[2 + |name|..6 + |name|] == p[2 + |name|..][..4];
    assert p[6 + |name|..] == p[2 + |name|..][4..];
  }

  lemma ShortName(p: Bytes, name: Bytes, indices: seq<u32>)
    requires |name| < 0xfffe && |p| == 6 + |name| + 4 * |indices| <= 0x400_0000
    requires GetU16(p[0..2]) == |name| && p[2..2 + |name|] == name && GetU32(p[2 + |name|..6 + |name|]) == |indices|
    requires var words := p[6 + |name|..]; |words| == 4 * |indices| && ReadWords(words, |indices|) == indices
    ensures ReadDiffRequest(p) == Ok((name, indices))
  {
    hide GetU16, GetU32, ReadWords;
  }

  lemma LongName(p: Bytes, nameLen: nat, name: Bytes, indices: seq<u32>)
    requires |name| >= 0xfffe && nameLen == |name| % 0x1_0000 && |p| >= 6 && GetU16(p[0..2]) == nameLen
    ensures ReadDiffRequest(p) != Ok((name, indices))
  {
    hide GetU16, GetU32, ReadWords;
    var nameEnd := (2 + nameLen) % 0x1_0000;
    if 2 <= nameEnd <= |p| { assert |p[2..nameEnd]| < |name|; }
  }
}
