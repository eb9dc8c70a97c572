// What every chunker produces.
module Chunks {
  import opened Common

  datatype Chunk = Chunk(data: Bytes, offset: nat, size: nat, hash: u64)

  // makeChunk and the emit closures: the chunk of data between two positions.
  function Cut(sum64: Bytes -> u64, data: Bytes, from: nat, to: nat): (c: Chunk)
    requires from <= to <= |data|
  {
    Chunk(data[from..to], from, to - from, sum64(data[from..to]))
  }

  // chunker.Reassemble: the bytes of the chunks in order.
  function Reassemble(chunks: seq<Chunk>): Bytes {
    if chunks == [] then [] else chunks[0].data + Reassemble(chunks[1..])
  }

  // Chunks that cover data from a position on without gap or overlap.
  ghost predicate Covers(chunks: seq<Chunk>, data: Bytes, from: nat) {
    if from >= |data| then chunks == []
    else
      && chunks != []
      && chunks[0].offset == from && chunks[0].size == |chunks[0].data| > 0
      && from + chunks[0].size <= |data|
      && chunks[0].data == data[from..from + chunks[0].size]
      && Covers(chunks[1..], data, from + chunks[0].size)
  }

  lemma {:induction false} CoversReassemble(chunks: seq<Chunk>, data: Bytes, from: nat)
    requires from <= |data| && Covers(chunks, data, from)
    ensures Reassemble(chunks) == data[from..]
  {
    if from < |data| {
      var next := from + chunks[0].size;
      CoversReassemble(chunks[1..], data, next);
      assert data[from..] == data[from..next] + data[next..];
    }
  }
}
