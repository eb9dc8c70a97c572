// What the random reader shows of a file, against what unpacking gives
// (internal/vfs/reader.go, pkg/cromlib/unpack_bytes.go). The one looks at the index
// of a chunk first and the other at its ID, so they part ways over a literal that
// carries the index of polynomial chunks.
module RandomView {
  import opened Common
  import opened Tooling
  import opened Headers
  import opened ChunkTable
  import opened Codebooks
  import opened Blocks
  import opened Container
  import opened Restoring
  import opened Packing
  import opened Geometry
  import Coding
  import Patch
  import Polynomial
  import Unpacker
  import XorDelta

  // A chunk as ReadAt rebuilds it, before clamping: a script that does not apply
  // leaves the residual.
  function AtRandom(brain: Option<Codebook>, id: u64, index: byte, size: u32, residual: Bytes): Result<Bytes> {
    if index == FRACTAL_INDEX then Ok(Polynomial.Generated(id, size))
    else if id == LITERAL_ID then Ok(residual)
    else
      var pattern :- Coding.Lookup(brain, Coding.CleanId(id));
      var usable := Coding.Truncated(pattern, size);
      if Coding.IsPatch(id) then
        var chunk := Patch.Applied(usable, 0, residual);
        Ok(if chunk.Ok? then chunk.value else residual)
      else Ok(XorDelta.Applied(usable, Coding.Truncated(residual, size)))
  }

  // A literal with the index of polynomial chunks.
  predicate Marked(p: Piece) { p.id == LITERAL_ID && p.index == FRACTAL_INDEX }

  // The mark does no harm where the polynomial of that ID happens to generate the
  // literal.
  predicate Harmless(p: Piece) {
    Marked(p) ==> p.residual == Polynomial.Generated(LITERAL_ID, p.size)
  }

  ghost predicate HarmlessMarks(bs: seq<seq<Piece>>) {
    forall k, j :: 0 <= k < |bs| && 0 <= j < |bs[k]| ==> Harmless(bs[k][j])
  }

  // Chunk by chunk: a chunk that unpacking rebuilds is shown alike exactly then.
  lemma SameChunkIff(brain: Option<Codebook>, p: Piece)
    requires Sound(brain, p)
    ensures AtRandom(brain, p.id, p.index, p.size, p.residual) == Coding.Rebuilt(brain, p.id, p.index, p.size, p.residual) <==> Harmless(p)
  {
    hide Polynomial.Generated, Patch.Applied, XorDelta.Applied, Coding.Lookup, Coding.CleanId, Coding.IsPatch;
  }

  // The piece that unpacking would read as the random reader reads this one.
  function Seen(p: Piece): Piece {
    if Marked(p) then p.(residual := Polynomial.Generated(LITERAL_ID, p.size)) else p
  }

  function SeenBlock(ps: seq<Piece>): (r: seq<Piece>)
    ensures |r| == |ps|
  {
    seq(|ps|, j requires 0 <= j < |ps| => Seen(ps[j]))
  }

  function SeenBlocks(bs: seq<seq<Piece>>): (r: seq<seq<Piece>>)
    ensures |r| == |bs|
  {
    seq(|bs|, k requires 0 <= k < |bs| => SeenBlock(bs[k]))
  }

  // The bytes the random reader shows.
  ghost function Shown(brain: Option<Codebook>, bs: seq<seq<Piece>>): Bytes {
    FileData(brain, SeenBlocks(bs), |bs|)
  }

  lemma SeenPiece(brain: Option<Codebook>, p: Piece)
    requires Sound(brain, p)
    ensures Sound(brain, Seen(p)) && Seen(p).size == p.size
    ensures AtRandom(brain, p.id, p.index, p.size, p.residual) == Ok(ChunkData(brain, Seen(p)))
  {
    hide Polynomial.Generated, Patch.Applied, XorDelta.Applied, Coding.Lookup, Coding.CleanId, Coding.IsPatch;
  }

  lemma SeenSound(brain: Option<Codebook>, bs: seq<seq<Piece>>)
    requires SoundBlocks(brain, bs)
    ensures SoundBlocks(brain, SeenBlocks(bs))
  {
    hide Sound, Seen;
    forall k, j | 0 <= k < |bs| && 0 <= j < |bs[k]|
      ensures Sound(brain, SeenBlocks(bs)[k][j])
    {
      assert SoundBlock(brain, bs[k]);
      SeenPiece(brain, bs[k][j]);
    }
  }

  lemma {:induction false} SeenSize(ps: seq<Piece>, n: nat)
    requires n <= |ps|
    ensures Size(SeenBlock(ps), n) == Size(ps, n)
  {
    if n > 0 { SeenSize(ps, n - 1); }
  }

  lemma {:induction false} SeenShape(bs: seq<seq<Piece>>, k: nat)
    requires k <= |bs|
    ensures Start(SeenBlocks(bs), k) == Start(bs, k) && Original(SeenBlocks(bs), k) == Original(bs, k)
  {
    if k > 0 {
      SeenShape(bs, k - 1);
      SeenSize(bs[k - 1], |bs[k - 1]|);
    }
  }

  lemma SeenAt(bs: seq<seq<Piece>>, k: nat, j: nat)
    requires k < |bs| && j < |bs[k]|
    ensures SeenBlocks(bs)[k] == SeenBlock(bs[k]) && SeenBlocks(bs)[k][j] == Seen(bs[k][j]) && Seen(bs[k][j]).size == bs[k][j].size
  {
    hide Polynomial.Generated;
  }

  lemma ShownIs(brain: Option<Codebook>, bs: seq<seq<Piece>>)
    ensures Shown(brain, bs) == FileData(brain, SeenBlocks(bs), |bs|)
  {
    hide FileData, SeenBlocks;
  }

  lemma ShownLength(brain: Option<Codebook>, bs: seq<seq<Piece>>)
    requires SoundBlocks(brain, bs)
    ensures |Shown(brain, bs)| == Original(bs, |bs|)
  {
    hide *;
    SeenSound(brain, bs);
    SeenShape(bs, |bs|);
    ExpectedLength(brain, SeenBlocks(bs), {}, |bs|);
    ShownIs(brain, bs);
  }

  // Chunk j of block k lies where it does in the original, and is what the random
  // reader makes of its piece.
  lemma ChunkShown(brain: Option<Codebook>, bs: seq<seq<Piece>>, k: nat, j: nat)
    requires SoundBlocks(brain, bs) && k < |bs| && j < |bs[k]|
    ensures var es, i := Entries(bs, |bs|), Start(bs, k) + j;
            && i < |es| && EndOf(es, i) <= EndOf(es, i + 1) <= |Shown(brain, bs)|
            && es[i].size == bs[k][j].size == |ChunkData(brain, Seen(bs[k][j]))| && EndOf(es, i + 1) == EndOf(es, i) + es[i].size
            && Shown(brain, bs)[EndOf(es, i)..EndOf(es, i + 1)] == ChunkData(brain, Seen(bs[k][j]))
  {
    hide *;
    var seen := SeenBlocks(bs);
    SeenSound(brain, bs);
    SeenShape(bs, k);
    SeenSize(bs[k], j);
    SeenSize(bs[k], j + 1);
    SeenAt(bs, k, j);
    ShownIs(brain, bs);
    ChunkInFile(brain, bs, k, j);
    ChunkInFile(brain, seen, k, j);
    EndAt(bs, k, j);
    EndAt(bs, k, j + 1);
    EndAt(seen, k, j);
    EndAt(seen, k, j + 1);
  }

  lemma SeenSame(bs: seq<seq<Piece>>)
    requires HarmlessMarks(bs)
    ensures SeenBlocks(bs) == bs
  {
    hide Polynomial.Generated;
    forall k | 0 <= k < |bs|
      ensures SeenBlocks(bs)[k] == bs[k]
    {
      forall j | 0 <= j < |bs[k]|
        ensures SeenBlock(bs[k])[j] == bs[k][j]
      {
        assert Harmless(bs[k][j]);
      }
      SameElements(SeenBlock(bs[k]), bs[k]);
    }
    SameElements(SeenBlocks(bs), bs);
  }

  lemma SeenDiffers(brain: Option<Codebook>, p: Piece)
    requires !Harmless(p)
    ensures ChunkData(brain, Seen(p)) != ChunkData(brain, p)
  {
    hide Polynomial.Generated;
  }

  // The random reader shows what unpacking gives, exactly if no literal carries the
  // mark of polynomial chunks, except where it does no harm.
  lemma ShownIff(brain: Option<Codebook>, bs: seq<seq<Piece>>)
    requires SoundBlocks(brain, bs)
    ensures Shown(brain, bs) == FileData(brain, bs, |bs|) <==> HarmlessMarks(bs)
  {
    hide *;
    ShownIs(brain, bs);
    if HarmlessMarks(bs) {
      SeenSame(bs);
    } else {
      var k, j := SomeHarm(bs);
      ChunkInFile(brain, bs, k, j);
      ChunkShown(brain, bs, k, j);
      SeenDiffers(brain, bs[k][j]);
    }
  }

  lemma SomeHarm(bs: seq<seq<Piece>>) returns (k: nat, j: nat)
    requires !HarmlessMarks(bs)
    ensures k < |bs| && j < |bs[k]| && !Harmless(bs[k][j])
  {
    hide Harmless;
    k, j :| 0 <= k < |bs| && 0 <= j < |bs[k]| && !Harmless(bs[k][j]);
  }

  // The same for the readers themselves, on any file that unpacks.
  lemma ReadersAgreeIff(tools: Tools, brain: Option<Codebook>, password: Bytes, bytes: Bytes, h: Header, bs: seq<seq<Piece>>, frames: seq<Bytes>)
    requires Readable(tools, brain, password, true, bytes, h, bs, frames, {})
    requires h.isLossy || tools.sha256(FileData(brain, bs, |bs|)) == h.originalHash
    ensures Unpacker.Unpacked(tools, brain, password, true, bytes) == Ok((Shown(brain, bs), 0 as nat)) <==> HarmlessMarks(bs)
  {
    hide *;
    NoneBad(brain, bs, {}, |bs|);
    UnpackRestores(tools, brain, password, true, bytes, h, bs, frames, {});
    ReadableParts(tools, brain, password, true, bytes, h, bs, frames, {});
    ShownIff(brain, bs);
  }

  // No writer marks a literal.
  lemma RegularIsHarmless(bs: seq<seq<Piece>>)
    requires RegularBlocks(bs)
    ensures HarmlessMarks(bs)
  {
    hide Polynomial.Generated;
    forall k, j | 0 <= k < |bs| && 0 <= j < |bs[k]|
      ensures Harmless(bs[k][j])
    {
      assert Regular(bs[k]);
    }
  }

  // A file of one marked literal: unpacking gives the byte 0, the random reader
  // the byte 255.
  lemma MarkedLiteral()
    ensures var p := Piece(LITERAL_ID, FRACTAL_INDEX, 1, [0]);
            && WellFormed([[p]]) && SoundBlocks(None, [[p]]) && !Harmless(p)
            && Coding.Rebuilt(None, p.id, p.index, p.size, p.residual) == Ok([0])
            && AtRandom(None, p.id, p.index, p.size, p.residual) == Ok([255])
            && FileData(None, [[p]], 1) == [0] && Shown(None, [[p]]) == [255]
  {
    var p := Piece(LITERAL_ID, FRACTAL_INDEX, 1, [0]);
    var q := Piece(LITERAL_ID, FRACTAL_INDEX, 1, [255]);
    hide *;
    MarkedPiece(p, q);
    OneChunk(p);
    OneChunk(q);
    SameElements(SeenBlock([p]), [q]);
    SameElements(SeenBlocks([[p]]), [[q]]);
    ShownIs(None, [[p]]);
  }

  lemma MarkedPiece(p: Piece, q: Piece)
    requires p == Piece(LITERAL_ID, FRACTAL_INDEX, 1, [0]) && q == Piece(LITERAL_ID, FRACTAL_INDEX, 1, [255])
    ensures Seen(p) == q && SeenBlock([p])[0] == q && SeenBlocks([[p]])[0] == SeenBlock([p]) && !Harmless(p)
    ensures Coding.Rebuilt(None, p.id, p.index, p.size, p.residual) == Ok([0])
    ensures AtRandom(None, p.id, p.index, p.size, p.residual) == Ok([255])
  {
    assert Polynomial.Generated(LITERAL_ID, 1) == [255];
    hide Polynomial.Generated;
  }

  lemma OneChunk(p: Piece)
    requires p.id == LITERAL_ID && p.size == |p.residual| == 1
    ensures WellFormed([[p]]) && SoundBlocks(None, [[p]]) && FileData(None, [[p]], 1) == p.residual
  {
    var ps, bs := [p], [[p]];
    assert Size(ps, 0) == 0 && Size(ps, 1) == 1 && PoolSize(ps, 0) == 0 && PoolSize(ps, 1) == 1;
    assert Start(bs, 0) == 0 && Start(bs, 1) == 1 && Base(bs, 0) == 0 && Base(bs, 1) == 1 && Original(bs, 0) == 0 && Original(bs, 1) == 1;
    assert Data(None, ps, 0) == [] && Data(None, ps, 1) == p.residual;
    assert FileData(None, bs, 0) == [] && FileData(None, bs, 1) == p.residual;
  }
}
