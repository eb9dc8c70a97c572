// How a chunk is coded against the brain, and rebuilt (pkg/cromlib).
module Coding {
  import opened Common
  import opened Codebooks
  import opened ChunkTable
  import opened Blocks
  import Patch
  import Polynomial
  import XorDelta

  // Bit 60 of a CodebookID: the residual is an edit script.
  const FLAG_IS_PATCH: u64 := TWO_TO_60
  const MAX_PATCH_SIZE: nat := 256
  const ALIGNED_MIN_CODEWORD_SIZE: nat := 1024

  // id & FlagIsPatch, and id & 0x0FFFFFFFFFFFFFFF
  predicate IsPatch(id: u64) { id / TWO_TO_60 % 2 == 1 }
  function CleanId(id: u64): u64 { id % TWO_TO_60 }

  // id | FlagIsPatch
  function WithPatchFlag(id: u64): u64 {
    if IsPatch(id) then id else id + FLAG_IS_PATCH
  }

  function Truncated(b: Bytes, n: nat): Bytes { if |b| > n then b[..n] else b }

  // A missing brain is only ever asked for words by a file that needs one.
  function Lookup(brain: Option<Codebook>, id: u64): Result<Bytes> {
    if brain.None? then Err(BadLookup) else brain.value.Lookup(id)
  }

  // reconstructChunk: one chunk from its table entry and residual.
  function Rebuilt(brain: Option<Codebook>, id: u64, index: byte, size: u32, residual: Bytes): Result<Bytes> {
    if id == LITERAL_ID then Ok(residual)
    else if index == FRACTAL_INDEX then Ok(Polynomial.Generated(id, size))
    else
      var pattern :- Lookup(brain, CleanId(id));
      var usable := Truncated(pattern, size);
      if IsPatch(id) then Patch.Applied(usable, 0, residual)
      else Ok(XorDelta.Applied(usable, Truncated(residual, size)))
  }

  method ReconstructChunk(brain: Option<Codebook>, e: ChunkEntry, res: Bytes) returns (r: Result<Bytes>)
    ensures r == Rebuilt(brain, e.id, e.index, e.size, res)
  {
    if e.id == LITERAL_ID {
      return Ok(res);
    }
    if e.index == FRACTAL_INDEX {
      var generated := Polynomial.GeneratePolynomial(e.id, e.size);
      return Ok(generated);
    }
    var found := Lookup(brain, CleanId(e.id));
    if found.Err? {
      return Err(found.error);
    }
    var usable := Truncated(found.value, e.size);
    if IsPatch(e.id) {
      r := Patch.ApplyPatch(usable, res);
      return;
    }
    var chunk := XorDelta.Apply(usable, Truncated(res, e.size));
    return Ok(chunk);
  }

  // Only literals and polynomials are rebuilt without a word of the brain.
  lemma NoWordNoChunk(brain: Option<Codebook>, id: u64, index: byte, size: u32, residual: Bytes)
    requires id != LITERAL_ID && index != FRACTAL_INDEX
    requires brain.None? || id % TWO_TO_60 >= |brain.value.words|
    ensures Rebuilt(brain, id, index, size, residual) == Err(BadLookup)
  {
  }

  // How long a chunk comes out, whatever the table and the pool say: a literal as
  // long as its residual, a polynomial as long as announced, an XOR reference as its
  // residual or else its word, cut to what is announced.
  lemma RebuiltLength(brain: Option<Codebook>, id: u64, index: byte, size: u32, residual: Bytes)
    ensures id == LITERAL_ID ==> Rebuilt(brain, id, index, size, residual) == Ok(residual)
    ensures id != LITERAL_ID && index == FRACTAL_INDEX ==>
              Rebuilt(brain, id, index, size, residual).Ok? && |Rebuilt(brain, id, index, size, residual).value| == size
    ensures id != LITERAL_ID && index != FRACTAL_INDEX && id / TWO_TO_60 % 2 == 0 && brain.Some? && id % TWO_TO_60 < |brain.value.words| ==>
              var r := Rebuilt(brain, id, index, size, residual);
              r.Ok? && |r.value| == Min(size, if Min(|residual|, size) == 0 then |brain.value.words[id % TWO_TO_60]| else |residual|)
  {
    hide Patch.Applied, XorDelta.XorByte;
  }

  // ----- what the writers may store ---------------------------------------------------

  // A piece from which the readers rebuild exactly the chunk.
  ghost predicate Faithful(brain: Option<Codebook>, chunk: Bytes, p: Piece) {
    && p.size == |chunk| && |p.residual| <= |chunk|
    && (if p.id == LITERAL_ID then p.index != FRACTAL_INDEX else p.id < TWO_TO_63 - 1)
    && Rebuilt(brain, p.id, p.index, p.size, p.residual) == Ok(chunk)
  }

  type ExactIndex = map<u64, nat>

  // LSHSearcher.FindExact: the ID of a codeword byte-identical to the chunk.
  function FindExact(cb: Codebook, index: ExactIndex, sum64: Bytes -> u64, chunk: Bytes): (r: Option<u64>)
    requires cb.Valid()
    ensures r.Some? ==> r.value < |cb.words| && cb.words[r.value] == chunk
  {
    if |chunk| != cb.size then None
    else
      var h := sum64(chunk);
      if h in index && index[h] < |cb.words| && cb.words[index[h]] == chunk then Some(index[h]) else None
  }

  // buildIndex fills the map codeword by codeword.
  function BuiltIndex(cb: Codebook, sum64: Bytes -> u64, n: nat): ExactIndex
    requires n <= |cb.words|
  {
    if n == 0 then map[] else BuiltIndex(cb, sum64, n - 1)[sum64(cb.words[n - 1]) := n - 1]
  }

  lemma {:induction false} BuiltIndexContent(cb: Codebook, sum64: Bytes -> u64, n: nat, i: nat)
    requires i < n <= |cb.words|
    ensures var index := BuiltIndex(cb, sum64, n);
            sum64(cb.words[i]) in index && i <= index[sum64(cb.words[i])] < n
            && sum64(cb.words[index[sum64(cb.words[i])]]) == sum64(cb.words[i])
  {
    if i < n - 1 {
      BuiltIndexContent(cb, sum64, n - 1, i);
    }
  }

  method BuildIndex(cb: Codebook, sum64: Bytes -> u64) returns (index: ExactIndex)
    ensures index == BuiltIndex(cb, sum64, |cb.words|)
  {
    index := map[];
    for id := 0 to |cb.words|
      invariant index == BuiltIndex(cb, sum64, id)
    {
      index := index[sum64(cb.words[id]) := id];
    }
  }

  // Exact search misses a codeword only when a later, different one took its
  // place in the index: without such a collision it finds exactly the codewords.
  lemma FindExactComplete(cb: Codebook, sum64: Bytes -> u64, chunk: Bytes)
    requires cb.Valid()
    requires forall v, w :: v in cb.words && w in cb.words && sum64(v) == sum64(w) ==> v == w
    ensures FindExact(cb, BuiltIndex(cb, sum64, |cb.words|), sum64, chunk).Some? <==> chunk in cb.words
  {
    if chunk in cb.words {
      var i :| 0 <= i < |cb.words| && cb.words[i] == chunk;
      BuiltIndexContent(cb, sum64, |cb.words|, i);
      var j := BuiltIndex(cb, sum64, |cb.words|)[sum64(chunk)];
      assert cb.words[j] in cb.words;
    }
  }

  function Literal(chunk: Bytes, index: byte): Piece
    requires |chunk| < TWO_TO_32
  {
    Piece(LITERAL_ID, index, |chunk|, chunk)
  }

  function Reference(id: u64, index: byte, chunk: Bytes, residual: Bytes): Piece
    requires |chunk| < TWO_TO_32
  {
    Piece(id, index, |chunk|, residual)
  }

  lemma LiteralFaithful(brain: Option<Codebook>, chunk: Bytes, index: byte)
    requires |chunk| < TWO_TO_32 && index != FRACTAL_INDEX
    ensures Faithful(brain, chunk, Literal(chunk, index))
  {
  }

  lemma IdBits(id: u64)
    requires id < TWO_TO_60
    ensures CleanId(id) == id && !IsPatch(id) && WithPatchFlag(id) < TWO_TO_63 - 1
    ensures CleanId(WithPatchFlag(id)) == id && IsPatch(WithPatchFlag(id)) && WithPatchFlag(id) != LITERAL_ID
  {
  }

  lemma WordFound(cb: Codebook, id: u64)
    requires cb.Valid() && id < |cb.words|
    ensures id < TWO_TO_60 && Lookup(Some(cb), CleanId(id)) == Ok(cb.words[id]) && |cb.words[id]| == cb.size > 0
    ensures Lookup(Some(cb), CleanId(WithPatchFlag(id))) == Ok(cb.words[id])
  {
    assert cb.words[id] in cb.words;
    IdBits(id);
  }

  // The chunk equals the pattern, up to its own length: nothing else is stored.
  lemma ExactFaithful(cb: Codebook, id: u64, index: byte, chunk: Bytes)
    requires cb.Valid() && id < |cb.words| && index != FRACTAL_INDEX && |chunk| < TWO_TO_32
    requires chunk == Truncated(cb.words[id], |chunk|)
    ensures Faithful(Some(cb), chunk, Reference(id, index, chunk, []))
  {
    WordFound(cb, id);
    IdBits(id);
    hide IsPatch, CleanId, WithPatchFlag, Lookup, Patch.Applied;
  }

  lemma XorFaithful(cb: Codebook, id: u64, index: byte, chunk: Bytes)
    requires cb.Valid() && id < |cb.words| && index != FRACTAL_INDEX && 0 < |chunk| < TWO_TO_32
    ensures Faithful(Some(cb), chunk, Reference(id, index, chunk, XorDelta.Xored(chunk, cb.words[id])))
    ensures XorDelta.Xored(chunk, Truncated(cb.words[id], |chunk|)) == XorDelta.Xored(chunk, cb.words[id])
  {
    WordFound(cb, id);
    IdBits(id);
    var pattern := cb.words[id];
    if |pattern| > |chunk| { XorDelta.XorTruncated(chunk, pattern, |chunk|); }
    XorDelta.XorRoundTrip(chunk, Truncated(pattern, |chunk|));
    hide IsPatch, CleanId, WithPatchFlag, Lookup, Patch.Applied, XorDelta.Applied;
  }

  lemma PatchFaithful(cb: Codebook, id: u64, index: byte, chunk: Bytes, script: Bytes)
    requires cb.Valid() && id < |cb.words| && index != FRACTAL_INDEX && |script| <= |chunk| < TWO_TO_32
    requires Patch.IsScriptFor(script, Truncated(cb.words[id], |chunk|), chunk)
    ensures Faithful(Some(cb), chunk, Reference(WithPatchFlag(id), index, chunk, script))
  {
    WordFound(cb, id);
    IdBits(id);
    Patch.PatchRoundTrip(script, Truncated(cb.words[id], |chunk|), chunk);
    hide IsPatch, CleanId, WithPatchFlag, Lookup, Patch.Applied, Patch.IsScriptFor;
  }

  lemma PolynomialFaithful(brain: Option<Codebook>, chunk: Bytes, seed: u64)
    requires seed < 0x100_0000 && |chunk| < TWO_TO_32 && Polynomial.Generated(seed, |chunk|) == chunk
    ensures Faithful(brain, chunk, Reference(seed, FRACTAL_INDEX, chunk, []))
  {
    hide Polynomial.Generated;
  }
}
