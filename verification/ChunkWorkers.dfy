// Chunk coding by the worker pools of Pack and PackStream
// (pkg/cromlib/compiler.go, pkg/cromlib/compiler_stream.go), archive mode.
module ChunkWorkers {
  import opened Common
  import opened Chunks
  import opened ChunkTable
  import opened Codebooks
  import opened Blocks
  import Coding
  import Patch
  import Polynomial
  import XorDelta

  // The outcomes, for one chunk, of the entropy comparisons, of the search for
  // the nearest codeword (none when it fails) and of the similarity comparisons.
  datatype Evidence = Evidence(lowEntropy: bool, bypass: bool, best: Option<nat>, lowSimilarity: bool, patchable: bool)

  // Which writer is at work: Pack, with its flag for chunks of large codewords
  // that are not exact, or PackStream.
  datatype Mode = File(literalIfNotExact: bool) | Stream

  // The brain, the index of its exact words and their checksum.
  datatype Searcher = Searcher(brain: Option<Codebook>, index: Coding.ExactIndex, sum64: Bytes -> u64) {
    ghost predicate Valid() { brain.Some? ==> brain.value.Valid() }

    ghost predicate Possible(ev: Evidence) {
      brain.Some? && ev.best.Some? ==> ev.best.value < |brain.value.words|
    }
  }

  // The decisions of Pack, given the seed and the script its two searches found.
  function PackDecision(s: Searcher, literalIfNotExact: bool, chunk: Bytes, ev: Evidence, seed: Option<u64>, script: Bytes): Result<Piece>
    requires s.Valid() && s.Possible(ev) && |chunk| < TWO_TO_32
  {
    if s.brain.None? then Ok(Coding.Literal(chunk, LITERAL_INDEX))
    else
      var cb := s.brain.value;
      var exact := Coding.FindExact(cb, s.index, s.sum64, chunk);
      if exact.Some? then Ok(Coding.Reference(exact.value, 0, chunk, []))
      else if ev.lowEntropy && seed.Some? then Ok(Coding.Reference(seed.value, FRACTAL_INDEX, chunk, []))
      else if literalIfNotExact || ev.bypass then Ok(Coding.Literal(chunk, LITERAL_INDEX))
      else if ev.best.None? then Err(NoMatch)
      else
        var id := ev.best.value;
        var usable := Coding.Truncated(cb.words[id], |chunk|);
        var xor := XorDelta.Xored(chunk, usable);
        if chunk == usable then Ok(Coding.Reference(id, 0, chunk, []))
        else if ev.lowSimilarity then Ok(Coding.Literal(chunk, LITERAL_INDEX))
        else if ev.patchable && |script| < |xor| && |script| <= Coding.MAX_PATCH_SIZE then
          Ok(Coding.Reference(Coding.WithPatchFlag(id), 0, chunk, script))
        else Ok(Coding.Reference(id, 0, chunk, xor))
  }

  // The seed is what the polynomial search finds, the script what Diff makes of
  // the pattern chosen.
  ghost predicate Searched(s: Searcher, chunk: Bytes, ev: Evidence, seed: Option<u64>, script: Bytes) {
    && (seed.Some? ==> seed.value < 0x100_0000 && Polynomial.Generated(seed.value, |chunk|) == chunk)
    && (seed.None? && ev.lowEntropy && s.brain.Some? && chunk != [] ==> !Polynomial.IsPolynomial(chunk))
    && (s.brain.Some? && ev.best.Some? && ev.best.value < |s.brain.value.words| && ev.patchable ==>
          Patch.IsMinimalScript(script, Coding.Truncated(s.brain.value.words[ev.best.value], |chunk|), chunk) && Patch.IsShortest(script))
  }

  function StreamDecision(s: Searcher, chunk: Bytes, ev: Evidence): Result<Piece>
    requires s.Valid() && s.Possible(ev) && |chunk| < TWO_TO_32
  {
    if s.brain.None? then Ok(Coding.Literal(chunk, 0))
    else
      var cb := s.brain.value;
      var exact := Coding.FindExact(cb, s.index, s.sum64, chunk);
      if exact.Some? then Ok(Coding.Reference(exact.value, 0, chunk, []))
      else if ev.bypass then Ok(Coding.Literal(chunk, 0))
      else if ev.best.None? then Err(NoMatch)
      else if ev.lowSimilarity then Ok(Coding.Literal(chunk, 0))
      else Ok(Coding.Reference(ev.best.value, 0, chunk, XorDelta.Xored(chunk, cb.words[ev.best.value])))
  }

  // r is an outcome the writer can reach for the chunk.
  ghost predicate Outcome(mode: Mode, s: Searcher, chunk: Bytes, ev: Evidence, r: Result<Piece>)
    requires s.Valid() && s.Possible(ev) && |chunk| < TWO_TO_32
  {
    match mode
    case Stream => r == StreamDecision(s, chunk, ev)
    case File(literal) =>
      exists seed, script :: Searched(s, chunk, ev, seed, script) && r == PackDecision(s, literal, chunk, ev, seed, script)
  }

  lemma PackFaithful(s: Searcher, literal: bool, chunk: Bytes, ev: Evidence, seed: Option<u64>, script: Bytes)
    requires s.Valid() && s.Possible(ev) && 0 < |chunk| < TWO_TO_32 && Searched(s, chunk, ev, seed, script)
    ensures var r := PackDecision(s, literal, chunk, ev, seed, script); r.Ok? ==> Coding.Faithful(s.brain, chunk, r.value)
  {
    hide Coding.Faithful, XorDelta.Xored, Polynomial.Generated, Coding.FindExact, Patch.IsMinimalScript, Coding.WithPatchFlag, Polynomial.IsPolynomial;
    Coding.LiteralFaithful(s.brain, chunk, LITERAL_INDEX);
    if seed.Some? { Coding.PolynomialFaithful(s.brain, chunk, seed.value); }
    if s.brain.Some? {
      var cb := s.brain.value;
      var exact := Coding.FindExact(cb, s.index, s.sum64, chunk);
      if exact.Some? {
        Coding.ExactFaithful(cb, exact.value, 0, chunk);
      } else if ev.best.Some? {
        NearFaithful(cb, ev.best.value, chunk, script, ev.patchable);
      }
    }
  }

  lemma NearFaithful(cb: Codebook, id: nat, chunk: Bytes, script: Bytes, patched: bool)
    requires cb.Valid() && id < |cb.words| && 0 < |chunk| < TWO_TO_32
    requires patched ==> Patch.IsMinimalScript(script, Coding.Truncated(cb.words[id], |chunk|), chunk)
    ensures var usable := Coding.Truncated(cb.words[id], |chunk|);
            && (chunk == usable ==> Coding.Faithful(Some(cb), chunk, Coding.Reference(id, 0, chunk, [])))
            && Coding.Faithful(Some(cb), chunk, Coding.Reference(id, 0, chunk, XorDelta.Xored(chunk, usable)))
            && (patched && |script| <= |chunk| ==>
                  Coding.Faithful(Some(cb), chunk, Coding.Reference(Coding.WithPatchFlag(id), 0, chunk, script)))
  {
    ScriptFor(script, Coding.Truncated(cb.words[id], |chunk|), chunk);
    hide Coding.Faithful, XorDelta.Xored, Coding.WithPatchFlag, Patch.IsMinimalScript, Patch.IsScriptFor;
    if chunk == Coding.Truncated(cb.words[id], |chunk|) { Coding.ExactFaithful(cb, id, 0, chunk); }
    Coding.XorFaithful(cb, id, 0, chunk);
    if patched && |script| <= |chunk| { Coding.PatchFaithful(cb, id, 0, chunk, script); }
  }

  lemma ScriptFor(script: Bytes, pattern: Bytes, original: Bytes)
    ensures Patch.IsMinimalScript(script, pattern, original) ==> Patch.IsScriptFor(script, pattern, original)
  {
  }

  lemma StreamFaithful(s: Searcher, chunk: Bytes, ev: Evidence)
    requires s.Valid() && s.Possible(ev) && 0 < |chunk| < TWO_TO_32
    ensures var r := StreamDecision(s, chunk, ev); r.Ok? ==> Coding.Faithful(s.brain, chunk, r.value)
  {
    hide Coding.Faithful, XorDelta.Xored, Coding.FindExact;
    Coding.LiteralFaithful(s.brain, chunk, 0);
    if s.brain.Some? {
      var cb := s.brain.value;
      var exact := Coding.FindExact(cb, s.index, s.sum64, chunk);
      if exact.Some? { Coding.ExactFaithful(cb, exact.value, 0, chunk); }
      if ev.best.Some? { Coding.XorFaithful(cb, ev.best.value, 0, chunk); }
    }
  }

  // Whatever the writer reaches for a chunk, the chunk is rebuilt from it.
  lemma OutcomeFaithful(mode: Mode, s: Searcher, chunk: Bytes, ev: Evidence, p: Piece)
    requires s.Valid() && s.Possible(ev) && 0 < |chunk| < TWO_TO_32 && Outcome(mode, s, chunk, ev, Ok(p))
    ensures Coding.Faithful(s.brain, chunk, p)
  {
    hide Coding.Faithful, PackDecision, StreamDecision, Searched;
    if mode.Stream? {
      StreamFaithful(s, chunk, ev);
    } else {
      var seed, script :| Searched(s, chunk, ev, seed, script) && Ok(p) == PackDecision(s, mode.literalIfNotExact, chunk, ev, seed, script);
      PackFaithful(s, mode.literalIfNotExact, chunk, ev, seed, script);
    }
  }

  // Only a failed search for the nearest codeword fails a chunk.
  lemma OutcomeFails(mode: Mode, s: Searcher, chunk: Bytes, ev: Evidence, r: Result<Piece>)
    requires s.Valid() && s.Possible(ev) && |chunk| < TWO_TO_32 && Outcome(mode, s, chunk, ev, r) && r.Err?
    ensures s.brain.Some? && ev.best.None?
  {
    hide Searched, Coding.FindExact, XorDelta.Xored;
  }

  // The body of a worker: one chunk, rebuilt from the piece it is stored as. Only a
  // failed search for the nearest codeword fails it.
  method EncodeChunk(mode: Mode, s: Searcher, chunk: Bytes, ev: Evidence) returns (r: Result<Piece>)
    requires s.Valid() && s.Possible(ev) && |chunk| < TWO_TO_32
    ensures Outcome(mode, s, chunk, ev, r)
    ensures r.Ok? && chunk != [] ==> Coding.Faithful(s.brain, chunk, r.value)
    ensures r.Err? ==> s.brain.Some? && ev.best.None?
    // Without a brain every chunk is a literal.
    ensures s.brain.None? ==> r == Ok(Piece(LITERAL_ID, if mode.File? then 255 else 0, |chunk|, chunk))
    // A chunk found among the codewords is stored as its ID alone.
    ensures s.brain.Some? ==>
              var exact := Coding.FindExact(s.brain.value, s.index, s.sum64, chunk);
              exact.Some? ==> r == Ok(Piece(exact.value, 0, |chunk|, []))
    // Pack, for the others: a polynomial of low entropy as its seed; a chunk not
    // worth a search as a literal; else by the nearest codeword: as its ID if it is
    // the same, as a literal if it is not similar, and otherwise as the shorter of a
    // minimal script and an XOR residual, scripts only up to 256 bytes.
    ensures mode.File? && s.brain.Some? && chunk != [] && Coding.FindExact(s.brain.value, s.index, s.sum64, chunk).None? ==>
              if ev.lowEntropy && Polynomial.IsPolynomial(chunk) then
                r.Ok? && r.value.index == 253 && r.value.residual == [] && r.value.id < 0x100_0000
              else if mode.literalIfNotExact || ev.bypass then r == Ok(Piece(LITERAL_ID, 255, |chunk|, chunk))
              else if ev.best.None? then r.Err?
              else
                var word := s.brain.value.words[ev.best.value];
                var usable := if |word| > |chunk| then word[..|chunk|] else word;
                if chunk == usable then r == Ok(Piece(ev.best.value, 0, |chunk|, []))
                else if ev.lowSimilarity then r == Ok(Piece(LITERAL_ID, 255, |chunk|, chunk))
                else
                  && r.Ok? && r.value.index == 0 && r.value.size == |chunk| && r.value.id % TWO_TO_60 == ev.best.value
                  && (if r.value.id == ev.best.value then |r.value.residual| == |chunk|
                      else
                        && ev.patchable && r.value.id == ev.best.value + TWO_TO_60
                        && Patch.IsMinimalScript(r.value.residual, usable, chunk) && Patch.IsShortest(r.value.residual)
                        && |r.value.residual| < |chunk| && |r.value.residual| <= 256)
                  && (ev.patchable && (forall script :: Patch.IsMinimalScript(script, usable, chunk) && Patch.IsShortest(script) ==>
                                                          |script| < |chunk| && |script| <= 256)
                      ==> r.value.id != ev.best.value)
    // PackStream, for the others.
    ensures mode.Stream? && s.brain.Some? && Coding.FindExact(s.brain.value, s.index, s.sum64, chunk).None? ==>
              if ev.bypass then r == Ok(Piece(LITERAL_ID, 0, |chunk|, chunk))
              else if ev.best.None? then r.Err?
              else if ev.lowSimilarity then r == Ok(Piece(LITERAL_ID, 0, |chunk|, chunk))
              else r.Ok? && r.value.id == ev.best.value && r.value.index == 0 && r.value.size == |r.value.residual| == |chunk|
  {
    r := Decide(mode, s, chunk, ev);
    hide Coding.Faithful, Polynomial.IsPolynomial, Polynomial.Generated, Patch.IsMinimalScript, Patch.IsShortest, Coding.FindExact, XorDelta.Xored;
    if r.Ok? {
      if chunk != [] { OutcomeFaithful(mode, s, chunk, ev, r.value); }
    } else {
      OutcomeFails(mode, s, chunk, ev, r);
    }
    if s.brain.Some? && ev.best.Some? { Coding.IdBits(ev.best.value); }
    if mode.File? {
      ghost var seed, script :| Searched(s, chunk, ev, seed, script) && r == PackDecision(s, mode.literalIfNotExact, chunk, ev, seed, script);
      if seed.Some? { IsOne(seed.value, chunk); }
    }
  }

  lemma IsOne(seed: u64, chunk: Bytes)
    requires Polynomial.Generated(seed, |chunk|) == chunk
    ensures Polynomial.IsPolynomial(chunk)
  {
  }

  method Decide(mode: Mode, s: Searcher, chunk: Bytes, ev: Evidence) returns (r: Result<Piece>)
    requires s.Valid() && s.Possible(ev) && |chunk| < TWO_TO_32
    ensures Outcome(mode, s, chunk, ev, r)
  {
    if mode.Stream? {
      r := StreamDecision(s, chunk, ev);
      return;
    }
    hide Coding.FindExact, Polynomial.Generated, Polynomial.IsPolynomial, Patch.IsMinimalScript, Coding.WithPatchFlag;
    var seed, script := None, [];
    if s.brain.Some? {
      if ev.lowEntropy {
        var found, value := Polynomial.FindPolynomial(chunk);
        if found { seed := Some(value); }
      }
      if ev.best.Some? && ev.patchable {
        script := Patch.Diff(chunk, Coding.Truncated(s.brain.value.words[ev.best.value], |chunk|));
      }
    }
    assert Searched(s, chunk, ev, seed, script);
    r := PackDecision(s, mode.literalIfNotExact, chunk, ev, seed, script);
  }

  // ----- the pool ------------------------------------------------------------------------

  ghost predicate Possible(s: Searcher, ev: nat -> Evidence) {
    forall j :: s.Possible(ev(j))
  }

  ghost predicate Codable(chunks: seq<Chunk>) {
    forall j :: 0 <= j < |chunks| ==> 0 < |chunks[j].data| < TWO_TO_32
  }

  // Slot j holds an outcome for chunk j.
  ghost predicate SlotDone(mode: Mode, s: Searcher, chunks: seq<Chunk>, ev: nat -> Evidence, j: nat, slot: Option<Result<Piece>>)
    requires s.Valid() && Possible(s, ev) && Codable(chunks) && j < |chunks|
  {
    slot.Some? && Outcome(mode, s, chunks[j].data, ev(j), slot.value)
  }

  // The pool at work: the jobs before next have been taken, and those no worker
  // is busy with are done.
  ghost predicate Working(mode: Mode, s: Searcher, chunks: seq<Chunk>, ev: nat -> Evidence, concurrency: nat,
                          results: seq<Option<Result<Piece>>>, next: nat, busy: map<nat, nat>)
    requires s.Valid() && Possible(s, ev) && Codable(chunks)
  {
    && |results| == |chunks| && next <= |chunks|
    && (forall w :: w in busy ==> w < concurrency && busy[w] < next)
    && (forall j :: 0 <= j < next && j !in busy.Values ==> SlotDone(mode, s, chunks, ev, j, results[j]))
  }

  // A worker finishes its job and writes the slot of that job.
  method FinishOne(mode: Mode, s: Searcher, chunks: seq<Chunk>, ev: nat -> Evidence, ghost concurrency: nat,
                   results0: seq<Option<Result<Piece>>>, ghost next: nat, busy0: map<nat, nat>, w: nat)
    returns (results: seq<Option<Result<Piece>>>, busy: map<nat, nat>)
    requires s.Valid() && Possible(s, ev) && Codable(chunks) && w in busy0
    requires Working(mode, s, chunks, ev, concurrency, results0, next, busy0)
    ensures Working(mode, s, chunks, ev, concurrency, results, next, busy) && |busy| == |busy0| - 1
  {
    var job := busy0[w];
    InRange(s, chunks, ev, job);
    var r := EncodeChunk(mode, s, chunks[job].data, ev(job));
    hide Outcome, Searcher.Valid, Possible, Codable;
    WriteSlot(mode, s, chunks, ev, job, r);
    hide SlotDone;
    FinishJob(busy0, w);
    results, busy := results0[job := Some(r)], busy0 - {w};
  }

  lemma InRange(s: Searcher, chunks: seq<Chunk>, ev: nat -> Evidence, j: nat)
    requires Possible(s, ev) && Codable(chunks) && j < |chunks|
    ensures s.Possible(ev(j)) && |chunks[j].data| < TWO_TO_32
  {
  }

  lemma TakeOne(mode: Mode, s: Searcher, chunks: seq<Chunk>, ev: nat -> Evidence, concurrency: nat,
                results: seq<Option<Result<Piece>>>, next: nat, busy: map<nat, nat>, w: nat)
    requires s.Valid() && Possible(s, ev) && Codable(chunks) && next < |chunks| && w < concurrency && w !in busy
    requires Working(mode, s, chunks, ev, concurrency, results, next, busy)
    ensures Working(mode, s, chunks, ev, concurrency, results, next + 1, busy[w := next]) && |busy[w := next]| == |busy| + 1
  {
    hide SlotDone, Searcher.Valid, Possible, Codable;
    TakeJob(busy, w, next);
  }

  lemma SomeoneCanMove(n: nat, next: nat, busy: map<nat, nat>, concurrency: nat)
    requires concurrency >= 1 && (next < n || busy != map[])
    ensures (next < n && exists w :: 0 <= w < concurrency && w !in busy) || busy != map[]
  {
    if busy == map[] { assert 0 !in busy; }
  }

  // The workers take jobs from one queue and each writes the slot of its own job.
  // Which worker takes the next job, and which one finishes first, is arbitrary.
  method RunWorkers(mode: Mode, s: Searcher, chunks: seq<Chunk>, ev: nat -> Evidence, concurrency: nat)
    returns (results: seq<Option<Result<Piece>>>)
    requires s.Valid() && Possible(s, ev) && Codable(chunks) && concurrency >= 1
    ensures |results| == |chunks| && forall j :: 0 <= j < |chunks| ==> SlotDone(mode, s, chunks, ev, j, results[j])
  {
    results := seq(|chunks|, _ => None);
    var next: nat, busy: map<nat, nat> := 0, map[];
    assert Working(mode, s, chunks, ev, concurrency, results, next, busy);
    hide *;
    while next < |chunks| || busy != map[]
      invariant next <= |chunks| && Working(mode, s, chunks, ev, concurrency, results, next, busy)
      decreases 2 * (|chunks| - next) + |busy|
    {
      SomeoneCanMove(|chunks|, next, busy, concurrency);
      if {
        case next < |chunks| && exists w :: 0 <= w < concurrency && w !in busy =>
          var w :| 0 <= w < concurrency && w !in busy;
          TakeOne(mode, s, chunks, ev, concurrency, results, next, busy, w);
          busy := busy[w := next];
          next := next + 1;
        case busy != map[] =>
          var w :| w in busy;
          results, busy := FinishOne(mode, s, chunks, ev, concurrency, results, next, busy, w);
      }
    }
    AllDone(mode, s, chunks, ev, concurrency, results);
  }

  lemma AllDone(mode: Mode, s: Searcher, chunks: seq<Chunk>, ev: nat -> Evidence, concurrency: nat, results: seq<Option<Result<Piece>>>)
    requires s.Valid() && Possible(s, ev) && Codable(chunks)
    requires Working(mode, s, chunks, ev, concurrency, results, |chunks|, map[])
    ensures |results| == |chunks| && forall j :: 0 <= j < |chunks| ==> SlotDone(mode, s, chunks, ev, j, results[j])
  {
    hide SlotDone;
  }

  lemma TakeJob(busy: map<nat, nat>, w: nat, job: nat)
    requires w !in busy
    ensures |busy[w := job]| == |busy| + 1 && forall j :: j in busy.Values || j == job <==> j in busy[w := job].Values
  {
    var after := busy[w := job];
    assert after.Keys == busy.Keys + {w};
    forall j | j in busy.Values
      ensures j in after.Values
    {
      var v :| v in busy && busy[v] == j;
      assert v in after && after[v] == j;
    }
    assert w in after && after[w] == job;
  }

  lemma FinishJob(busy: map<nat, nat>, w: nat)
    requires w in busy
    ensures |busy - {w}| == |busy| - 1 && forall j :: j in busy.Values ==> j == busy[w] || j in (busy - {w}).Values
  {
    var after := busy - {w};
    assert after.Keys == busy.Keys - {w};
    forall j | j in busy.Values && j != busy[w]
      ensures j in after.Values
    {
      var v :| v in busy && busy[v] == j;
      assert v in after && after[v] == j;
    }
  }

  lemma WriteSlot(mode: Mode, s: Searcher, chunks: seq<Chunk>, ev: nat -> Evidence, j: nat, r: Result<Piece>)
    requires s.Valid() && Possible(s, ev) && Codable(chunks) && j < |chunks| && Outcome(mode, s, chunks[j].data, ev(j), r)
    ensures SlotDone(mode, s, chunks, ev, j, Some(r))
  {
  }
}
