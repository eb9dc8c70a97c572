// The search through all codewords, or through those allowed (internal/search/linear.go).
module LinearSearch {
  import opened Common
  import opened Codebooks
  import opened Hamming

  const MAX_INT: nat := 0x7fff_ffff_ffff_ffff

  datatype MatchResult = MatchResult(id: u64, pattern: Bytes, distance: nat)

  // The first of these codewords at the least distance from the chunk.
  ghost predicate IsNearest(cb: Codebook, ids: seq<u64>, chunk: Bytes, r: MatchResult) {
    exists k :: 0 <= k < |ids| && Nearest(cb, ids, |ids|, chunk, r, k)
  }

  // Among the first n IDs, position k holds the first codeword at least distance.
  ghost predicate Nearest(cb: Codebook, ids: seq<u64>, n: nat, chunk: Bytes, r: MatchResult, k: nat) {
    && k < n <= |ids| && r.id == ids[k] < |cb.words| && r.pattern == cb.words[r.id] && r.distance == Distance(chunk, r.pattern)
    && (forall j :: 0 <= j < n && ids[j] < |cb.words| ==> r.distance <= Distance(chunk, cb.words[ids[j]]))
    && (forall j :: 0 <= j < k && ids[j] < |cb.words| ==> r.distance < Distance(chunk, cb.words[ids[j]]))
  }

  ghost predicate InRange(cb: Codebook, ids: seq<u64>) {
    forall j :: 0 <= j < |ids| ==> ids[j] < |cb.words|
  }

  ghost function AllIds(cb: Codebook): seq<u64>
    requires |cb.words| < TWO_TO_60
  {
    seq(|cb.words|, i requires 0 <= i < |cb.words| => i)
  }

  lemma Within(chunk: Bytes, word: Bytes)
    requires |chunk| < TWO_TO_32 && |word| < TWO_TO_32
    ensures Distance(chunk, word) < MAX_INT
  {
    UptoBound(chunk, word, Max(|chunk|, |word|));
    hide Upto;
  }

  lemma {:induction false} UptoBound(a: Bytes, b: Bytes, n: nat)
    ensures Upto(a, b, n) <= 8 * n
  {
    if n > 0 {
      UptoBound(a, b, n - 1);
      if n - 1 < |a| && n - 1 < |b| { ByteBound(a[n - 1], b[n - 1]); }
      hide ByteDistance;
    }
  }

  // Where the scan stands after n IDs.
  ghost predicate Scanned(cb: Codebook, ids: seq<u64>, n: nat, chunk: Bytes, best: MatchResult) {
    if n == 0 then best == MatchResult(0, [], MAX_INT)
    else exists k :: 0 <= k < n && Nearest(cb, ids, n, chunk, best, k)
  }

  // One more codeword.
  lemma ScanStep(cb: Codebook, ids: seq<u64>, n: nat, chunk: Bytes, best: MatchResult)
    requires Scanned(cb, ids, n, chunk, best) && n < |ids| && ids[n] < |cb.words| && Distance(chunk, cb.words[ids[n]]) < MAX_INT
    ensures var d := Distance(chunk, cb.words[ids[n]]);
            Scanned(cb, ids, n + 1, chunk, if d < best.distance then MatchResult(ids[n], cb.words[ids[n]], d) else best)
  {
    hide Distance;
    var d := Distance(chunk, cb.words[ids[n]]);
    var next := if d < best.distance then MatchResult(ids[n], cb.words[ids[n]], d) else best;
    if n == 0 {
      assert Nearest(cb, ids, 1, chunk, next, 0);
    } else {
      var k :| 0 <= k < n && Nearest(cb, ids, n, chunk, best, k);
      assert Nearest(cb, ids, n + 1, chunk, next, if d < best.distance then n else k);
    }
  }

  // Nothing after a perfect match can be nearer.
  lemma PerfectStays(cb: Codebook, ids: seq<u64>, n: nat, chunk: Bytes, best: MatchResult)
    requires 0 < n <= |ids| && Scanned(cb, ids, n, chunk, best) && best.distance == 0
    ensures IsNearest(cb, ids, chunk, best)
  {
    hide Distance;
    var k :| 0 <= k < n && Nearest(cb, ids, n, chunk, best, k);
    assert Nearest(cb, ids, |ids|, chunk, best, k);
  }

  class LinearSearcher {
    const cb: Option<Codebook>
    var allowed: Option<seq<u64>>

    ghost predicate Valid()
      reads this
    {
      cb.Some? ==> |cb.value.words| < TWO_TO_60 && (forall w :: w in cb.value.words ==> |w| < 0x1_0000)
                   && (allowed.Some? ==> InRange(cb.value, allowed.value))
    }

    constructor (cb: Option<Codebook>)
      requires cb.Some? ==> cb.value.Valid()
      ensures Valid() && this.cb == cb && allowed == None
    {
      this.cb, allowed := cb, None;
    }

    method Restrict(ids: Option<seq<u64>>)
      requires Valid() && (cb.Some? && ids.Some? ==> InRange(cb.value, ids.value))
      modifies this
      ensures Valid() && allowed == ids
    {
      allowed := ids;
    }

    method FindBestMatch(chunk: Bytes) returns (r: Result<MatchResult>)
      requires Valid() && |chunk| < TWO_TO_32
      ensures r.Err? <==> cb.None? || cb.value.words == []
      ensures r.Ok? && allowed.None? ==> IsNearest(cb.value, AllIds(cb.value), chunk, r.value)
      ensures r.Ok? && allowed.Some? ==>
                if allowed.value == [] then r.value == MatchResult(0, [], MAX_INT) else IsNearest(cb.value, allowed.value, chunk, r.value)
    {
      hide Distance, Scanned, Nearest;
      if cb.None? {
        return Err(BadLookup);
      }
      if |cb.value.words| == 0 {
        return Err(BadLookup);
      }
      ghost var ids := if allowed.Some? then allowed.value else AllIds(cb.value);
      var count := if allowed.Some? then |allowed.value| else |cb.value.words|;
      var best := MatchResult(0, [], MAX_INT);
      ScanNone(cb.value, ids, chunk);
      var i := 0;
      while i < count
        invariant i <= count == |ids| && Scanned(cb.value, ids, i, chunk, best)
      {
        var id: u64 := if allowed.Some? then allowed.value[i] else i;
        var pattern := cb.value.words[id];
        assert pattern in cb.value.words;
        var dist := HammingDistanceSimd(chunk, pattern);
        Within(chunk, pattern);
        ScanStep(cb.value, ids, i, chunk, best);
        i := i + 1;
        if dist < best.distance {
          best := MatchResult(id, pattern, dist);
          if dist == 0 {
            PerfectStays(cb.value, ids, i, chunk, best);
            return Ok(best);
          }
        }
      }
      ScanAll(cb.value, ids, chunk, best);
      return Ok(best);
    }
  }

  lemma ScanNone(cb: Codebook, ids: seq<u64>, chunk: Bytes)
    ensures Scanned(cb, ids, 0, chunk, MatchResult(0, [], MAX_INT))
  {
  }

  lemma ScanAll(cb: Codebook, ids: seq<u64>, chunk: Bytes, best: MatchResult)
    requires Scanned(cb, ids, |ids|, chunk, best)
    ensures if ids == [] then best == MatchResult(0, [], MAX_INT) else IsNearest(cb, ids, chunk, best)
  {
    hide Nearest;
  }

  // Unrestricted, that is the least ID among the nearest codewords.
  lemma LeastOfNearest(cb: Codebook, chunk: Bytes, r: MatchResult)
    requires |cb.words| < TWO_TO_60 && IsNearest(cb, AllIds(cb), chunk, r)
    ensures r.id < |cb.words| && r.pattern == cb.words[r.id]
    ensures forall j :: 0 <= j < |cb.words| ==> Distance(chunk, cb.words[r.id]) <= Distance(chunk, cb.words[j])
    ensures forall j :: 0 <= j < r.id ==> Distance(chunk, cb.words[r.id]) < Distance(chunk, cb.words[j])
  {
    hide Distance;
    var ids := AllIds(cb);
    var k :| 0 <= k < |ids| && Nearest(cb, ids, |ids|, chunk, r, k);
    forall j | 0 <= j < |cb.words|
      ensures r.distance <= Distance(chunk, cb.words[j]) && (j < r.id ==> r.distance < Distance(chunk, cb.words[j]))
    {
      assert ids[j] == j && ids[k] == k;
    }
  }
}
