// Chunking by content: a cut falls where the bytes of the chunk so far say so.
module ContentCuts {
  import opened Common
  import opened Chunks

  // Whether a chunk ends with the bytes it has.
  type Rule = Bytes -> bool

  // The end of the chunk that starts at start, if no cut falls before end.
  function FirstCut(rule: Rule, data: Bytes, start: nat, end: nat): nat
    requires start <= end
    decreases |data| - end
  {
    if end >= |data| then |data| else if rule(data[start..end]) then end else FirstCut(rule, data, start, end + 1)
  }

  // The chunks from a position on.
  function ChunksFrom(rule: Rule, sum64: Bytes -> u64, data: Bytes, from: nat): seq<Chunk>
    decreases |data| - from
  {
    if from >= |data| then []
    else
      CutBounds(rule, data, from, from + 1);
      var to := FirstCut(rule, data, from, from + 1);
      [Cut(sum64, data, from, to)] + ChunksFrom(rule, sum64, data, to)
  }

  lemma {:induction false} CutBounds(rule: Rule, data: Bytes, start: nat, end: nat)
    requires start <= end <= |data|
    ensures end <= FirstCut(rule, data, start, end) <= |data|
    ensures var c := FirstCut(rule, data, start, end); c < |data| ==> rule(data[start..c])
    ensures forall e :: end <= e < FirstCut(rule, data, start, end) ==> !rule(data[start..e])
    decreases |data| - end
  {
    if end < |data| && !rule(data[start..end]) { CutBounds(rule, data, start, end + 1); }
  }

  lemma {:induction false} ChunksCover(rule: Rule, sum64: Bytes -> u64, data: Bytes, from: nat)
    requires from <= |data|
    ensures Covers(ChunksFrom(rule, sum64, data, from), data, from)
    decreases |data| - from
  {
    if from < |data| {
      CutBounds(rule, data, from, from + 1);
      var to := FirstCut(rule, data, from, from + 1);
      ChunksCover(rule, sum64, data, to);
      assert ChunksFrom(rule, sum64, data, from)[1..] == ChunksFrom(rule, sum64, data, to);
    }
  }

  // ----- resynchronisation ---------------------------------------------------------------

  // Cuts depend on nothing before the chunk.
  lemma {:induction false} CutShifts(rule: Rule, data: Bytes, p: nat, start: nat, end: nat)
    requires p <= |data| && start <= end
    ensures FirstCut(rule, data, p + start, p + end) == p + FirstCut(rule, data[p..], start, end)
    decreases |data| - end
  {
    if p + end < |data| {
      assert data[p..][start..end] == data[p + start..p + end];
      CutShifts(rule, data, p, start, end + 1);
    }
  }

  function Shifted(chunks: seq<Chunk>, p: nat): (r: seq<Chunk>)
    ensures |r| == |chunks|
  {
    seq(|chunks|, i requires 0 <= i < |chunks| => chunks[i].(offset := chunks[i].offset + p))
  }

  // From a cut on, the chunks are those of the rest alone, moved.
  lemma {:induction false} RestAlone(rule: Rule, sum64: Bytes -> u64, data: Bytes, p: nat, from: nat)
    requires p <= |data|
    ensures ChunksFrom(rule, sum64, data, p + from) == Shifted(ChunksFrom(rule, sum64, data[p..], from), p)
    decreases |data| - from
  {
    hide ChunksFrom, FirstCut, Shifted, Cut;
    var rest := data[p..];
    if p + from >= |data| {
      Nothing(rule, sum64, data, p + from);
      Nothing(rule, sum64, rest, from);
    } else {
      CutShifts(rule, data, p, from, from + 1);
      ChunksUnfold(rule, sum64, rest, from);
      ChunksUnfold(rule, sum64, data, p + from);
      var to := FirstCut(rule, rest, from, from + 1);
      RestAlone(rule, sum64, data, p, to);
      CutMoves(sum64, data, p, from, to);
      ShiftedCons(Cut(sum64, rest, from, to), ChunksFrom(rule, sum64, rest, to), p);
    }
  }

  lemma CutMoves(sum64: Bytes -> u64, data: Bytes, p: nat, from: nat, to: nat)
    requires p <= |data| && from <= to <= |data| - p
    ensures var c := Cut(sum64, data[p..], from, to); Cut(sum64, data, p + from, p + to) == c.(offset := c.offset + p)
  {
    assert data[p..][from..to] == data[p + from..p + to];
  }

  lemma ChunksUnfold(rule: Rule, sum64: Bytes -> u64, data: Bytes, from: nat)
    requires from < |data|
    ensures var to := FirstCut(rule, data, from, from + 1);
            from < to <= |data| && ChunksFrom(rule, sum64, data, from) == [Cut(sum64, data, from, to)] + ChunksFrom(rule, sum64, data, to)
  {
    CutBounds(rule, data, from, from + 1);
  }

  lemma ShiftedCons(c: Chunk, rest: seq<Chunk>, p: nat)
    ensures Shifted([c] + rest, p) == [c.(offset := c.offset + p)] + Shifted(rest, p)
  {
  }

  // A cut falls at p when the data are split from a position on.
  ghost predicate CutAt(rule: Rule, data: Bytes, from: nat, p: nat)
    decreases |data| - from
  {
    if from >= |data| then p == from
    else
      CutBounds(rule, data, from, from + 1);
      p == from || CutAt(rule, data, FirstCut(rule, data, from, from + 1), p)
  }

  // The chunks after a cut are the last ones of the whole split.
  lemma {:induction false} AfterCut(rule: Rule, sum64: Bytes -> u64, data: Bytes, from: nat, p: nat) returns (i: nat)
    requires from <= |data| && CutAt(rule, data, from, p)
    ensures p <= |data| && i <= |ChunksFrom(rule, sum64, data, from)|
    ensures ChunksFrom(rule, sum64, data, from)[i..] == ChunksFrom(rule, sum64, data, p)
    decreases |data| - from
  {
    if from == p {
      i := 0;
    } else {
      CutBounds(rule, data, from, from + 1);
      var k := AfterCut(rule, sum64, data, FirstCut(rule, data, from, from + 1), p);
      i := k + 1;
    }
  }

  // Two inputs that end alike, with a cut at the same place of their common end:
  // every later chunk is the same in both, but for where it starts.
  lemma Resynchronised(rule: Rule, sum64: Bytes -> u64, a: Bytes, b: Bytes, p: nat, q: nat) returns (i: nat, j: nat)
    requires CutAt(rule, a, 0, p) && CutAt(rule, b, 0, q) && p <= |a| && q <= |b| && a[p..] == b[q..]
    ensures i <= |ChunksFrom(rule, sum64, a, 0)| && j <= |ChunksFrom(rule, sum64, b, 0)|
    ensures var common := ChunksFrom(rule, sum64, a[p..], 0);
            && ChunksFrom(rule, sum64, a, 0)[i..] == Shifted(common, p)
            && ChunksFrom(rule, sum64, b, 0)[j..] == Shifted(common, q)
  {
    hide ChunksFrom;
    i := AfterCut(rule, sum64, a, 0, p);
    j := AfterCut(rule, sum64, b, 0, q);
    RestAlone(rule, sum64, a, p, 0);
    RestAlone(rule, sum64, b, q, 0);
  }

  // ----- the steps of a scan ---------------------------------------------------------------

  lemma Nothing(rule: Rule, sum64: Bytes -> u64, data: Bytes, from: nat)
    requires from >= |data|
    ensures ChunksFrom(rule, sum64, data, from) == []
  {
  }

  // The scan reaches a cut.
  lemma CutHere(rule: Rule, sum64: Bytes -> u64, data: Bytes, start: nat, end: nat, done: seq<Chunk>)
    requires start < end <= |data| && (end == |data| || rule(data[start..end]))
    requires FirstCut(rule, data, start, start + 1) == FirstCut(rule, data, start, end)
    ensures done + ChunksFrom(rule, sum64, data, start) == (done + [Cut(sum64, data, start, end)]) + ChunksFrom(rule, sum64, data, end)
  {
    ChunksUnfold(rule, sum64, data, start);
    hide ChunksFrom;
    assert done + ([Cut(sum64, data, start, end)] + ChunksFrom(rule, sum64, data, end)) ==
           (done + [Cut(sum64, data, start, end)]) + ChunksFrom(rule, sum64, data, end);
  }

  // The scan goes past a position where no chunk ends.
  lemma NotYet(rule: Rule, data: Bytes, start: nat, end: nat)
    requires start <= end < |data| && (end > start ==> !rule(data[start..end]))
    ensures FirstCut(rule, data, start, Max(start + 1, end)) == FirstCut(rule, data, start, end + 1)
  {
  }

  // The scan reaches the end of the data.
  lemma LastChunk(rule: Rule, sum64: Bytes -> u64, data: Bytes, start: nat, done: seq<Chunk>)
    requires start < |data| && FirstCut(rule, data, start, start + 1) == FirstCut(rule, data, start, |data|)
    ensures done + ChunksFrom(rule, sum64, data, start) == done + [Cut(sum64, data, start, |data|)]
  {
    CutHere(rule, sum64, data, start, |data|, done);
    assert (done + [Cut(sum64, data, start, |data|)]) + [] == done + [Cut(sum64, data, start, |data|)];
  }

  // Why chunk i ends where it does: by the rule, unless the data end, and by no
  // shorter beginning of it. It carries the checksum of its own bytes.
  lemma {:induction false} CutReason(rule: Rule, sum64: Bytes -> u64, data: Bytes, from: nat, i: nat, n: nat)
    requires from <= |data| && i < |ChunksFrom(rule, sum64, data, from)|
    ensures var cs := ChunksFrom(rule, sum64, data, from);
            && cs[i].size == |cs[i].data| && cs[i].hash == sum64(cs[i].data)
            && (i + 1 < |cs| ==> rule(cs[i].data))
            && (0 < n < cs[i].size ==> !rule(cs[i].data[..n]))
    decreases |data| - from
  {
    if from < |data| {
      ChunksUnfold(rule, sum64, data, from);
      CutBounds(rule, data, from, from + 1);
      var to := FirstCut(rule, data, from, from + 1);
      if i > 0 {
        CutReason(rule, sum64, data, to, i - 1, n);
      } else {
        if to >= |data| { Nothing(rule, sum64, data, to); }
        if 0 < n < to - from { assert data[from..to][..n] == data[from..from + n]; }
      }
    }
  }

  // ----- sizes ------------------------------------------------------------------------------

  // A rule that never ends a chunk below min and always at max.
  ghost predicate Bounds(rule: Rule, min: nat, max: nat) {
    && 0 < max && min <= max
    && (forall chunk :: |chunk| < min ==> !rule(chunk))
    && (forall chunk :: |chunk| >= max ==> rule(chunk))
  }

  // No chunk is longer than max, and only the last one may be shorter than min.
  lemma {:induction false} SizesInBounds(rule: Rule, sum64: Bytes -> u64, data: Bytes, from: nat, min: nat, max: nat, i: nat)
    requires Bounds(rule, min, max) && from <= |data| && i < |ChunksFrom(rule, sum64, data, from)|
    ensures var cs := ChunksFrom(rule, sum64, data, from); 0 < cs[i].size <= max && (i + 1 < |cs| ==> cs[i].size >= min)
    decreases |data| - from
  {
    if from < |data| {
      CutBounds(rule, data, from, from + 1);
      var to := FirstCut(rule, data, from, from + 1);
      ChunksUnfold(rule, sum64, data, from);
      if i > 0 {
        SizesInBounds(rule, sum64, data, to, min, max, i - 1);
      } else {
        var longest := data[from..Min(from + max, to)];
        assert |longest| >= max ==> rule(longest);
        assert to < |data| ==> rule(data[from..to]);
      }
    }
  }
}
