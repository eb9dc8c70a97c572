// Byte-pair encoding of a corpus into semantic tokens (internal/trainer/bpe.go).
module Bpe {
  import opened Common

  type Vocab = map<u32, Bytes>

  datatype Pair = Pair(a: u32, b: u32)

  // A missing token reads as no bytes.
  function Word(vocab: Vocab, token: u32): Bytes { if token in vocab then vocab[token] else [] }

  // The bytes the tokens from position i on stand for.
  ghost function Expand(vocab: Vocab, tokens: seq<u32>, i: nat): Bytes
    decreases |tokens| - i
  {
    if i >= |tokens| then [] else Word(vocab, tokens[i]) + Expand(vocab, tokens, i + 1)
  }

  // ----- counting -----------------------------------------------------------------------

  // Where the pair stands among the first n positions.
  function PairCount(tokens: seq<u32>, n: nat, p: Pair): nat
    requires n < |tokens|
  {
    if n == 0 then 0 else PairCount(tokens, n - 1, p) + if tokens[n - 1] == p.a && tokens[n] == p.b then 1 else 0
  }

  type Counts = map<Pair, nat>

  ghost predicate Counted(counts: Counts, tokens: seq<u32>, n: nat)
    requires n < |tokens|
  {
    forall p :: PairCount(tokens, n, p) == if p in counts then counts[p] else 0
  }

  method CountPairs(tokens: seq<u32>) returns (counts: Counts)
    requires |tokens| >= 2
    ensures Counted(counts, tokens, |tokens| - 1)
  {
    counts := map[];
    for i := 0 to |tokens| - 1
      invariant Counted(counts, tokens, i)
    {
      var p := Pair(tokens[i], tokens[i + 1]);
      counts := counts[p := if p in counts then counts[p] + 1 else 1];
    }
  }

  ghost predicate Fits(vocab: Vocab, p: Pair, maxLen: int) {
    |Word(vocab, p.a)| + |Word(vocab, p.b)| <= maxLen
  }

  // The most frequent pair that is not too long, whichever of several comes first.
  method BestPair(vocab: Vocab, counts: Counts, maxLen: int) returns (best: Pair, bestCount: int)
    ensures bestCount >= 0 ==> best in counts && counts[best] == bestCount && Fits(vocab, best, maxLen)
    ensures forall p :: p in counts && Fits(vocab, p, maxLen) ==> counts[p] <= bestCount
  {
    best, bestCount := Pair(0, 0), -1;
    var left := counts.Keys;
    while left != {}
      invariant left <= counts.Keys
      invariant bestCount >= 0 ==> best in counts && counts[best] == bestCount && Fits(vocab, best, maxLen)
      invariant bestCount >= -1 && forall p :: p in counts && p !in left && Fits(vocab, p, maxLen) ==> counts[p] <= bestCount
      decreases |left|
    {
      var p :| p in left;
      left := left - {p};
      if |Word(vocab, p.a)| + |Word(vocab, p.b)| <= maxLen {
        if counts[p] > bestCount {
          best, bestCount := p, counts[p];
        }
      }
    }
  }

  // No pair that fits occurs twice.
  ghost predicate Exhausted(vocab: Vocab, tokens: seq<u32>, maxLen: int) {
    |tokens| >= 2 ==> forall p :: Fits(vocab, p, maxLen) ==> PairCount(tokens, |tokens| - 1, p) < 2
  }

  lemma FewTokens(vocab: Vocab, tokens: seq<u32>, maxLen: int)
    requires |tokens| < 2
    ensures Exhausted(vocab, tokens, maxLen)
  {
  }

  lemma NoneTwice(vocab: Vocab, tokens: seq<u32>, counts: Counts, maxLen: int, most: int)
    requires |tokens| >= 2 && Counted(counts, tokens, |tokens| - 1) && most < 2
    requires forall p :: p in counts && Fits(vocab, p, maxLen) ==> counts[p] <= most
    ensures Exhausted(vocab, tokens, maxLen)
  {
    hide Fits, PairCount;
  }

  lemma {:induction false} TwoPositions(tokens: seq<u32>, n: nat, p: Pair) returns (i: nat, j: nat)
    requires n < |tokens| && PairCount(tokens, n, p) >= 2
    ensures i < j < n && tokens[i] == tokens[j] == p.a && tokens[i + 1] == tokens[j + 1] == p.b
  {
    if tokens[n - 1] == p.a && tokens[n] == p.b {
      i := OnePosition(tokens, n - 1, p);
      j := n - 1;
    } else {
      i, j := TwoPositions(tokens, n - 1, p);
    }
  }

  lemma {:induction false} OnePosition(tokens: seq<u32>, n: nat, p: Pair) returns (i: nat)
    requires n < |tokens| && PairCount(tokens, n, p) >= 1
    ensures i < n && tokens[i] == p.a && tokens[i + 1] == p.b
  {
    if tokens[n - 1] == p.a && tokens[n] == p.b {
      i := n - 1;
    } else {
      i := OnePosition(tokens, n - 1, p);
    }
  }

  // ----- merging ------------------------------------------------------------------------

  // The tokens from position i on with every pair, left to right, replaced.
  function Merged(tokens: seq<u32>, i: nat, p: Pair, token: u32): seq<u32>
    decreases |tokens| - i
  {
    if i >= |tokens| then []
    else if i + 1 < |tokens| && tokens[i] == p.a && tokens[i + 1] == p.b then [token] + Merged(tokens, i + 2, p, token)
    else [tokens[i]] + Merged(tokens, i + 1, p, token)
  }

  method Merge(tokens: seq<u32>, p: Pair, token: u32) returns (r: seq<u32>)
    ensures r == Merged(tokens, 0, p, token)
  {
    r := [];
    var i := 0;
    while i < |tokens|
      invariant i <= |tokens| && r + Merged(tokens, i, p, token) == Merged(tokens, 0, p, token)
    {
      ghost var before := r;
      if i < |tokens| - 1 && tokens[i] == p.a && tokens[i + 1] == p.b {
        r := r + [token];
        assert before + ([token] + Merged(tokens, i + 2, p, token)) == r + Merged(tokens, i + 2, p, token);
        i := i + 1;
      } else {
        r := r + [tokens[i]];
        assert before + ([tokens[i]] + Merged(tokens, i + 1, p, token)) == r + Merged(tokens, i + 1, p, token);
      }
      i := i + 1;
    }
  }

  lemma {:induction false} ExpandShift(vocab: Vocab, x: u32, rest: seq<u32>, i: nat)
    requires i <= |rest|
    ensures Expand(vocab, [x] + rest, i + 1) == Expand(vocab, rest, i)
    decreases |rest| - i
  {
    hide Word;
    if i < |rest| { ExpandShift(vocab, x, rest, i + 1); }
  }

  lemma ExpandCons(vocab: Vocab, x: u32, rest: seq<u32>)
    ensures Expand(vocab, [x] + rest, 0) == Word(vocab, x) + Expand(vocab, rest, 0)
  {
    hide Word;
    ExpandShift(vocab, x, rest, 0);
  }

  // A new token for a pair changes the tokens but not what they stand for.
  lemma {:induction false} MergeKeeps(vocab: Vocab, tokens: seq<u32>, i: nat, p: Pair, token: u32)
    requires i <= |tokens| && forall k :: 0 <= k < |tokens| ==> tokens[k] != token
    ensures var vocab' := vocab[token := Word(vocab, p.a) + Word(vocab, p.b)];
            Expand(vocab', Merged(tokens, i, p, token), 0) == Expand(vocab, tokens, i)
    decreases |tokens| - i
  {
    var vocab' := vocab[token := Word(vocab, p.a) + Word(vocab, p.b)];
    if i < |tokens| {
      if i + 1 < |tokens| && tokens[i] == p.a && tokens[i + 1] == p.b {
        MergeKeeps(vocab, tokens, i + 2, p, token);
        ExpandCons(vocab', token, Merged(tokens, i + 2, p, token));
        Regroup(Word(vocab, p.a), Word(vocab, p.b), Expand(vocab, tokens, i + 2));
      } else {
        MergeKeeps(vocab, tokens, i + 1, p, token);
        ExpandCons(vocab', tokens[i], Merged(tokens, i + 1, p, token));
      }
    }
  }

  lemma {:induction false} MergedTokens(tokens: seq<u32>, i: nat, p: Pair, token: u32, k: nat)
    requires k < |Merged(tokens, i, p, token)|
    ensures Merged(tokens, i, p, token)[k] == token || Merged(tokens, i, p, token)[k] in tokens
    decreases |tokens| - i
  {
    if i + 1 < |tokens| && tokens[i] == p.a && tokens[i + 1] == p.b {
      if k > 0 { MergedTokens(tokens, i + 2, p, token, k - 1); }
    } else {
      if k > 0 { MergedTokens(tokens, i + 1, p, token, k - 1); }
    }
  }

  // The tokens with a new one written out as its pair.
  ghost function Unmerged(s: seq<u32>, p: Pair, token: u32): seq<u32> {
    if s == [] then [] else (if s[0] == token then [p.a, p.b] else [s[0]]) + Unmerged(s[1..], p, token)
  }

  // A merge can be undone, leaves no pair behind, and where pairs overlap it takes
  // the left one.
  lemma {:induction false} MergedIs(tokens: seq<u32>, i: nat, p: Pair, token: u32)
    requires i <= |tokens| && token !in tokens && p.a != token && p.b != token
    ensures var r := Merged(tokens, i, p, token);
            && Unmerged(r, p, token) == tokens[i..] && (r == [] <==> i == |tokens|)
            && (r != [] ==> r[0] == tokens[i] || (r[0] == token && i + 1 < |tokens| && tokens[i] == p.a && tokens[i + 1] == p.b))
            && (forall k :: 0 <= k < |r| - 1 ==> !(r[k] == p.a && r[k + 1] == p.b))
            && (p.a == p.b ==> forall k :: 0 <= k < |r| - 1 ==> !(r[k] == p.a && r[k + 1] == token))
    decreases |tokens| - i
  {
    if i < |tokens| {
      if i + 1 < |tokens| && tokens[i] == p.a && tokens[i + 1] == p.b {
        MergedIs(tokens, i + 2, p, token);
        assert tokens[i..] == [p.a, p.b] + tokens[i + 2..];
        MergedFront(token, Merged(tokens, i + 2, p, token), p, token);
      } else {
        MergedIs(tokens, i + 1, p, token);
        assert tokens[i] in tokens && tokens[i..] == [tokens[i]] + tokens[i + 1..];
        MergedFront(tokens[i], Merged(tokens, i + 1, p, token), p, token);
      }
    }
  }

  lemma MergedFront(x: u32, rest: seq<u32>, p: Pair, token: u32)
    requires forall k :: 0 <= k < |rest| - 1 ==> !(rest[k] == p.a && rest[k + 1] == p.b)
    requires p.a == p.b ==> forall k :: 0 <= k < |rest| - 1 ==> !(rest[k] == p.a && rest[k + 1] == token)
    requires rest != [] ==> !(x == p.a && rest[0] == p.b)
    requires p.a == p.b && rest != [] ==> !(x == p.a && rest[0] == token)
    ensures var r := [x] + rest;
            && Unmerged(r, p, token) == (if x == token then [p.a, p.b] else [x]) + Unmerged(rest, p, token)
            && (forall k :: 0 <= k < |r| - 1 ==> !(r[k] == p.a && r[k + 1] == p.b))
            && (p.a == p.b ==> forall k :: 0 <= k < |r| - 1 ==> !(r[k] == p.a && r[k + 1] == token))
  {
    var r := [x] + rest;
    assert r[1..] == rest;
    forall k | 0 <= k < |r| - 1
      ensures !(r[k] == p.a && r[k + 1] == p.b) && (p.a == p.b ==> !(r[k] == p.a && r[k + 1] == token))
    {
      if k > 0 { assert r[k] == rest[k - 1] && r[k + 1] == rest[k]; }
    }
  }

  // ----- where a token occurs in the data ----------------------------------------------------

  ghost predicate OccursAt(data: Bytes, word: Bytes, at: nat) {
    at + |word| <= |data| && data[at..at + |word|] == word
  }

  // What the trainer promises of a learned token.
  ghost predicate Learned(data: Bytes, word: Bytes, maxLen: int) {
    && 0 < |word| <= maxLen
    && exists x: nat, y: nat :: x < y && OccursAt(data, word, x) && OccursAt(data, word, y)
  }

  lemma {:induction false} ExpandSuffix(vocab: Vocab, tokens: seq<u32>, i: nat)
    requires i <= |tokens|
    ensures var all, rest := Expand(vocab, tokens, 0), Expand(vocab, tokens, i); |rest| <= |all| && all[|all| - |rest|..] == rest
  {
    hide Word;
    if i > 0 {
      ExpandSuffix(vocab, tokens, i - 1);
      var all, rest, word := Expand(vocab, tokens, 0), Expand(vocab, tokens, i), Word(vocab, tokens[i - 1]);
      Tail(all, word, rest);
    }
  }

  lemma Tail(all: Bytes, word: Bytes, rest: Bytes)
    requires |word + rest| <= |all| && all[|all| - |word + rest|..] == word + rest
    ensures all[|all| - |rest|..] == rest && OccursAt(all, word, |all| - |word + rest|)
  {
    var at := |all| - |word + rest|;
    assert all[at..][|word|..] == all[at + |word|..] && (word + rest)[|word|..] == rest;
    assert all[at..][..|word|] == all[at..at + |word|] && (word + rest)[..|word|] == word;
  }

  // The bytes of a pair occur where its first token starts.
  lemma PairOccurs(vocab: Vocab, tokens: seq<u32>, i: nat, p: Pair)
    requires i + 1 < |tokens| && tokens[i] == p.a && tokens[i + 1] == p.b
    ensures var all := Expand(vocab, tokens, 0);
            |Expand(vocab, tokens, i)| <= |all| && OccursAt(all, Word(vocab, p.a) + Word(vocab, p.b), |all| - |Expand(vocab, tokens, i)|)
  {
    hide Word;
    ExpandSuffix(vocab, tokens, i);
    var a, b, rest := Word(vocab, p.a), Word(vocab, p.b), Expand(vocab, tokens, i + 2);
    Regroup(a, b, rest);
    assert Expand(vocab, tokens, i) == a + (b + rest);
    Tail(Expand(vocab, tokens, 0), a + b, rest);
  }

  lemma {:induction false} ExpandShrinks(vocab: Vocab, tokens: seq<u32>, i: nat, j: nat)
    requires i <= j <= |tokens| && forall k :: 0 <= k < |tokens| ==> Word(vocab, tokens[k]) != []
    ensures |Expand(vocab, tokens, j)| <= |Expand(vocab, tokens, i)| && (i < j ==> |Expand(vocab, tokens, j)| < |Expand(vocab, tokens, i)|)
    decreases j - i
  {
    hide Word;
    if i < j {
      ExpandShrinks(vocab, tokens, i + 1, j);
      assert Word(vocab, tokens[i]) != [];
    }
  }

  // A pair counted twice gives a token that occurs at two positions.
  lemma PairLearned(vocab: Vocab, tokens: seq<u32>, p: Pair, maxLen: int)
    requires |tokens| >= 2 && PairCount(tokens, |tokens| - 1, p) >= 2 && Fits(vocab, p, maxLen)
    requires forall k :: 0 <= k < |tokens| ==> Word(vocab, tokens[k]) != []
    ensures Learned(Expand(vocab, tokens, 0), Word(vocab, p.a) + Word(vocab, p.b), maxLen)
  {
    hide Word, Expand, PairCount;
    var i, j := TwoPositions(tokens, |tokens| - 1, p);
    PairOccurs(vocab, tokens, i, p);
    PairOccurs(vocab, tokens, j, p);
    ExpandShrinks(vocab, tokens, i, j);
    assert Word(vocab, tokens[i]) != [];
    hide OccursAt;
  }

  method ByteTokens(data: Bytes) returns (tokens: seq<u32>)
    ensures |tokens| == |data| && forall k :: 0 <= k < |data| ==> tokens[k] == data[k]
  {
    tokens := [];
    for i := 0 to |data|
      invariant |tokens| == i && forall k :: 0 <= k < i ==> tokens[k] == data[k]
    {
      tokens := tokens + [data[i]];
    }
  }

  // ----- training ------------------------------------------------------------------------------

  // What holds between two merges: the tokens are bytes or learned before next,
  // they stand for the data, and every learned token is good.
  ghost predicate Training(vocab: Vocab, tokens: seq<u32>, data: Bytes, maxLen: int, next: nat) {
    && next >= 256
    && (forall b: u32 :: b < 256 ==> b in vocab && vocab[b] == [b as byte])
    && (forall t: u32 :: 256 <= t < next ==> t in vocab && Learned(data, vocab[t], maxLen))
    && (forall k :: 0 <= k < |tokens| ==> tokens[k] < next)
    && Expand(vocab, tokens, 0) == data
  }

  lemma WordsAreNotEmpty(vocab: Vocab, tokens: seq<u32>, data: Bytes, maxLen: int, next: nat)
    requires Training(vocab, tokens, data, maxLen, next)
    ensures forall k :: 0 <= k < |tokens| ==> Word(vocab, tokens[k]) != []
  {
    hide Expand, OccursAt;
    forall k | 0 <= k < |tokens|
      ensures Word(vocab, tokens[k]) != []
    {
      var t := tokens[k];
      assert t in vocab && (t >= 256 ==> Learned(data, vocab[t], maxLen));
    }
  }

  lemma TrainingStep(vocab: Vocab, tokens: seq<u32>, data: Bytes, maxLen: int, next: u32, p: Pair)
    requires Training(vocab, tokens, data, maxLen, next) && |tokens| >= 2
    requires PairCount(tokens, |tokens| - 1, p) >= 2 && Fits(vocab, p, maxLen)
    ensures Training(vocab[next := Word(vocab, p.a) + Word(vocab, p.b)], Merged(tokens, 0, p, next), data, maxLen, next + 1)
  {
    hide *;
    TrainingIs(vocab, tokens, data, maxLen, next);
    WordsAreNotEmpty(vocab, tokens, data, maxLen, next);
    PairLearned(vocab, tokens, p, maxLen);
    MergeKeeps(vocab, tokens, 0, p, next);
    var merged := Merged(tokens, 0, p, next);
    forall k | 0 <= k < |merged|
      ensures merged[k] < next + 1
    {
      MergedTokens(tokens, 0, p, next, k);
    }
    TrainingFrom(vocab[next := Word(vocab, p.a) + Word(vocab, p.b)], merged, data, maxLen, next + 1);
  }

  lemma TrainingFrom(vocab: Vocab, tokens: seq<u32>, data: Bytes, maxLen: int, next: nat)
    requires next >= 256
    requires forall b: u32 :: b < 256 ==> b in vocab && vocab[b] == [b as byte]
    requires forall t: u32 :: 256 <= t < next ==> t in vocab && Learned(data, vocab[t], maxLen)
    requires forall k :: 0 <= k < |tokens| ==> tokens[k] < next
    requires Expand(vocab, tokens, 0) == data
    ensures Training(vocab, tokens, data, maxLen, next)
  {
    hide Expand, Learned;
  }

  lemma {:induction false} BytesExpand(vocab: Vocab, tokens: seq<u32>, data: Bytes, i: nat)
    requires |tokens| == |data| && i <= |data| && forall k :: 0 <= k < |data| ==> tokens[k] == data[k]
    requires forall b: u32 :: b < 256 ==> b in vocab && vocab[b] == [b as byte]
    ensures Expand(vocab, tokens, i) == data[i..]
    decreases |data| - i
  {
    if i < |data| {
      BytesExpand(vocab, tokens, data, i + 1);
      assert data[i..] == [data[i]] + data[i + 1..];
    }
  }

  class BPEBuilder {
    var vocab: Vocab
    const maxLen: int
    const maxTokens: int

    // The bytes stand for themselves.
    ghost predicate Valid()
      reads this
    {
      forall b: u32 :: b < 256 ==> b in vocab && vocab[b] == [b as byte]
    }

    constructor (maxTokens: int, maxLen: int)
      ensures Valid() && this.maxTokens == maxTokens && this.maxLen == maxLen
      ensures forall t: u32 :: t in vocab ==> t < 256
    {
      var base: Vocab := map[];
      for i := 0 to 256
        invariant forall b: u32 :: b in base <==> b < i
        invariant forall b: u32 :: b < i ==> base[b] == [b as byte]
      {
        base := base[i := [i as byte]];
      }
      vocab := base;
      this.maxTokens, this.maxLen := maxTokens, maxLen;
    }

    // Learns a token for a pair at a time, from 256 on: streams are the tokens before
    // each step and after the last one, pairs what was merged. Every stream spells
    // the data; every step takes a most frequent pair of those that fit, counted at
    // least twice, and its token occurs in the data more than once. The vocabulary
    // is otherwise what it was. It stops only at the target size or when no pair
    // that fits occurs twice.
    method Train(data: Bytes) returns (r: Vocab, ghost streams: seq<seq<u32>>, ghost pairs: seq<Pair>)
      requires Valid()
      modifies this
      ensures Valid() && r == vocab && |streams| == |pairs| + 1
      ensures pairs != [] ==> 256 + |pairs| <= maxTokens % TWO_TO_32
      ensures |streams[0]| == |data| && forall k :: 0 <= k < |data| ==> streams[0][k] == data[k]
      ensures forall k :: 0 <= k < |streams| ==> Expand(vocab, streams[k], 0) == data
      ensures forall k :: 0 <= k < |pairs| ==> StepTaken(vocab, streams[k], streams[k + 1], pairs[k], 256 + k, maxLen)
      ensures forall t: u32 :: 256 <= t < 256 + |pairs| ==> t in vocab && Learned(data, vocab[t], maxLen)
      ensures forall t: u32 :: t < 256 || t >= 256 + |pairs| ==> (t in vocab <==> t in old(vocab)) && (t in vocab ==> vocab[t] == old(vocab[t]))
      ensures 256 + |pairs| < maxTokens % TWO_TO_32 ==> Exhausted(vocab, streams[|pairs|], maxLen)
    {
      hide Expand, Learned, Training, PairCount, Merged, Word, Counted, Fits, Exhausted, StepTaken;
      streams, pairs := [[]], [];
      if |data| == 0 {
        NoTokens(vocab);
        FewTokens(vocab, [], maxLen);
        return vocab, streams, pairs;
      }
      var stream := ByteTokens(data);
      var nextTokenId: u32 := 256;
      streams := [stream];
      BytesTrain(vocab, stream, data, maxLen);
      TrainingIs(vocab, stream, data, maxLen, 256);
      while nextTokenId < maxTokens % TWO_TO_32
        invariant nextTokenId == 256 + |pairs| && |streams| == |pairs| + 1 && streams[|pairs|] == stream
        invariant pairs != [] ==> nextTokenId <= maxTokens % TWO_TO_32
        invariant |streams[0]| == |data| && forall k :: 0 <= k < |data| ==> streams[0][k] == data[k]
        invariant Training(vocab, stream, data, maxLen, nextTokenId)
        invariant forall k :: 0 <= k < |streams| ==> Expand(vocab, streams[k], 0) == data
        invariant forall k :: 0 <= k < |pairs| ==> StepTaken(vocab, streams[k], streams[k + 1], pairs[k], 256 + k, maxLen)
        invariant forall t: u32 :: t < 256 || t >= nextTokenId ==> (t in vocab <==> t in old(vocab)) && (t in vocab ==> vocab[t] == old(vocab[t]))
        decreases maxTokens % TWO_TO_32 - nextTokenId
      {
        if |stream| < 2 {
          FewTokens(vocab, stream, maxLen);
          break;
        }
        var counts := CountPairs(stream);
        var best, bestCount := BestPair(vocab, counts, maxLen);
        if bestCount < 2 {
          NoneTwice(vocab, stream, counts, maxLen, bestCount);
          break;
        }
        CountIs(counts, stream, |stream| - 1, best);
        TrainingStep(vocab, stream, data, maxLen, nextTokenId, best);
        ghost var word := Word(vocab, best.a) + Word(vocab, best.b);
        BestStep(vocab, stream, counts, best, data, nextTokenId, maxLen);
        StepsStay(vocab, streams, pairs, data, nextTokenId, word, maxLen);
        vocab := vocab[nextTokenId := Word(vocab, best.a) + Word(vocab, best.b)];
        stream := Merge(stream, best, nextTokenId);
        TrainingIs(vocab, stream, data, maxLen, nextTokenId + 1);
        streams, pairs := streams + [stream], pairs + [best];
        nextTokenId := nextTokenId + 1;
      }
      TrainingIs(vocab, stream, data, maxLen, nextTokenId);
      return vocab, streams, pairs;
    }
  }

  // One step of a run: token stands for the pair p, a most frequent one of those that
  // fit, and replaces it from left to right.
  ghost predicate StepTaken(vocab: Vocab, s: seq<u32>, t: seq<u32>, p: Pair, token: u32, maxLen: int) {
    && |s| >= 2 && PairCount(s, |s| - 1, p) >= 2 && Fits(vocab, p, maxLen)
    && (forall q :: Fits(vocab, q, maxLen) ==> PairCount(s, |s| - 1, q) <= PairCount(s, |s| - 1, p))
    && (forall k :: 0 <= k < |s| ==> s[k] < token) && p.a < token && p.b < token
    && token in vocab && vocab[token] == Word(vocab, p.a) + Word(vocab, p.b)
    && t == Merged(s, 0, p, token)
  }

  lemma BestStep(vocab: Vocab, s: seq<u32>, counts: Counts, p: Pair, data: Bytes, token: u32, maxLen: int)
    requires |s| >= 2 && Counted(counts, s, |s| - 1) && p in counts && counts[p] >= 2 && Fits(vocab, p, maxLen)
    requires forall q :: q in counts && Fits(vocab, q, maxLen) ==> counts[q] <= counts[p]
    requires Training(vocab, s, data, maxLen, token)
    ensures StepTaken(vocab[token := Word(vocab, p.a) + Word(vocab, p.b)], s, Merged(s, 0, p, token), p, token, maxLen)
  {
    hide *;
    TrainingIs(vocab, s, data, maxLen, token);
    var n, vocab' := |s| - 1, vocab[token := Word(vocab, p.a) + Word(vocab, p.b)];
    CountIs(counts, s, n, p);
    var i := OnePosition(s, n, p);
    SameFit(vocab, token, Word(vocab, p.a) + Word(vocab, p.b), p, maxLen);
    forall q | Fits(vocab', q, maxLen)
      ensures PairCount(s, n, q) <= PairCount(s, n, p)
    {
      CountIs(counts, s, n, q);
      if PairCount(s, n, q) > 0 {
        var j := OnePosition(s, n, q);
        SameFit(vocab, token, Word(vocab, p.a) + Word(vocab, p.b), q, maxLen);
      }
    }
    StepIs(vocab', s, Merged(s, 0, p, token), p, token, maxLen);
  }

  // Words of other tokens do not change.
  lemma SameFit(vocab: Vocab, token: u32, word: Bytes, p: Pair, maxLen: int)
    requires p.a != token && p.b != token
    ensures Fits(vocab[token := word], p, maxLen) <==> Fits(vocab, p, maxLen)
    ensures Word(vocab[token := word], p.a) == Word(vocab, p.a) && Word(vocab[token := word], p.b) == Word(vocab, p.b)
  {
  }

  lemma StepIs(vocab: Vocab, s: seq<u32>, t: seq<u32>, p: Pair, token: u32, maxLen: int)
    ensures StepTaken(vocab, s, t, p, token, maxLen) <==>
              && |s| >= 2 && PairCount(s, |s| - 1, p) >= 2 && Fits(vocab, p, maxLen)
              && (forall q :: Fits(vocab, q, maxLen) ==> PairCount(s, |s| - 1, q) <= PairCount(s, |s| - 1, p))
              && (forall k :: 0 <= k < |s| ==> s[k] < token) && p.a < token && p.b < token
              && token in vocab && vocab[token] == Word(vocab, p.a) + Word(vocab, p.b)
              && t == Merged(s, 0, p, token)
  {
    hide PairCount, Fits, Word, Merged;
  }

  // A later token does not touch the steps before it.
  lemma StepStays(vocab: Vocab, s: seq<u32>, t: seq<u32>, p: Pair, token: u32, maxLen: int, next: u32, word: Bytes)
    requires StepTaken(vocab, s, t, p, token, maxLen) && next > token
    ensures StepTaken(vocab[next := word], s, t, p, token, maxLen)
  {
    hide *;
    StepIs(vocab, s, t, p, token, maxLen);
    var n := |s| - 1;
    SameFit(vocab, next, word, p, maxLen);
    forall q | Fits(vocab[next := word], q, maxLen)
      ensures PairCount(s, n, q) <= PairCount(s, n, p)
    {
      if PairCount(s, n, q) > 0 {
        var j := OnePosition(s, n, q);
        SameFit(vocab, next, word, q, maxLen);
      }
    }
    StepIs(vocab[next := word], s, t, p, token, maxLen);
  }

  lemma {:induction false} ExpandStays(vocab: Vocab, tokens: seq<u32>, i: nat, next: u32, word: Bytes)
    requires forall k :: 0 <= k < |tokens| ==> tokens[k] < next
    ensures Expand(vocab[next := word], tokens, i) == Expand(vocab, tokens, i)
    decreases |tokens| - i
  {
    if i < |tokens| { ExpandStays(vocab, tokens, i + 1, next, word); }
  }

  lemma StepsStay(vocab: Vocab, streams: seq<seq<u32>>, pairs: seq<Pair>, data: Bytes, next: u32, word: Bytes, maxLen: int)
    requires |streams| == |pairs| + 1 && next == 256 + |pairs|
    requires forall k :: 0 <= k < |pairs| ==> StepTaken(vocab, streams[k], streams[k + 1], pairs[k], 256 + k, maxLen)
    requires Training(vocab, streams[|pairs|], data, maxLen, next)
    requires forall k :: 0 <= k < |streams| ==> Expand(vocab, streams[k], 0) == data
    ensures forall k :: 0 <= k < |pairs| ==> StepTaken(vocab[next := word], streams[k], streams[k + 1], pairs[k], 256 + k, maxLen)
    ensures forall k :: 0 <= k < |streams| ==> Expand(vocab[next := word], streams[k], 0) == data
  {
    hide *;
    forall k | 0 <= k < |pairs|
      ensures StepTaken(vocab[next := word], streams[k], streams[k + 1], pairs[k], 256 + k, maxLen)
    {
      StepStays(vocab, streams[k], streams[k + 1], pairs[k], 256 + k, maxLen, next, word);
    }
    TrainingIs(vocab, streams[|pairs|], data, maxLen, next);
    forall k | 0 <= k < |streams|
      ensures Expand(vocab[next := word], streams[k], 0) == data
    {
      if k < |pairs| { StepIs(vocab, streams[k], streams[k + 1], pairs[k], 256 + k, maxLen); }
      ExpandStays(vocab, streams[k], 0, next, word);
    }
  }

  lemma CountIs(counts: Counts, tokens: seq<u32>, n: nat, p: Pair)
    requires n < |tokens| && Counted(counts, tokens, n)
    ensures PairCount(tokens, n, p) == if p in counts then counts[p] else 0
  {
    hide PairCount;
  }

  lemma NoTokens(vocab: Vocab)
    ensures Expand(vocab, [], 0) == []
  {
  }

  lemma BytesTrain(vocab: Vocab, tokens: seq<u32>, data: Bytes, maxLen: int)
    requires forall b: u32 :: b < 256 ==> b in vocab && vocab[b] == [b as byte]
    requires |tokens| == |data| && forall k :: 0 <= k < |data| ==> tokens[k] == data[k]
    ensures Training(vocab, tokens, data, maxLen, 256)
  {
    BytesExpand(vocab, tokens, data, 0);
    assert data[0..] == data;
    hide Expand, Learned;
  }

  lemma TrainingIs(vocab: Vocab, tokens: seq<u32>, data: Bytes, maxLen: int, next: nat)
    requires Training(vocab, tokens, data, maxLen, next)
    ensures forall b: u32 :: b < 256 ==> b in vocab && vocab[b] == [b as byte]
    ensures forall t: u32 :: 256 <= t < next ==> t in vocab && Learned(data, vocab[t], maxLen)
    ensures next >= 256 && (forall k :: 0 <= k < |tokens| ==> tokens[k] < next) && Expand(vocab, tokens, 0) == data
  {
    hide Expand, Learned;
  }
}
