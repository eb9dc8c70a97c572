// The chunker with a rolling hash over eight bytes (internal/chunker/cdc.go).
module RollingChunker {
  import opened Common
  import opened Chunks
  import opened ContentCuts
  import opened Modular
  import opened RollingHash

  const WINDOW: nat := 8

  // The last bytes of a chunk, as many as the window holds.
  function LastWindow(chunk: Bytes): Bytes {
    if |chunk| > WINDOW then chunk[|chunk| - WINDOW..] else chunk
  }

  // What the loop keeps in rollHash: the hash of the window and no more.
  method PrimePower() returns (p: u64)
    ensures p == Power(WINDOW) % TWO_TO_64
  {
    p := 1;
    for i := 0 to WINDOW
      invariant p == Power(i) % TWO_TO_64
    {
      ModMul(Power(i), PRIME, TWO_TO_64);
      p := Mul64(p, PRIME);
    }
  }

  lemma HashFirst(chunk: Bytes, next: byte)
    requires |chunk| < WINDOW
    ensures Add64(Mul64(Hash(LastWindow(chunk)), PRIME), next) == Hash(LastWindow(chunk + [next]))
  {
    assert (chunk + [next])[..|chunk|] == chunk;
  }

  // The hash rolls: the oldest byte leaves with the weight it has gained.
  lemma HashRolls(chunk: Bytes, next: byte, power: u64)
    requires |chunk| >= WINDOW && power == Power(WINDOW) % TWO_TO_64
    ensures Sub64(Add64(Mul64(Hash(LastWindow(chunk)), PRIME), next), Mul64(LastWindow(chunk)[0], power)) == Hash(LastWindow(chunk + [next]))
  {
    var w := LastWindow(chunk);
    assert LastWindow(chunk + [next]) == w[1..] + [next];
    HashIsValue(w);
    ValueFirst(w);
    HashNext(w[1..], next);
    Weights(Value(w), w[0], Power(WINDOW - 1), Value(w[1..]), next);
    hide Hash, Value, LastWindow;
    assert Power(WINDOW) == Power(WINDOW - 1) * PRIME;
  }

  lemma Weights(v: int, first: int, p: int, rest: int, next: int)
    requires v == first * p + rest
    ensures Sub64(Add64(Mul64(v % TWO_TO_64, PRIME), next), Mul64(first, p * PRIME % TWO_TO_64)) == (rest * PRIME + next) % TWO_TO_64
  {
    var m := TWO_TO_64;
    ModMul(v, PRIME, m);
    ModAdd(v * PRIME, next, m);
    ModMul(p * PRIME, first, m);
    assert p * PRIME % m * first == first * (p * PRIME % m);
    ModSub(v * PRIME + next, p * PRIME * first % m, m);
    ModSub(v * PRIME + next, p * PRIME * first, m);
    assert (first * p + rest) * PRIME == p * PRIME * first + rest * PRIME;
  }

  // Where a chunk may end on account of its hash.
  predicate HashEnds(modulus: nat, minSize: int, chunk: Bytes)
    requires modulus > 0
  {
    |chunk| > minSize && |chunk| > WINDOW && Hash(LastWindow(chunk)) % modulus == 0
  }

  // Go's division, which truncates.
  function Quarter(n: int): int { if n >= 0 then n / 4 else -(-n / 4) }

  // What the loop of Split keeps between rounds, beside the chunks.
  datatype Scan = Scan(start: nat, offset: nat, hash: u64)

  class CDCChunker {
    const targetSize: i64
    const minSize: i64
    const maxSize: i64
    const sum64: Bytes -> u64

    ghost predicate Valid() {
      minSize == Quarter(targetSize) && maxSize == Signed(targetSize * 2)
    }

    constructor (targetSize: i64, sum64: Bytes -> u64)
      ensures Valid() && this.targetSize == targetSize && this.sum64 == sum64
    {
      this.targetSize, this.minSize, this.maxSize, this.sum64 := targetSize, Quarter(targetSize), Signed(targetSize * 2), sum64;
    }

    // uint64(targetSize)
    function Modulus(): u64 { targetSize % TWO_TO_64 }

    lemma ModulusIsPositive()
      requires Valid() && maxSize > 0
      ensures Modulus() > 0 && minSize < maxSize
    {
    }

    // ----- when the loop ends ----------------------------------------------------------

    ghost predicate CutsAt(hash: u64)
      requires Valid() && maxSize > 0
    {
      ModulusIsPositive();
      hash % Modulus() == 0
    }

    // One round of the loop.
    ghost function Round(data: Bytes, s: Scan): (r: Scan)
      requires Valid() && s.start <= s.offset < |data|
      ensures r.start <= r.offset <= |data|
    {
      var chunkLen := s.offset - s.start;
      if chunkLen >= maxSize then Scan(s.offset, s.offset, 0)
      else
        var hash := Rolled(data, s);
        if chunkLen >= minSize && s.offset >= s.start + WINDOW && CutsAt(hash) then Scan(s.offset + 1, s.offset + 1, 0)
        else Scan(s.start, s.offset + 1, hash)
    }

    static ghost function Rolled(data: Bytes, s: Scan): u64
      requires s.start <= s.offset < |data|
    {
      var next := Add64(Mul64(s.hash, PRIME), data[s.offset]);
      if s.offset >= s.start + WINDOW then Sub64(next, Mul64(data[s.offset - WINDOW], Power(WINDOW) % TWO_TO_64)) else next
    }

    // Where k rounds lead, if the loop does not end before.
    ghost function Rounds(data: Bytes, k: nat): (s: Scan)
      requires Valid()
      ensures s.start <= s.offset <= |data|
    {
      if k == 0 then Scan(0, 0, 0)
      else
        var s := Rounds(data, k - 1);
        if s.offset < |data| then Round(data, s) else s
    }

    // Split returns before the loop, or some number of rounds ends it.
    ghost predicate Returns(data: Bytes)
      requires Valid()
    {
      data == [] || |data| <= minSize || exists k: nat :: Rounds(data, k).offset >= |data|
    }

    // What a caller can check: twice the target, as the machine computes it.
    predicate Ends(data: Bytes) {
      data == [] || |data| <= minSize || maxSize > 0
    }

    // A maximum of zero or less cuts an empty chunk and comes back to the same state.
    lemma Stuck(data: Bytes, s: Scan)
      requires Valid() && maxSize <= 0 && s.start == s.offset < |data| && s.hash == 0
      ensures Round(data, s) == s
    {
    }

    lemma {:induction false} AlwaysStuck(data: Bytes, k: nat)
      requires Valid() && maxSize <= 0 && data != []
      ensures Rounds(data, k) == Scan(0, 0, 0)
    {
      if k > 0 {
        AlwaysStuck(data, k - 1);
        Stuck(data, Scan(0, 0, 0));
      }
    }

    // With a positive maximum a round moves on, or cuts so that the next one does.
    lemma {:induction false} Progress(data: Bytes, k: nat)
      requires Valid() && maxSize > 0
      ensures var s := Rounds(data, k); s.offset >= |data| || 2 * s.offset + (if s.offset > s.start then 0 else 1) > k
    {
      if k > 0 {
        Progress(data, k - 1);
        hide Rolled, Modulus;
      }
    }

    // Split returns if and only if the data are empty or no longer than the
    // minimum, or the maximum has come out positive.
    lemma ReturnsIff(data: Bytes)
      requires Valid()
      ensures Returns(data) <==> Ends(data)
    {
      if maxSize > 0 {
        Progress(data, 2 * |data| + 1);
        assert Rounds(data, 2 * |data| + 1).offset >= |data|;
      } else if data != [] {
        forall k: nat ensures Rounds(data, k).offset == 0 { AlwaysStuck(data, k); }
      }
    }

    // For targets that can be doubled in 64 bits, the maximum is positive exactly
    // for positive ones.
    lemma OrdinaryTargets(data: Bytes)
      requires Valid() && -TWO_TO_63 <= 2 * targetSize < TWO_TO_63
      ensures Returns(data) <==> data == [] || targetSize > 0
    {
      ReturnsIff(data);
      hide Returns;
    }

    // ----- what the loop computes --------------------------------------------------------

    function EndRule(): Rule {
      var modulus, min, max := Modulus(), minSize, maxSize;
      (chunk: Bytes) => |chunk| > min && (|chunk| >= max || (modulus > 0 && HashEnds(modulus, min, chunk)))
    }

    lemma RuleIs(chunk: Bytes)
      ensures EndRule()(chunk) <==> |chunk| > minSize && (|chunk| >= maxSize || (Modulus() > 0 && HashEnds(Modulus(), minSize, chunk)))
    {
    }

    lemma RuleBounds()
      requires Valid() && maxSize > 0
      ensures Bounds(EndRule(), Max(minSize + 1, 0), maxSize)
    {
      ModulusIsPositive();
      hide HashEnds, Modulus;
      forall chunk: Bytes
        ensures |chunk| < minSize + 1 ==> !EndRule()(chunk)
        ensures |chunk| >= maxSize ==> EndRule()(chunk)
      {
        RuleIs(chunk);
      }
      hide EndRule;
    }

    method Split(data: Bytes) returns (chunks: seq<Chunk>)
      requires Valid() && Ends(data)
      ensures chunks == ChunksFrom(EndRule(), sum64, data, 0)
    {
      hide ChunksFrom, FirstCut, EndRule, HashEnds, Hash, LastWindow, Round, Rounds, Modulus;
      if |data| == 0 {
        Nothing(EndRule(), sum64, data, 0);
        return [];
      }
      var n := |data|;
      if n <= minSize {
        OneChunk(data);
        return [Cut(sum64, data, 0, n)];
      }
      var power := PrimePower();
      ModulusIsPositive();
      chunks := [];
      var start, offset := 0, 0;
      var rollHash: u64 := 0;
      ghost var k: nat := 0;
      EmptyWindow(data, 0);
      NoRounds(data);
      while offset < n
        invariant start <= offset <= n
        invariant Scan(start, offset, rollHash) == Rounds(data, k)
        invariant chunks + ChunksFrom(EndRule(), sum64, data, start) == ChunksFrom(EndRule(), sum64, data, 0)
        invariant rollHash == Hash(LastWindow(data[start..offset]))
        invariant offset > start ==> !HashEnds(Modulus(), minSize, data[start..offset])
        invariant FirstCut(EndRule(), data, start, start + 1) == FirstCut(EndRule(), data, start, Max(start + 1, offset))
        decreases n - offset, offset - start
      {
        var chunkLen := offset - start;
        NextRound(data, k, start, offset, rollHash);
        k := k + 1;
        if chunkLen >= maxSize {
          RuleIs(data[start..offset]);
          CutHere(EndRule(), sum64, data, start, offset, chunks);
          chunks := chunks + [Cut(sum64, data, start, offset)];
          start := offset;
          rollHash := 0;
          EmptyWindow(data, start);
          continue;
        }
        ghost var chunk := data[start..offset];
        assert data[start..offset + 1] == chunk + [data[offset]];
        if offset >= start + WINDOW {
          WindowStart(data, start, offset);
          HashRolls(chunk, data[offset], power);
          rollHash := Sub64(Add64(Mul64(rollHash, PRIME), data[offset]), Mul64(data[offset - WINDOW], power));
        } else {
          HashFirst(chunk, data[offset]);
          rollHash := Add64(Mul64(rollHash, PRIME), data[offset]);
        }
        RuleIs(chunk);
        NotYet(EndRule(), data, start, offset);
        HashEndsIs(Modulus(), minSize, data[start..offset + 1]);
        if chunkLen >= minSize && offset >= start + WINDOW && rollHash % Modulus() == 0 {
          RuleIs(data[start..offset + 1]);
          CutHere(EndRule(), sum64, data, start, offset + 1, chunks);
          chunks := chunks + [Cut(sum64, data, start, offset + 1)];
          start := offset + 1;
          rollHash := 0;
          EmptyWindow(data, start);
        }
        offset := offset + 1;
      }
      if start < n {
        LastChunk(EndRule(), sum64, data, start, chunks);
        chunks := chunks + [Cut(sum64, data, start, n)];
      } else {
        Nothing(EndRule(), sum64, data, start);
      }
    }

    // Where the chunks end, said of their bytes: a chunk before the last one has the
    // maximum size, or is longer than the minimum and the window, and the hash of its
    // last eight bytes is a multiple of the target; no shorter beginning of a chunk is so.
    lemma ChunkEnds(data: Bytes, i: nat, n: nat)
      requires Valid() && maxSize > 0 && i < |ChunksFrom(EndRule(), sum64, data, 0)|
      ensures var cs := ChunksFrom(EndRule(), sum64, data, 0);
              && cs[i].size == |cs[i].data| && cs[i].hash == sum64(cs[i].data)
              && (i + 1 < |cs| ==>
                    cs[i].size >= maxSize
                    || (cs[i].size > minSize && cs[i].size > 8 && Hash(cs[i].data[cs[i].size - 8..]) % (targetSize % TWO_TO_64) == 0))
              && (0 < n < cs[i].size ==>
                    && n < maxSize
                    && !(n > minSize && n > 8 && Hash(cs[i].data[..n][n - 8..]) % (targetSize % TWO_TO_64) == 0))
    {
      ModulusIsPositive();
      CutReason(EndRule(), sum64, data, 0, i, n);
      var c := ChunksFrom(EndRule(), sum64, data, 0)[i];
      RuleIs(c.data);
      if 0 < n < c.size { RuleIs(c.data[..n]); }
      hide ChunksFrom, EndRule, Hash;
    }

    lemma NoRounds(data: Bytes)
      requires Valid()
      ensures Rounds(data, 0) == Scan(0, 0, 0)
    {
    }

    lemma NextRound(data: Bytes, k: nat, start: nat, offset: nat, hash: u64)
      requires Valid() && maxSize > 0 && Rounds(data, k) == Scan(start, offset, hash) && start <= offset < |data|
      ensures var next := Add64(Mul64(hash, PRIME), data[offset]);
              var rolled := if offset >= start + WINDOW then Sub64(next, Mul64(data[offset - WINDOW], Power(WINDOW) % TWO_TO_64)) else next;
              && Modulus() > 0
              && Rounds(data, k + 1) ==
                 if offset - start >= maxSize then Scan(offset, offset, 0)
                 else if offset - start >= minSize && offset >= start + WINDOW && rolled % Modulus() == 0 then Scan(offset + 1, offset + 1, 0)
                 else Scan(start, offset + 1, rolled)
    {
      ModulusIsPositive();
      hide Modulus, Power;
    }

    lemma OneChunk(data: Bytes)
      requires 0 < |data| <= minSize
      ensures ChunksFrom(EndRule(), sum64, data, 0) == [Cut(sum64, data, 0, |data|)]
    {
      CutBounds(EndRule(), data, 0, 1);
      var to := FirstCut(EndRule(), data, 0, 1);
      RuleIs(data[0..to]);
      hide EndRule;
      assert |data[0..to]| <= minSize;
    }
  }

  lemma EmptyWindow(data: Bytes, at: nat)
    requires at <= |data|
    ensures Hash(LastWindow(data[at..at])) == 0
  {
  }

  lemma HashEndsIs(modulus: nat, minSize: int, chunk: Bytes)
    requires modulus > 0
    ensures HashEnds(modulus, minSize, chunk) <==> |chunk| > minSize && |chunk| > WINDOW && Hash(LastWindow(chunk)) % modulus == 0
  {
  }

  lemma WindowStart(data: Bytes, start: nat, offset: nat)
    requires start + WINDOW <= offset < |data|
    ensures |LastWindow(data[start..offset])| == WINDOW && LastWindow(data[start..offset])[0] == data[offset - WINDOW]
  {
  }
}
