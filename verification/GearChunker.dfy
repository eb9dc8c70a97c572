// The chunker with a gear hash over the whole chunk (internal/chunker/fastcdc.go).
module GearChunker {
  import opened Common
  import opened Chunks
  import opened ContentCuts
  import Bits
  import Modular

  const DEFAULT_CHUNK_SIZE: nat := 128

  type GearTable = byte -> u64

  // Each step is (h << 1) + gear[b] in 64 bits.
  function Gear(table: GearTable, chunk: Bytes): u64 {
    if chunk == [] then 0 else Add64(Mul64(Gear(table, chunk[..|chunk| - 1]), 2), table(chunk[|chunk| - 1]))
  }

  lemma GearNext(table: GearTable, data: Bytes, start: nat, i: nat)
    requires start <= i < |data|
    ensures Gear(table, data[start..i + 1]) == Add64(Mul64(Gear(table, data[start..i]), 2), table(data[i]))
  {
    assert data[start..i + 1][..i - start] == data[start..i];
  }

  // The hash of a string from those of its parts.
  lemma {:induction false} GearSplit(table: GearTable, a: Bytes, b: Bytes)
    ensures Gear(table, a + b) == (Gear(table, a) * Bits.Pow2(|b|) + Gear(table, b)) % TWO_TO_64
    decreases |b|
  {
    hide *;
    if b == [] {
      GearNone(table, a);
    } else {
      var n := |b| - 1;
      GearSplit(table, a, b[..n]);
      assert a + b == a + b[..n] + [b[n]] && b == b[..n] + [b[n]];
      GearPush(table, a + b[..n], b[n]);
      GearPush(table, b[..n], b[n]);
      NextPower(n);
      PushedOn(Gear(table, a), Bits.Pow2(n), Gear(table, b[..n]), table(b[n]));
    }
  }

  lemma GearNone(table: GearTable, a: Bytes)
    ensures a + [] == a && Gear(table, []) == 0 && Bits.Pow2(0) == 1
    ensures Gear(table, a) == (Gear(table, a) * 1 + 0) % TWO_TO_64
  {
  }

  lemma GearPush(table: GearTable, s: Bytes, x: byte)
    ensures Gear(table, s + [x]) == Add64(Mul64(Gear(table, s), 2), table(x))
  {
    assert (s + [x])[..|s + [x]| - 1] == s;
  }

  lemma NextPower(n: nat)
    ensures Bits.Pow2(n + 1) == 2 * Bits.Pow2(n)
  {
  }

  lemma PushedOn(x: int, p: int, y: u64, t: u64)
    ensures Add64(Mul64((x * p + y) % TWO_TO_64, 2), t) == (x * (2 * p) + Add64(Mul64(y, 2), t)) % TWO_TO_64
  {
    hide *;
    var q := x * p;
    Doubled(q + y, t);
    Doubled(y, t);
    SmallIsItself(y);
    Modular.ModAdd(2 * q, 2 * (y as int) + t, TWO_TO_64);
    assert x * (2 * p) == 2 * q;
  }

  lemma SmallIsItself(y: u64)
    ensures y % TWO_TO_64 == y
  {
  }

  lemma Doubled(x: int, t: u64)
    ensures Add64(Mul64(x % TWO_TO_64, 2), t) == (2 * x + t) % TWO_TO_64
  {
    Modular.ModMul(x, 2, TWO_TO_64);
    Modular.ModAdd(x * 2, t, TWO_TO_64);
  }

  // Only the last 64 bytes count: what a chunk began with has been shifted out.
  lemma GearWindow(table: GearTable, a: Bytes, b: Bytes)
    requires |b| >= 64
    ensures Gear(table, a + b) == Gear(table, b)
  {
    hide *;
    GearSplit(table, a, b);
    Shifted(|b|);
    var x, k := Gear(table, a), Bits.Pow2(|b| - 64);
    ShiftedOut(x, k, Gear(table, b));
  }

  lemma ShiftedOut(x: u64, k: nat, y: u64)
    ensures (x * (TWO_TO_64 * k) + y) % TWO_TO_64 == y
  {
    assert x * (TWO_TO_64 * k) == TWO_TO_64 * (x * k);
    Modular.Remainder(x * (TWO_TO_64 * k) + y, x * k, y, TWO_TO_64);
  }

  lemma {:induction false} Shifted(n: nat)
    requires n >= 64
    ensures Bits.Pow2(n) == TWO_TO_64 * Bits.Pow2(n - 64)
  {
    if n == 64 { Bits.Powers(); } else { Shifted(n - 1); }
  }

  predicate GearEnds(table: GearTable, minSize: nat, maxSize: int, mask: u64, chunk: Bytes) {
    |chunk| >= minSize && (|chunk| >= maxSize || Bits.And(Gear(table, chunk), mask) == 0)
  }

  lemma GearEndsIs(table: GearTable, minSize: nat, maxSize: int, mask: u64, chunk: Bytes)
    ensures GearEnds(table, minSize, maxSize, mask, chunk) <==>
              |chunk| >= minSize && (|chunk| >= maxSize || Bits.And(Gear(table, chunk), mask) == 0)
  {
  }

  class FastCDCChunker {
    const targetSize: nat
    const minSize: nat
    const maxSize: i64
    const mask: u64
    const table: GearTable
    const sum64: Bytes -> u64

    ghost predicate Valid() {
      targetSize > 0 && minSize == targetSize / 4 && maxSize == Signed(targetSize * 4) && mask == targetSize - 1
    }

    constructor (size: int, table: GearTable, sum64: Bytes -> u64)
      requires size < TWO_TO_63
      ensures Valid() && this.table == table && this.sum64 == sum64
      ensures targetSize == if size <= 0 then DEFAULT_CHUNK_SIZE else size
    {
      var target := if size <= 0 then DEFAULT_CHUNK_SIZE else size;
      this.targetSize, this.minSize, this.maxSize, this.mask := target, target / 4, Signed(target * 4), target - 1;
      this.table, this.sum64 := table, sum64;
    }

    function EndRule(): Rule {
      var t, min, max, m := table, minSize, maxSize, mask;
      (chunk: Bytes) => GearEnds(t, min, max, m, chunk)
    }

    lemma RuleIs(chunk: Bytes)
      ensures EndRule()(chunk) <==> GearEnds(table, minSize, maxSize, mask, chunk)
    {
    }

    // Four times a target of 2^61 or more wraps around, and may come out below the
    // minimum.
    lemma RuleBounds()
      requires Valid() && 0 < maxSize && minSize <= maxSize
      ensures Bounds(EndRule(), minSize, maxSize)
    {
      forall chunk: Bytes
        ensures |chunk| < minSize ==> !EndRule()(chunk)
        ensures |chunk| >= maxSize ==> EndRule()(chunk)
      {
        RuleIs(chunk);
        GearEndsIs(table, minSize, maxSize, mask, chunk);
      }
      hide GearEnds, EndRule;
    }

    method Split(data: Bytes) returns (chunks: seq<Chunk>)
      requires Valid()
      ensures chunks == ChunksFrom(EndRule(), sum64, data, 0)
    {
      hide ChunksFrom, FirstCut, EndRule, Gear, GearEnds;
      if |data| == 0 {
        Nothing(EndRule(), sum64, data, 0);
        return [];
      }
      var n := |data|;
      if n <= minSize {
        OneChunk(data);
        return [Cut(sum64, data, 0, n)];
      }
      chunks := [];
      var start := 0;
      var hash: u64 := 0;
      NoGear(table, data, 0);
      for i := 0 to n
        invariant start <= i
        invariant chunks + ChunksFrom(EndRule(), sum64, data, start) == ChunksFrom(EndRule(), sum64, data, 0)
        invariant hash == Gear(table, data[start..i])
        invariant FirstCut(EndRule(), data, start, start + 1) == FirstCut(EndRule(), data, start, i + 1)
      {
        GearNext(table, data, start, i);
        hash := Add64(Mul64(hash, 2), table(data[i]));
        var chunkLen := i - start + 1;
        RuleIs(data[start..i + 1]);
        GearEndsIs(table, minSize, maxSize, mask, data[start..i + 1]);
        var ends := chunkLen >= minSize && (chunkLen >= maxSize || Bits.And(hash, mask) == 0);
        if ends {
          CutHere(EndRule(), sum64, data, start, i + 1, chunks);
          chunks := chunks + [Cut(sum64, data, start, i + 1)];
          start := i + 1;
          hash := 0;
          NoGear(table, data, start);
        } else {
          Past(EndRule(), data, start, i + 1);
        }
      }
      if start < n {
        AtEnd(EndRule(), data, start, n);
        LastChunk(EndRule(), sum64, data, start, chunks);
        chunks := chunks + [Cut(sum64, data, start, n)];
      } else {
        Nothing(EndRule(), sum64, data, start);
      }
    }

    // Where the chunks end, said of their bytes: a chunk before the last one is at
    // least as long as the minimum, and has the maximum size or a hash without any
    // bit of the mask; no shorter beginning of a chunk is so.
    lemma ChunkEnds(data: Bytes, i: nat, n: nat)
      requires Valid() && i < |ChunksFrom(EndRule(), sum64, data, 0)|
      ensures var cs := ChunksFrom(EndRule(), sum64, data, 0);
              && cs[i].size == |cs[i].data| && cs[i].hash == sum64(cs[i].data)
              && (i + 1 < |cs| ==>
                    cs[i].size >= minSize && (cs[i].size >= maxSize || Bits.And(Gear(table, cs[i].data), targetSize - 1) == 0))
              && (0 < n < cs[i].size ==>
                    !(n >= minSize && (n >= maxSize || Bits.And(Gear(table, cs[i].data[..n]), targetSize - 1) == 0)))
    {
      CutReason(EndRule(), sum64, data, 0, i, n);
      var c := ChunksFrom(EndRule(), sum64, data, 0)[i];
      RuleIs(c.data);
      GearEndsIs(table, minSize, maxSize, mask, c.data);
      if 0 < n < c.size {
        RuleIs(c.data[..n]);
        GearEndsIs(table, minSize, maxSize, mask, c.data[..n]);
      }
      hide ChunksFrom, EndRule, Gear, GearEnds;
    }

    lemma OneChunk(data: Bytes)
      requires 0 < |data| <= minSize
      ensures ChunksFrom(EndRule(), sum64, data, 0) == [Cut(sum64, data, 0, |data|)]
    {
      CutBounds(EndRule(), data, 0, 1);
      var to := FirstCut(EndRule(), data, 0, 1);
      RuleIs(data[0..to]);
      GearEndsIs(table, minSize, maxSize, mask, data[0..to]);
      hide EndRule;
      assert |data[0..to]| == to;
    }
  }

  lemma NoGear(table: GearTable, data: Bytes, at: nat)
    requires at <= |data|
    ensures Gear(table, data[at..at]) == 0
  {
  }

  lemma Past(rule: Rule, data: Bytes, start: nat, end: nat)
    requires start < end <= |data| && !rule(data[start..end])
    ensures FirstCut(rule, data, start, end) == FirstCut(rule, data, start, end + 1)
  {
  }

  lemma AtEnd(rule: Rule, data: Bytes, start: nat, n: nat)
    requires start < n == |data|
    ensures FirstCut(rule, data, start, n) == FirstCut(rule, data, start, n + 1)
  {
  }
}
