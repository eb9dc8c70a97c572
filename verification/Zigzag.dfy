// Signed differences as unsigned numbers (pkg/format/format.go).
module Zigzag {
  import opened Common
  import Bits

  const ONES: u64 := TWO_TO_64 - 1

  // uint64(v<<1) ^ uint64(v>>63), on the 64-bit pattern of v.
  function Zig(v: u64): nat {
    Bits.Xor(2 * v % TWO_TO_64, if v >= TWO_TO_63 then ONES else 0)
  }

  // int64(u>>1) ^ -int64(u&1), as a 64-bit pattern.
  function Unzig(u: u64): nat {
    Bits.Xor(u / 2, if u % 2 == 1 then ONES else 0)
  }

  lemma ZigIs(v: u64)
    ensures Zig(v) == if v < TWO_TO_63 then 2 * v as nat else 2 * TWO_TO_64 - 1 - 2 * v
  {
    Bits.Powers();
    hide Bits.Xor, Bits.Pow2;
    var d := 2 * v % TWO_TO_64;
    assert d == if v < TWO_TO_63 then 2 * v as nat else 2 * v - TWO_TO_64;
    Bits.XorZero(d);
    Bits.XorOnes(d, 64);
  }

  lemma UnzigIs(u: u64)
    ensures Unzig(u) == if u % 2 == 0 then u / 2 else TWO_TO_64 - 1 - u / 2
  {
    Bits.Powers();
    hide Bits.Xor, Bits.Pow2;
    Bits.XorZero(u / 2);
    Bits.XorOnes(u / 2, 64);
  }

  lemma RoundTrip(v: u64)
    ensures Zig(v) < TWO_TO_64 && Unzig(Zig(v)) == v
    ensures Zig(v) == ONES <==> v == TWO_TO_63
  {
    hide Bits.Xor, Zig, Unzig;
    ZigIs(v);
    UnzigIs(Zig(v));
  }
}
