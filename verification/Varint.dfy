// Unsigned LEB128 varints, as the chunk table stores its numbers.
module Varint {
  import opened Common

  // binary.AppendUvarint
  function Write(v: nat): (b: Bytes)
    ensures b != []
  {
    if v < 128 then [v] else [v % 128 + 128] + Write(v / 128)
  }

  // binary.Uvarint on b, of which i bytes have been read: the value and the
  // bytes it takes. Fails when b ends first, and on values above 64 bits.
  function Read(b: Bytes, i: nat): Option<(nat, nat)>
    decreases |b|
  {
    if b == [] || i >= 10 then None
    else if b[0] < 128 then
      if i == 9 && b[0] > 1 then None else Some((b[0], 1))
    else
      match Read(b[1..], i + 1)
      case None => None
      case Some((v, n)) => Some((b[0] - 128 + 128 * v, n + 1))
  }

  // What can still be read after i bytes.
  ghost function Capacity(i: nat): nat
    decreases 9 - i
  {
    if i >= 9 then 2 else 128 * Capacity(i + 1)
  }

  lemma CapacityIs64()
    ensures Capacity(0) == TWO_TO_64
  {
    assert Capacity(8) == 256 && Capacity(7) == 32768 && Capacity(6) == 4194304;
    assert Capacity(5) == 536870912 && Capacity(4) == 68719476736;
    assert Capacity(3) == 128 * 68719476736 && Capacity(2) == 16384 * 68719476736;
    assert Capacity(1) == 2097152 * 68719476736;
  }

  lemma {:induction false} ReadWriteAt(v: nat, rest: Bytes, i: nat)
    requires i <= 9 && v < Capacity(i)
    ensures Read(Write(v) + rest, i) == Some((v, |Write(v)|))
    decreases v
  {
    var b := Write(v) + rest;
    if v >= 128 {
      ReadWriteAt(v / 128, rest, i + 1);
      assert b[1..] == Write(v / 128) + rest;
    }
  }

  lemma ReadWrite(v: u64, rest: Bytes)
    ensures Read(Write(v) + rest, 0) == Some((v as nat, |Write(v)|))
  {
    CapacityIs64();
    ReadWriteAt(v, rest, 0);
  }

  // A value read fits in 64 bits and was there to be read.
  lemma {:induction false} ReadBounds(b: Bytes, i: nat)
    requires i <= 9
    ensures Read(b, i).Some? ==> Read(b, i).value.0 < Capacity(i) && 1 <= Read(b, i).value.1 <= |b|
    decreases |b|
  {
    if b != [] && b[0] >= 128 && i < 9 {
      ReadBounds(b[1..], i + 1);
    } else if i == 9 && b != [] && b[0] >= 128 {
      assert Read(b[1..], 10) == None;
    } else if i < 9 {
      CapacityAtLeast(i);
    }
  }

  lemma {:induction false} CapacityAtLeast(i: nat)
    requires i < 9
    ensures Capacity(i) >= 128
    decreases 9 - i
  {
    if i < 8 { CapacityAtLeast(i + 1); }
  }

  ghost function Pow128(n: nat): nat { if n == 0 then 1 else 128 * Pow128(n - 1) }

  lemma {:induction false} WriteLength(v: nat, n: nat)
    requires n > 0 && v < Pow128(n)
    ensures |Write(v)| <= n
  {
    if v >= 128 { WriteLength(v / 128, n - 1); }
  }

  lemma Lengths()
    ensures forall v: u64 :: |Write(v)| <= 10
    ensures forall v: u32 :: |Write(v)| <= 5
  {
    assert Pow128(2) == 16384 && Pow128(3) == 2097152 && Pow128(4) == 268435456 && Pow128(5) == 34359738368;
    assert Pow128(7) == 16384 * Pow128(5) by { assert Pow128(6) == 128 * Pow128(5); }
    assert Pow128(9) == 16384 * Pow128(7) by { assert Pow128(8) == 128 * Pow128(7); }
    forall v: u64 ensures |Write(v)| <= 10 { WriteLength(v, 10); }
    forall v: u32 ensures |Write(v)| <= 5 { WriteLength(v, 5); }
  }
}
