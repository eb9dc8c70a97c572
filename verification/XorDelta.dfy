// XOR residuals (internal/delta/xor.go).
module XorDelta {
  import opened Common
  import Bits

  function XorByte(a: byte, b: byte): byte {
    Bits.Powers();
    Bits.XorBound(a, b, 8);
    Bits.Xor(a, b)
  }

  // The bytes of a exclusive-or those of b; past the end of b, the bytes of a.
  function Xored(a: Bytes, b: Bytes): (r: Bytes)
    ensures |r| == |a|
  {
    seq(|a|, i requires 0 <= i < |a| => if i < |b| then XorByte(a[i], b[i]) else a[i])
  }

  // Apply: an empty residual stands for the pattern itself.
  function Applied(pattern: Bytes, residual: Bytes): Bytes {
    if residual == [] then pattern else Xored(residual, pattern)
  }

  method XOR(original: Bytes, pattern: Bytes) returns (r: Bytes)
    ensures r == Xored(original, pattern)
  {
    hide XorByte;
    var residual := new byte[|original|];
    for i := 0 to |original|
      invariant forall k :: 0 <= k < i ==> residual[k] == Xored(original, pattern)[k]
    {
      if i < |pattern| {
        residual[i] := XorByte(original[i], pattern[i]);
      } else {
        residual[i] := original[i];
      }
    }
    r := residual[..];
    SameElements(r, Xored(original, pattern));
  }

  method Apply(pattern: Bytes, residual: Bytes) returns (r: Bytes)
    ensures r == Applied(pattern, residual)
  {
    hide XorByte;
    if |residual| == 0 {
      return pattern;
    }
    var original := new byte[|residual|];
    for i := 0 to |residual|
      invariant forall k :: 0 <= k < i ==> original[k] == Xored(residual, pattern)[k]
    {
      if i < |pattern| {
        XorByteSymmetric(pattern[i], residual[i]);
        original[i] := XorByte(pattern[i], residual[i]);
      } else {
        original[i] := residual[i];
      }
    }
    r := original[..];
    SameElements(r, Xored(residual, pattern));
  }

  lemma XorByteSymmetric(a: byte, b: byte)
    ensures XorByte(a, b) == XorByte(b, a)
  {
    Bits.XorSymmetric(a, b);
  }

  lemma XorByteUndone(a: byte, b: byte)
    ensures XorByte(XorByte(a, b), b) == a
  {
    Bits.XorUndone(a, b);
  }

  // Applying the XOR residual of a non-empty chunk gives the chunk back.
  lemma XorRoundTrip(original: Bytes, pattern: Bytes)
    requires original != []
    ensures Applied(pattern, Xored(original, pattern)) == original
  {
    var residual := Xored(original, pattern);
    forall i | 0 <= i < |original|
      ensures Xored(residual, pattern)[i] == original[i]
    {
      if i < |pattern| { XorByteUndone(original[i], pattern[i]); }
    }
    SameElements(Xored(residual, pattern), original);
  }

  // Bytes of the pattern past the end of the chunk play no part.
  lemma XorTruncated(original: Bytes, pattern: Bytes, n: nat)
    requires |original| <= n <= |pattern|
    ensures Xored(original, pattern[..n]) == Xored(original, pattern)
  {
    hide XorByte;
    SameElements(Xored(original, pattern[..n]), Xored(original, pattern));
  }
}
