// Machine integers, byte strings and results shared by every component.
module Common {

  const TWO_TO_64: int := 0x1_0000_0000_0000_0000
  const TWO_TO_63: int := 0x8000_0000_0000_0000
  const TWO_TO_60: int := 0x1000_0000_0000_0000
  const TWO_TO_32: int := 0x1_0000_0000

  type byte = x: int | 0 <= x < 256
  type u16 = x: int | 0 <= x < 0x1_0000
  type u32 = x: int | 0 <= x < TWO_TO_32
  type u64 = x: int | 0 <= x < TWO_TO_64
  type i64 = x: int | -TWO_TO_63 <= x < TWO_TO_63

  type Bytes = seq<byte>

  // Unsigned 64-bit arithmetic wraps around. Euclidean remainder is the right
  // one for a negative difference as well.
  function Add64(a: int, b: int): u64 { (a + b) % TWO_TO_64 }
  function Sub64(a: int, b: int): u64 { (a - b) % TWO_TO_64 }
  function Mul64(a: int, b: int): u64 { (a * b) % TWO_TO_64 }

  // int64(x)
  function Signed(x: int): i64 {
    var u := x % TWO_TO_64;
    if u >= TWO_TO_63 then u - TWO_TO_64 else u
  }

  datatype Error =
    | EmptyInput
    | ShortRead
    | BadMagic
    | BadVersion
    | BadHeader
    | BadTable
    | BadBlockCount
    | BadBlock
    | BadBounds
    | BadLookup
    | BadScript
    | BadHash
    | BadMessage
    | NoKey
    | MissingChunk
    | EndOfFile
    | NoMatch

  datatype Option<+T> = None | Some(value: T)

  datatype Result<+T> = Ok(value: T) | Err(error: Error) {
    predicate IsFailure() { Err? }
    function PropagateFailure<U>(): Result<U>
      requires Err?
    {
      Err(error)
    }
    function Extract(): T
      requires Ok?
    {
      value
    }
  }

  function Min(a: int, b: int): int { if a <= b then a else b }
  function Max(a: int, b: int): int { if a <= b then b else a }

  lemma MinIs(a: int, b: int)
    ensures Min(a, b) == if a <= b then a else b
  {
  }

  // Sequence equality from the elements; handing the solver the length and the
  // elements is cheaper than letting it look for a decomposition.
  lemma SameElements<T>(s: seq<T>, t: seq<T>)
    requires |s| == |t|
    requires forall i :: 0 <= i < |s| ==> s[i] == t[i]
    ensures s == t
  {
  }

  lemma Regroup<T>(a: seq<T>, b: seq<T>, c: seq<T>)
    ensures a + (b + c) == a + b + c
  {
  }

  // The n bytes of a buffer from a position on.
  function Field(b: Bytes, at: nat, n: nat): (f: Bytes)
    requires at + n <= |b|
    ensures |f| == n
  {
    b[at..at + n]
  }

  // ----- little endian ------------------------------------------------------

  function Pow256(n: nat): (p: nat)
    ensures p > 0
  {
    if n == 0 then 1 else 256 * Pow256(n - 1)
  }

  // binary.LittleEndian.PutUintN for a value that fits in n bytes.
  function PutLE(v: nat, n: nat): (b: Bytes)
    ensures |b| == n
  {
    if n == 0 then [] else [v % 256] + PutLE(v / 256, n - 1)
  }

  // binary.LittleEndian.UintN on the whole of b.
  function GetLE(b: Bytes): (v: nat)
    ensures v < Pow256(|b|)
  {
    if b == [] then 0 else b[0] + 256 * GetLE(b[1..])
  }

  lemma {:induction false} GetPutLE(v: nat, n: nat)
    requires v < Pow256(n)
    ensures GetLE(PutLE(v, n)) == v
  {
    if n > 0 {
      GetPutLE(v / 256, n - 1);
      assert PutLE(v, n)[1..] == PutLE(v / 256, n - 1);
    }
  }

  lemma Widths()
    ensures Pow256(2) == 0x1_0000 && Pow256(4) == TWO_TO_32 && Pow256(8) == TWO_TO_64
  {
    assert Pow256(1) == 256 && Pow256(2) == 0x1_0000 && Pow256(3) == 0x100_0000;
    assert Pow256(4) == TWO_TO_32 && Pow256(5) == 256 * TWO_TO_32;
    assert Pow256(6) == 0x1_0000 * TWO_TO_32 && Pow256(7) == 0x100_0000 * TWO_TO_32;
  }

  function U16(v: u16): (b: Bytes) ensures |b| == 2 { PutLE(v, 2) }
  function U32(v: u32): (b: Bytes) ensures |b| == 4 { PutLE(v, 4) }
  function U64(v: u64): (b: Bytes) ensures |b| == 8 { PutLE(v, 8) }

  function GetU16(b: Bytes): (v: u16) requires |b| == 2 { Widths(); GetLE(b) }
  function GetU32(b: Bytes): (v: u32) requires |b| == 4 { Widths(); GetLE(b) }
  function GetU64(b: Bytes): (v: u64) requires |b| == 8 { Widths(); GetLE(b) }

  lemma GetU16Put(v: u16)
    ensures GetU16(U16(v)) == v
  {
    Widths();
    GetPutLE(v, 2);
  }

  lemma GetU32Put(v: u32)
    ensures GetU32(U32(v)) == v
  {
    Widths();
    GetPutLE(v, 4);
  }

  lemma GetU64Put(v: u64)
    ensures GetU64(U64(v)) == v
  {
    Widths();
    GetPutLE(v, 8);
  }

  function Zeros(n: nat): (z: Bytes)
    ensures |z| == n && forall i :: 0 <= i < n ==> z[i] == 0
  {
    seq(n, _ => 0)
  }
}
