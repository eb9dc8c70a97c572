// The foreign code the program relies on: compression, encryption, digests.
module Tooling {
  import opened Common

  // The foreign code the program relies on, as functions. Encryption takes its
  // random nonce as an argument.
  datatype Tools = Tools(
    zstd: (Bytes, Bytes) -> Bytes, unzstd: (Bytes, Bytes) -> Result<Bytes>,
    tableZstd: Bytes -> Bytes, tableUnzstd: (Bytes, nat) -> Result<Bytes>,
    sha256: Bytes -> Bytes, sum64: Bytes -> u64,
    deriveKey: (Bytes, Bytes) -> Bytes, encrypt: (Bytes, Bytes, Bytes) -> Bytes,
    decrypt: (Bytes, Bytes) -> Result<Bytes>)
  {
    // Compression and encryption have their inverses and do not expand by more
    // than an eighth and a constant; a digest has 32 bytes.
    ghost predicate Valid() {
      && (forall p, d :: p != [] ==> zstd(p, d) != [] && unzstd(zstd(p, d), d) == Ok(p) && |zstd(p, d)| <= |p| + |p| / 8 + 512)
      && (forall b :: |tableZstd(b)| <= |b| + |b| / 8 + 512)
      && (forall b, max: nat :: |b| <= max ==> tableUnzstd(tableZstd(b), max) == Ok(b))
      && (forall b :: |sha256(b)| == 32)
      && (forall k, n, p :: decrypt(k, encrypt(k, n, p)) == Ok(p) && |encrypt(k, n, p)| <= |p| + 28)
    }

    // CompressPoolDict and DecompressPoolDict: an empty pool takes no bytes.
    function CompressPool(pool: Bytes, dict: Bytes): Bytes {
      if pool == [] then [] else zstd(pool, dict)
    }

    function DecompressPool(frame: Bytes, dict: Bytes): Result<Bytes> {
      if frame == [] then Ok([]) else unzstd(frame, dict)
    }
  }

  // io.ReadFull of n bytes: what was read and what is left.
  function ReadFull(r: Bytes, n: nat): Result<(Bytes, Bytes)> {
    if |r| < n then Err(ShortRead) else Ok((r[..n], r[n..]))
  }

  lemma ReadExactly(a: Bytes, rest: Bytes)
    ensures ReadFull(a + rest, |a|) == Ok((a, rest))
  {
  }
}
