// The brain: a fixed table of codewords of equal size (internal/codebook).
module Codebooks {
  import opened Common

  datatype Codebook = Codebook(words: seq<Bytes>, size: nat, dictionary: Bytes) {
    // What opening a codebook file checks, and the bound below which an ID
    // leaves the flag bits of a chunk entry free.
    ghost predicate Valid() {
      && 1 <= size < 0x1_0000
      && 0 < |words| < TWO_TO_60
      && forall w :: w in words ==> |w| == size
    }

    function Lookup(id: u64): Result<Bytes> {
      if id < |words| then Ok(words[id]) else Err(BadLookup)
    }
  }
}
