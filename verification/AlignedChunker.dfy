// Content-aligned chunking (internal/search/aligned.go): a rolling hash finds
// the codewords wherever they appear, and the input is cut around them.
module AlignedChunking {
  import opened Common
  import opened Codebooks
  import opened Chunks
  import Modular
  import RollingHash

  // ----- the index of codewords -----------------------------------------------

  // The map the constructor fills: a later codeword replaces an earlier one with
  // the same hash.
  function Windows(cb: Codebook, n: nat): map<u64, nat>
    requires n <= |cb.words|
  {
    if n == 0 then map[] else Windows(cb, n - 1)[RollingHash.Hash(cb.words[n - 1]) := n - 1]
  }

  lemma {:induction false} WindowsContent(cb: Codebook, n: nat)
    requires n <= |cb.words|
    ensures forall h :: h in Windows(cb, n) ==> Windows(cb, n)[h] < n && RollingHash.Hash(cb.words[Windows(cb, n)[h]]) == h
    ensures forall i :: 0 <= i < n ==> RollingHash.Hash(cb.words[i]) in Windows(cb, n) && i <= Windows(cb, n)[RollingHash.Hash(cb.words[i])]
  {
    if n > 0 { WindowsContent(cb, n - 1); }
  }

  // No two different codewords share a rolling hash.
  ghost predicate NoCollisions(cb: Codebook) {
    forall v, w :: v in cb.words && w in cb.words && RollingHash.Hash(v) == RollingHash.Hash(w) ==> v == w
  }

  // What Split depends on: the codewords, their index and the chunk checksum.
  datatype Aligner = Aligner(cb: Codebook, index: map<u64, nat>, sum64: Bytes -> u64) {
    ghost predicate Valid() {
      && cb.Valid()
      && (forall h :: h in index ==> index[h] < |cb.words| && RollingHash.Hash(cb.words[index[h]]) == h)
      && (forall i :: 0 <= i < |cb.words| ==> RollingHash.Hash(cb.words[i]) in index)
    }

    // The test of the inner loop: the window at pos is a codeword of the index.
    predicate Hit(data: Bytes, pos: nat)
      requires pos + cb.size <= |data|
    {
      var h := RollingHash.Hash(data[pos..pos + cb.size]);
      h in index && index[h] < |cb.words| && cb.words[index[h]] == data[pos..pos + cb.size]
    }

    ghost predicate Occurs(data: Bytes, pos: nat) {
      pos + cb.size <= |data| && data[pos..pos + cb.size] in cb.words
    }

    // The first hit at or after from; |data| when there is none.
    function NextHit(data: Bytes, from: nat): (p: nat)
      requires from <= |data| && cb.size > 0
      ensures from <= p <= |data|
      ensures p < |data| ==> p + cb.size <= |data|
      decreases |data| - from
    {
      if from + cb.size > |data| then |data|
      else if Hit(data, from) then from
      else NextHit(data, from + 1)
    }

    // emitLiteral: pieces of the codeword size, the last one possibly shorter.
    function Literals(data: Bytes, from: nat, to: nat): seq<Chunk>
      requires from <= to <= |data| && cb.size > 0
      decreases |data| - from
    {
      if from == to then []
      else
        var end := Min(from + cb.size, to);
        [Cut(sum64, data, from, end)] + Literals(data, end, to)
    }

    // The chunks of data[from..]: literals up to the next hit, the hit, the rest.
    function ChunksFrom(data: Bytes, from: nat): seq<Chunk>
      requires from <= |data| && cb.size > 0
      decreases |data| - from
    {
      var p := NextHit(data, from);
      if p == |data| then Literals(data, from, p)
      else Literals(data, from, p) + ([Cut(sum64, data, p, p + cb.size)] + ChunksFrom(data, p + cb.size))
    }
  }

  // NextHit is a hit, and it passes over none.
  lemma {:induction false} NextHitIsFirst(a: Aligner, data: Bytes, from: nat, q: nat)
    requires from <= |data| && a.cb.size > 0
    ensures a.NextHit(data, from) < |data| ==> a.Hit(data, a.NextHit(data, from))
    ensures from <= q && q + a.cb.size <= |data| && a.Hit(data, q) ==> a.NextHit(data, from) <= q < |data|
    decreases |data| - from
  {
    if from + a.cb.size <= |data| && !a.Hit(data, from) {
      NextHitIsFirst(a, data, from + 1, q);
    }
  }

  // A hit is an occurrence, and an occurrence is hit unless another codeword
  // with the same hash took its place in the index.
  lemma HitOccurs(a: Aligner, data: Bytes, pos: nat)
    requires a.Valid() && pos + a.cb.size <= |data|
    ensures a.Hit(data, pos) ==> a.Occurs(data, pos)
    ensures NoCollisions(a.cb) && a.Occurs(data, pos) ==> a.Hit(data, pos)
  {
    var window := data[pos..pos + a.cb.size];
    if window in a.cb.words && NoCollisions(a.cb) {
      var i :| 0 <= i < |a.cb.words| && a.cb.words[i] == window;
      assert a.cb.words[a.index[RollingHash.Hash(window)]] in a.cb.words;
    }
  }

  lemma {:induction false} LiteralsCover(a: Aligner, data: Bytes, from: nat, to: nat, rest: seq<Chunk>)
    requires from <= to <= |data| && a.cb.size > 0
    requires Covers(rest, data, to)
    ensures Covers(a.Literals(data, from, to) + rest, data, from)
    decreases |data| - from
  {
    if from == to {
      assert [] + rest == rest;
    } else {
      var end := Min(from + a.cb.size, to);
      LiteralsCover(a, data, end, to, rest);
      var all := a.Literals(data, from, to) + rest;
      assert all[1..] == a.Literals(data, end, to) + rest;
    }
  }

  lemma CoversCons(c: Chunk, rest: seq<Chunk>, data: Bytes, from: nat)
    requires from < |data| && c.offset == from && c.size == |c.data| > 0 && from + c.size <= |data|
    requires c.data == data[from..from + c.size] && Covers(rest, data, from + c.size)
    ensures Covers([c] + rest, data, from)
  {
    assert ([c] + rest)[1..] == rest;
  }

  lemma ChunksHere(a: Aligner, data: Bytes, from: nat, p: nat)
    requires from <= |data| && a.cb.size > 0 && p == a.NextHit(data, from)
    ensures p == |data| ==> a.ChunksFrom(data, from) == a.Literals(data, from, p)
    ensures p < |data| ==>
              a.ChunksFrom(data, from) ==
              a.Literals(data, from, p) + ([Cut(a.sum64, data, p, p + a.cb.size)] + a.ChunksFrom(data, p + a.cb.size))
  {
  }

  lemma NothingCovers(data: Bytes)
    ensures Covers([], data, |data|)
  {
  }

  // The chunks cover the data, each one positive.
  lemma {:induction false} ChunksCover(a: Aligner, data: Bytes, from: nat)
    requires from <= |data| && a.cb.size > 0
    ensures Covers(a.ChunksFrom(data, from), data, from)
    decreases |data| - from
  {
    hide *;
    var p := a.NextHit(data, from);
    ChunksHere(a, data, from, p);
    var lits := a.Literals(data, from, p);
    if p == |data| {
      assert lits + [] == lits;
      NothingCovers(data);
      LiteralsCover(a, data, from, p, []);
    } else {
      ChunksCover(a, data, p + a.cb.size);
      var word, rest := Cut(a.sum64, data, p, p + a.cb.size), a.ChunksFrom(data, p + a.cb.size);
      CutIs(a.sum64, data, p, p + a.cb.size);
      CoversCons(word, rest, data, p);
      LiteralsCover(a, data, from, p, [word] + rest);
    }
  }

  // Literal pieces are a codeword long, but for the last one.
  lemma {:induction false} LiteralPieces(a: Aligner, data: Bytes, from: nat, to: nat, k: nat)
    requires from <= to <= |data| && a.cb.size > 0 && k < |a.Literals(data, from, to)|
    ensures var ls := a.Literals(data, from, to);
            && 0 < ls[k].size <= a.cb.size && (k + 1 < |ls| ==> ls[k].size == a.cb.size) && ls[k].hash == a.sum64(ls[k].data)
    decreases |data| - from
  {
    var end := Min(from + a.cb.size, to);
    if k > 0 { LiteralPieces(a, data, end, to, k - 1); }
  }

  // No chunk is longer than a codeword, and one that is shorter stands right before
  // a codeword or at the end. Each carries the checksum of its own bytes.
  lemma {:induction false} PiecesFull(a: Aligner, data: Bytes, from: nat, i: nat)
    requires a.Valid() && from <= |data| && a.cb.size > 0 && i < |a.ChunksFrom(data, from)|
    ensures var cs := a.ChunksFrom(data, from);
            && 0 < cs[i].size <= a.cb.size && cs[i].hash == a.sum64(cs[i].data)
            && (cs[i].size < a.cb.size ==> i + 1 == |cs| || cs[i + 1].data in a.cb.words)
    decreases |data| - from
  {
    hide *;
    var p := a.NextHit(data, from);
    ChunksHere(a, data, from, p);
    var ls := a.Literals(data, from, p);
    if i < |ls| { LiteralPieces(a, data, from, p, i); }
    if p < |data| {
      HitIsWord(a, data, from, p);
      CutIs(a.sum64, data, p, p + a.cb.size);
      if i > |ls| { PiecesFull(a, data, p + a.cb.size, i - |ls| - 1); }
    }
  }

  lemma CutIs(sum64: Bytes -> u64, data: Bytes, from: nat, to: nat)
    requires from <= to <= |data|
    ensures var c := Cut(sum64, data, from, to);
            c.data == data[from..to] && c.offset == from && c.size == to - from && c.hash == sum64(data[from..to])
  {
  }

  // ----- optimality ---------------------------------------------------------------

  // How many chunks are whole codewords, and the bytes of the others.
  ghost function CodewordChunks(words: seq<Bytes>, chunks: seq<Chunk>): nat {
    if chunks == [] then 0
    else (if chunks[0].data in words then 1 else 0) + CodewordChunks(words, chunks[1..])
  }

  ghost function LiteralBytes(words: seq<Bytes>, chunks: seq<Chunk>): nat {
    if chunks == [] then 0
    else (if chunks[0].data in words then 0 else |chunks[0].data|) + LiteralBytes(words, chunks[1..])
  }

  lemma {:induction false} CodewordChunksAppend(words: seq<Bytes>, a: seq<Chunk>, b: seq<Chunk>)
    ensures CodewordChunks(words, a + b) == CodewordChunks(words, a) + CodewordChunks(words, b)
  {
    if a == [] {
      assert a + b == b;
    } else {
      assert (a + b)[1..] == a[1..] + b;
      CodewordChunksAppend(words, a[1..], b);
    }
  }

  lemma Succ(k: nat, size: nat)
    ensures (k + 1) * size == k * size + size
  {
  }

  // Every byte is in a codeword chunk or is literal.
  lemma {:induction false} BytesCounted(words: seq<Bytes>, size: nat, chunks: seq<Chunk>, data: Bytes, from: nat)
    requires forall w :: w in words ==> |w| == size
    requires from <= |data| && Covers(chunks, data, from)
    ensures LiteralBytes(words, chunks) + CodewordChunks(words, chunks) * size == |data| - from
  {
    if from < |data| {
      BytesCounted(words, size, chunks[1..], data, from + chunks[0].size);
      Succ(CodewordChunks(words, chunks[1..]), size);
    }
  }

  lemma {:induction false} LeastElement(s: set<nat>) returns (m: nat)
    requires s != {}
    ensures m in s && forall x :: x in s ==> m <= x
  {
    m :| m in s;
    var rest := s - {m};
    if rest == {} {
      assert s == {m};
    } else {
      var n := LeastElement(rest);
      assert forall x :: x in s ==> x == m || x in rest;
      if n < m { m := n; }
    }
  }

  // Positions of codewords in the data at or after from, no two overlapping.
  ghost predicate Disjoint(a: Aligner, data: Bytes, from: nat, at: set<nat>) {
    && (forall p :: p in at ==> from <= p && a.Occurs(data, p))
    && (forall p, q :: p in at && q in at && p < q ==> p + a.cb.size <= q)
  }

  // The leftmost hit is no later than the first of them and disturbs no other.
  lemma FirstHit(a: Aligner, data: Bytes, from: nat, at: set<nat>) returns (first: nat)
    requires a.Valid() && NoCollisions(a.cb) && from <= |data|
    requires Disjoint(a, data, from, at) && at != {}
    ensures first in at
    ensures var p := a.NextHit(data, from);
            p + a.cb.size <= |data| && Disjoint(a, data, p + a.cb.size, at - {first})
    ensures |at| == 1 + |at - {first}|
  {
    hide *;
    first := LeastElement(at);
    Member(a, data, from, at, first);
    HitOccurs(a, data, first);
    NextHitIsFirst(a, data, from, first);
    DropFirst(a, data, from, at, first, a.NextHit(data, from) + a.cb.size);
  }

  lemma Member(a: Aligner, data: Bytes, from: nat, at: set<nat>, p: nat)
    requires a.Valid() && Disjoint(a, data, from, at) && p in at
    ensures from <= p && p + a.cb.size <= |data| && a.Occurs(data, p) && a.cb.size > 0
  {
  }

  lemma DropFirst(a: Aligner, data: Bytes, from: nat, at: set<nat>, first: nat, next: nat)
    requires Disjoint(a, data, from, at) && first in at && next <= first + a.cb.size
    requires forall q :: q in at ==> first <= q
    ensures Disjoint(a, data, next, at - {first}) && |at| == 1 + |at - {first}|
  {
    forall q | q in at - {first}
      ensures next <= q
    {
      assert q in at && first < q;
    }
  }

  // How many codewords the scan finds from a position on.
  ghost function Found(a: Aligner, data: Bytes, from: nat): nat
    requires from <= |data| && a.cb.size > 0
    decreases |data| - from
  {
    var p := a.NextHit(data, from);
    if p == |data| then 0 else 1 + Found(a, data, p + a.cb.size)
  }

  lemma FoundHere(a: Aligner, data: Bytes, from: nat, p: nat)
    requires from <= |data| && a.cb.size > 0 && p == a.NextHit(data, from)
    ensures Found(a, data, from) == if p == |data| then 0 else 1 + Found(a, data, p + a.cb.size)
  {
  }

  // Greedy stays ahead of any other choice of disjoint occurrences.
  lemma {:induction false} GreedyStaysAhead(a: Aligner, data: Bytes, from: nat, at: set<nat>)
    requires a.Valid() && NoCollisions(a.cb) && from <= |data| && a.cb.size > 0
    requires Disjoint(a, data, from, at)
    ensures |at| <= Found(a, data, from)
    decreases |data| - from
  {
    hide *;
    if at != {} {
      var p := a.NextHit(data, from);
      var first := FirstHit(a, data, from, at);
      FoundHere(a, data, from, p);
      GreedyStaysAhead(a, data, p + a.cb.size, at - {first});
    }
  }

  // Each codeword found is a chunk.
  lemma {:induction false} FoundAreChunks(a: Aligner, data: Bytes, from: nat)
    requires a.Valid() && from <= |data| && a.cb.size > 0
    ensures Found(a, data, from) <= CodewordChunks(a.cb.words, a.ChunksFrom(data, from))
    decreases |data| - from
  {
    hide *;
    var p := a.NextHit(data, from);
    FoundHere(a, data, from, p);
    if p < |data| {
      ChunksHere(a, data, from, p);
      FoundAreChunks(a, data, p + a.cb.size);
      var word, rest := Cut(a.sum64, data, p, p + a.cb.size), a.ChunksFrom(data, p + a.cb.size);
      HitIsWord(a, data, from, p);
      CodewordChunksCons(a.cb.words, word, rest);
      CodewordChunksAppend(a.cb.words, a.Literals(data, from, p), [word] + rest);
    }
  }

  lemma HitIsWord(a: Aligner, data: Bytes, from: nat, p: nat)
    requires a.Valid() && from <= |data| && a.cb.size > 0 && p == a.NextHit(data, from) < |data|
    ensures Cut(a.sum64, data, p, p + a.cb.size).data in a.cb.words
  {
    NextHitIsFirst(a, data, from, p);
    HitOccurs(a, data, p);
  }

  lemma CodewordChunksCons(words: seq<Bytes>, c: Chunk, rest: seq<Chunk>)
    ensures CodewordChunks(words, [c] + rest) == (if c.data in words then 1 else 0) + CodewordChunks(words, rest)
  {
    assert ([c] + rest)[1..] == rest;
  }

  // The chunks of data concatenate to it, hold at least as many codewords as
  // there are disjoint occurrences to be had, and so leave the fewest literal
  // bytes: an insertion costs only the bytes around it.
  lemma SplitIsOptimal(a: Aligner, data: Bytes, at: set<nat>)
    requires a.Valid() && NoCollisions(a.cb) && Disjoint(a, data, 0, at)
    ensures Reassemble(a.ChunksFrom(data, 0)) == data
    ensures |at| <= CodewordChunks(a.cb.words, a.ChunksFrom(data, 0))
    ensures LiteralBytes(a.cb.words, a.ChunksFrom(data, 0)) <= |data| - |at| * a.cb.size
  {
    WordSizes(a);
    hide *;
    var chunks := a.ChunksFrom(data, 0);
    ChunksCover(a, data, 0);
    CoversReassemble(chunks, data, 0);
    assert data[0..] == data;
    GreedyStaysAhead(a, data, 0, at);
    FoundAreChunks(a, data, 0);
    BytesCounted(a.cb.words, a.cb.size, chunks, data, 0);
    MulMonotone(|at|, CodewordChunks(a.cb.words, chunks), a.cb.size);
  }

  lemma WordSizes(a: Aligner)
    requires a.Valid()
    ensures a.cb.size > 0 && forall w :: w in a.cb.words ==> |w| == a.cb.size
  {
  }

  lemma MulMonotone(k: nat, n: nat, size: nat)
    requires k <= n
    ensures k * size <= n * size
  {
    assert n * size == k * size + (n - k) * size;
  }

  // ----- an insertion is local ----------------------------------------------------

  // Where the codeword chunks start.
  ghost function Starts(words: seq<Bytes>, chunks: seq<Chunk>): set<nat> {
    if chunks == [] then {}
    else (if chunks[0].data in words then {chunks[0].offset} else {}) + Starts(words, chunks[1..])
  }

  lemma DisjointCons(a: Aligner, data: Bytes, from: nat, next: nat, rest: set<nat>)
    requires Disjoint(a, data, next, rest) && from < next
    ensures Disjoint(a, data, from, rest)
    ensures a.Occurs(data, from) && from + a.cb.size <= next ==>
              Disjoint(a, data, from, {from} + rest) && |{from} + rest| == 1 + |rest|
  {
    assert from !in rest;
  }

  lemma StartsHere(a: Aligner, chunks: seq<Chunk>, data: Bytes, from: nat)
    requires forall w :: w in a.cb.words ==> |w| == a.cb.size
    requires from < |data| && Covers(chunks, data, from)
    ensures chunks != [] && from < from + chunks[0].size <= |data| && Covers(chunks[1..], data, from + chunks[0].size)
    ensures var words, rest := a.cb.words, chunks[1..];
            if chunks[0].data in words then
              && a.Occurs(data, from) && chunks[0].size == a.cb.size
              && Starts(words, chunks) == {from} + Starts(words, rest)
              && CodewordChunks(words, chunks) == 1 + CodewordChunks(words, rest)
            else
              Starts(words, chunks) == Starts(words, rest) && CodewordChunks(words, chunks) == CodewordChunks(words, rest)
  {
    assert {} + Starts(a.cb.words, chunks[1..]) == Starts(a.cb.words, chunks[1..]);
  }

  // The codeword chunks of a cover are disjoint occurrences.
  lemma {:induction false} StartsAreDisjoint(a: Aligner, chunks: seq<Chunk>, data: Bytes, from: nat)
    requires forall w :: w in a.cb.words ==> |w| == a.cb.size
    requires from <= |data| && Covers(chunks, data, from)
    ensures Disjoint(a, data, from, Starts(a.cb.words, chunks))
    ensures |Starts(a.cb.words, chunks)| == CodewordChunks(a.cb.words, chunks)
  {
    if from >= |data| {
      assert Covers(chunks, data, from) ==> chunks == [];
    } else {
      var next, rest := from + chunks[0].size, chunks[1..];
      StartsHere(a, chunks, data, from);
      hide *;
      StartsAreDisjoint(a, rest, data, next);
      DisjointCons(a, data, from, next, Starts(a.cb.words, rest));
    }
  }

  ghost function Below(at: set<nat>, limit: int): set<nat> {
    set p | p in at && p <= limit
  }

  ghost function Above(at: set<nat>, limit: int): set<nat> {
    set p | p in at && p >= limit
  }

  // The positions moved by gap; all positions are below top.
  ghost function Shifted(at: set<nat>, gap: nat, top: nat): set<nat> {
    set x: nat | x < top + gap && Back(x, gap) in at
  }

  ghost function Back(x: nat, gap: nat): int { x - gap }

  lemma {:induction false} ShiftedSize(at: set<nat>, gap: nat, top: nat)
    requires forall p :: p in at ==> p < top
    ensures |Shifted(at, gap, top)| == |at|
  {
    if at == {} {
      assert Shifted(at, gap, top) == {};
    } else {
      var p :| p in at;
      ShiftedSize(at - {p}, gap, top);
      assert Shifted(at, gap, top) == Shifted(at - {p}, gap, top) + {p + gap};
    }
  }

  // The occurrences of x + y that do not span the seam, as occurrences of
  // x + inserted + y.
  ghost function Moved(at: set<nat>, size: nat, seam: nat, gap: nat, top: nat): set<nat> {
    Below(at, seam - size) + Shifted(Above(at, seam), gap, top)
  }

  // Disjoint windows can span the seam at most once.
  lemma SeamOnce(at: set<nat>, size: nat, seam: nat)
    requires size > 0
    requires forall p, q :: p in at && q in at && p < q ==> p + size <= q
    ensures |Below(at, seam - size)| + |Above(at, seam)| >= |at| - 1
  {
    var across := Across(at, size, seam);
    Partition(at, size, seam);
    AtMostOne(at, size, seam);
    hide *;
    ThreeParts(at, Below(at, seam - size), Above(at, seam), across);
  }

  ghost function Across(at: set<nat>, size: nat, seam: nat): set<nat> {
    set p | p in at && seam - size < p < seam
  }

  lemma AtMostOne(at: set<nat>, size: nat, seam: nat)
    requires forall p, q :: p in at && q in at && p < q ==> p + size <= q
    ensures |Across(at, size, seam)| <= 1
  {
    var across := Across(at, size, seam);
    if across != {} {
      var p :| p in across;
      forall q | q in across
        ensures q == p
      {
        assert q in at && p in at;
      }
      assert across == {p};
    }
  }

  lemma Partition(at: set<nat>, size: nat, seam: nat)
    requires size > 0
    ensures Below(at, seam - size) !! Above(at, seam) !! Across(at, size, seam)
    ensures at == Below(at, seam - size) + Above(at, seam) + Across(at, size, seam)
  {
  }

  lemma ThreeParts(at: set<nat>, a: set<nat>, b: set<nat>, c: set<nat>)
    requires a !! b !! c && at == a + b + c
    ensures |at| == |a| + |b| + |c|
  {
    assert |a + b| == |a| + |b|;
  }

  lemma MovedSize(at: set<nat>, size: nat, seam: nat, gap: nat, top: nat)
    requires size > 0 && forall p :: p in at ==> p < top
    requires forall p, q :: p in at && q in at && p < q ==> p + size <= q
    ensures |Moved(at, size, seam, gap, top)| >= |at| - 1
  {
    SeamOnce(at, size, seam);
    ShiftedSize(Above(at, seam), gap, top);
    assert Below(at, seam - size) !! Shifted(Above(at, seam), gap, top);
  }

  lemma MovedOccurs(a: Aligner, x: Bytes, y: Bytes, inserted: Bytes, p: nat)
    requires a.Occurs(x + y, p)
    ensures p + a.cb.size <= |x| ==> a.Occurs(x + inserted + y, p)
    ensures p >= |x| ==> a.Occurs(x + inserted + y, p + |inserted|)
  {
    var size := a.cb.size;
    if p + size <= |x| {
      assert (x + inserted + y)[p..p + size] == (x + y)[p..p + size];
    }
    if p >= |x| {
      assert (x + inserted + y)[p + |inserted|..p + |inserted| + size] == (x + y)[p..p + size];
    }
  }

  lemma MovedDisjoint(a: Aligner, x: Bytes, y: Bytes, inserted: Bytes, at: set<nat>)
    requires Disjoint(a, x + y, 0, at)
    ensures Disjoint(a, x + inserted + y, 0, Moved(at, a.cb.size, |x|, |inserted|, |x + y|))
  {
    hide Aligner.Occurs;
    forall p | p in Moved(at, a.cb.size, |x|, |inserted|, |x + y|)
      ensures a.Occurs(x + inserted + y, p)
    {
      MovedOccurs(a, x, y, inserted, if p in Below(at, |x| - a.cb.size) then p else p - |inserted|);
    }
  }

  // Inserting bytes anywhere costs at most those bytes and one codeword more of
  // literals, however much data follows.
  lemma InsertionIsLocal(a: Aligner, x: Bytes, y: Bytes, inserted: Bytes)
    requires a.Valid() && NoCollisions(a.cb)
    ensures LiteralBytes(a.cb.words, a.ChunksFrom(x + inserted + y, 0)) <=
            LiteralBytes(a.cb.words, a.ChunksFrom(x + y, 0)) + |inserted| + a.cb.size
  {
    WordSizes(a);
    hide *;
    var chunks, size := a.ChunksFrom(x + y, 0), a.cb.size;
    var at := Starts(a.cb.words, chunks);
    ChunksCover(a, x + y, 0);
    StartsAreDisjoint(a, chunks, x + y, 0);
    BytesCounted(a.cb.words, size, chunks, x + y, 0);
    Gaps(a, x + y, at);
    MovedSize(at, size, |x|, |inserted|, |x + y|);
    MovedDisjoint(a, x, y, inserted, at);
    var moved := Moved(at, size, |x|, |inserted|, |x + y|);
    SplitIsOptimal(a, x + inserted + y, moved);
    MulMonotone(|at|, |moved| + 1, size);
    Succ(|moved|, size);
  }

  lemma Gaps(a: Aligner, data: Bytes, at: set<nat>)
    requires a.cb.size > 0 && Disjoint(a, data, 0, at)
    ensures forall p :: p in at ==> p < |data|
    ensures forall p, q :: p in at && q in at && p < q ==> p + a.cb.size <= q
  {
  }

  // ----- the chunker ----------------------------------------------------------------

  class AlignedChunker {
    const cb: Codebook
    const sum64: Bytes -> u64
    var topMult: u64
    var windows: map<u64, nat>

    ghost predicate Valid()
      reads this
    {
      Model().Valid() && topMult == RollingHash.Power(cb.size - 1) % TWO_TO_64
    }

    ghost function Model(): Aligner
      reads this
    {
      Aligner(cb, windows, sum64)
    }

    constructor (cb: Codebook, sum64: Bytes -> u64)
      requires cb.Valid()
      ensures Valid() && Model() == Aligner(cb, Windows(cb, |cb.words|), sum64)
    {
      this.cb, this.sum64 := cb, sum64;
      topMult, windows := 1, map[];
      new;
      for i := 1 to cb.size
        invariant topMult == RollingHash.Power(i - 1) % TWO_TO_64
        invariant windows == map[]
      {
        Modular.ModMul(RollingHash.Power(i - 1), RollingHash.PRIME, TWO_TO_64);
        topMult := Mul64(topMult, RollingHash.PRIME);
      }
      for id := 0 to |cb.words|
        invariant topMult == RollingHash.Power(cb.size - 1) % TWO_TO_64
        invariant windows == Windows(cb, id)
      {
        windows := windows[RollingHash.Hash(cb.words[id]) := id];
      }
      WindowsContent(cb, |cb.words|);
    }

    method EmitLiteral(chunks: seq<Chunk>, data: Bytes, from: nat, to: nat) returns (r: seq<Chunk>)
      requires Valid() && from <= to <= |data|
      ensures r == chunks + Model().Literals(data, from, to)
    {
      r := chunks;
      var at := from;
      while at < to
        invariant from <= at <= to
        invariant r + Model().Literals(data, at, to) == chunks + Model().Literals(data, from, to)
      {
        var end := at + cb.size;
        if end > to { end := to; }
        ghost var rest := Model().Literals(data, end, to);
        assert r + ([Cut(sum64, data, at, end)] + rest) == r + [Cut(sum64, data, at, end)] + rest;
        r := r + [Cut(sum64, data, at, end)];
        at := end;
      }
      assert r + [] == r;
    }

    // h = (h - data[pos]*topMult)*rollingPrime + data[pos+size]
    method Advance(data: Bytes, pos: nat, h: u64) returns (next: u64)
      requires Valid() && pos + cb.size < |data|
      requires h == RollingHash.Hash(data[pos..pos + cb.size])
      ensures next == RollingHash.Hash(data[pos + 1..pos + 1 + cb.size])
    {
      ghost var window := data[pos..pos + cb.size];
      RollingHash.Roll(window, data[pos + cb.size], topMult);
      assert window[1..] + [data[pos + cb.size]] == data[pos + 1..pos + 1 + cb.size];
      next := RollingHash.Rolled(h, topMult, data[pos], data[pos + cb.size]);
    }

    // The inner loop of Split: slides the window from start to the next hit. The
    // hash it carries is at every turn the hash of the current window.
    method Slide(data: Bytes, start: nat) returns (found: bool, pos: nat)
      requires Valid() && start + cb.size <= |data|
      ensures found <==> Model().NextHit(data, start) < |data|
      ensures found ==> pos == Model().NextHit(data, start)
    {
      hide RollingHash.Hash, Aligner.NextHit, Aligner.Valid, Codebook.Valid;
      WordSizes(Model());
      pos := start;
      var h := RollingHash.Hash(data[pos..pos + cb.size]);
      while true
        invariant start <= pos && pos + cb.size <= |data|
        invariant h == RollingHash.Hash(data[pos..pos + cb.size])
        invariant Model().NextHit(data, start) == Model().NextHit(data, pos)
        decreases |data| - pos
      {
        SlideStep(Model(), data, pos, h);
        if h in windows && cb.words[windows[h]] == data[pos..pos + cb.size] {
          return true, pos;
        }
        if pos + cb.size >= |data| {
          return false, pos;
        }
        h := Advance(data, pos, h);
        pos := pos + 1;
      }
    }

    method Split(data: Bytes) returns (chunks: seq<Chunk>)
      requires Valid()
      ensures chunks == Model().ChunksFrom(data, 0)
    {
      hide Aligner.ChunksFrom, Aligner.NextHit, Aligner.Literals;
      chunks := [];
      assert [] + Model().ChunksFrom(data, 0) == Model().ChunksFrom(data, 0);
      var literalStart, pos := 0, 0;
      while pos + cb.size <= |data|
        invariant literalStart == pos <= |data|
        invariant chunks + Model().ChunksFrom(data, pos) == Model().ChunksFrom(data, 0)
        decreases |data| - pos
      {
        var found;
        found, pos := Slide(data, pos);
        ChunksHere(Model(), data, literalStart, Model().NextHit(data, literalStart));
        if !found {
          chunks := EmitLiteral(chunks, data, literalStart, |data|);
          return;
        }
        chunks := EmitWord(chunks, data, literalStart, pos);
        pos := pos + cb.size;
        literalStart := pos;
      }
      NoRoom(Model(), data, pos);
      chunks := EmitLiteral(chunks, data, literalStart, |data|);
    }

    // The literals before a hit and the hit.
    method EmitWord(chunks: seq<Chunk>, data: Bytes, from: nat, pos: nat) returns (r: seq<Chunk>)
      requires Valid() && cb.size > 0 && from <= |data| && pos == Model().NextHit(data, from) < |data|
      ensures r + Model().ChunksFrom(data, pos + cb.size) == chunks + Model().ChunksFrom(data, from)
    {
      hide Aligner.ChunksFrom, Aligner.NextHit, Aligner.Literals, Aligner.Valid, Codebook.Valid;
      ChunksHere(Model(), data, from, pos);
      r := EmitLiteral(chunks, data, from, pos);
      r := r + [Cut(sum64, data, pos, pos + cb.size)];
      var literals, hit, rest := Model().Literals(data, from, pos), [Cut(sum64, data, pos, pos + cb.size)], Model().ChunksFrom(data, pos + cb.size);
      Regroup(chunks, literals, hit + rest);
      Regroup(chunks + literals, hit, rest);
    }
  }

  // The window at pos with hash h is a hit or is passed over.
  lemma SlideStep(a: Aligner, data: Bytes, pos: nat, h: u64)
    requires a.Valid() && pos + a.cb.size <= |data| && h == RollingHash.Hash(data[pos..pos + a.cb.size])
    ensures h in a.index ==> a.index[h] < |a.cb.words|
    ensures a.NextHit(data, pos) ==
            if h in a.index && a.cb.words[a.index[h]] == data[pos..pos + a.cb.size] then pos
            else if pos + a.cb.size >= |data| then |data|
            else a.NextHit(data, pos + 1)
  {
  }

  lemma NoRoom(a: Aligner, data: Bytes, pos: nat)
    requires pos <= |data| < pos + a.cb.size
    ensures a.ChunksFrom(data, pos) == a.Literals(data, pos, |data|)
  {
  }
}
