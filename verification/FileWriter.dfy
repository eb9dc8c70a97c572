// Pack and PackStream around their worker pools.
module FileWriter {
  import opened Common
  import opened Tooling
  import opened Headers
  import opened Chunks
  import opened ChunkTable
  import opened Codebooks
  import opened Blocks
  import opened Container
  import opened Packing
  import opened Writing
  import opened ChunkWorkers
  import Coding
  import Restoring
  import Unpacker

  // What stays fixed while a file is written.
  datatype Job = Job(tools: Tools, mode: Mode, s: Searcher, split: Splitter, ev: (nat, nat) -> Evidence,
                     key: Option<Bytes>, nonces: nat -> Bytes, concurrency: nat)
  {
    ghost predicate Valid() {
      && tools.Valid() && s.Valid() && Covering(split) && concurrency >= 1
      && forall k, j :: s.Possible(ev(k, j))
    }

    function Dictionary(): Bytes { if s.brain.Some? then s.brain.value.dictionary else [] }

    // The decisions for the chunks of block k.
    function InBlock(k: nat): nat -> Evidence { (j: nat) => ev(k, j) }
  }

  lemma JobValid(job: Job, k: nat)
    requires job.Valid()
    ensures job.tools.Valid() && job.s.Valid() && Covering(job.split) && job.concurrency >= 1 && Possible(job.s, job.InBlock(k))
  {
  }

  // Piece by piece, the block is an outcome of the chunk decisions.
  ghost predicate CodedAs(job: Job, chunks: seq<Chunk>, k: nat, ps: seq<Piece>)
    requires job.Valid()
  {
    && |ps| == |chunks|
    && forall j :: 0 <= j < |ps| ==>
         0 < |chunks[j].data| < TWO_TO_32 && Outcome(job.mode, job.s, chunks[j].data, job.ev(k, j), Ok(ps[j]))
  }

  lemma CodedAsFaithful(job: Job, chunks: seq<Chunk>, k: nat, ps: seq<Piece>)
    requires job.Valid() && CodedAs(job, chunks, k, ps)
    ensures CodedBlock(job.s.brain, chunks, ps)
  {
    forall j | 0 <= j < |ps|
      ensures Coding.Faithful(job.s.brain, chunks[j].data, ps[j])
    {
      OutcomeFaithful(job.mode, job.s, chunks[j].data, job.ev(k, j), ps[j]);
    }
  }

  ghost predicate BlockPacked(job: Job, input: Bytes, k: nat, ps: seq<Piece>, frame: Bytes)
    requires job.Valid()
  {
    && CodedAs(job, job.split(BlockOf(input, k)), k, ps)
    && frame == Frame(job.tools, job.key, job.nonces(k), job.Dictionary(), Pool(ps, |ps|))
  }

  // How a block of the input is packed.
  ghost function InJob(job: Job, input: Bytes): (nat, seq<Piece>, Bytes) -> bool
    requires job.Valid()
  {
    (k: nat, ps: seq<Piece>, frame: Bytes) => BlockPacked(job, input, k, ps, frame)
  }

  // The search never fails on a brain that has words.
  ghost predicate SearchSucceeds(job: Job) {
    forall k, j :: job.ev(k, j).best.Some?
  }

  lemma ChunkSizes(split: Splitter, data: Bytes)
    requires Covering(split) && |data| <= BLOCK_SIZE
    ensures Codable(split(data))
  {
    assert Covers(split(data), data, 0);
    forall j | 0 <= j < |split(data)|
      ensures 0 < |split(data)[j].data| < TWO_TO_32
    {
      CoversAt(split(data), data, 0, j);
    }
  }

  // Checks the results in order; the first failed chunk fails the file.
  method Collect(job: Job, chunks: seq<Chunk>, k: nat, results: seq<Option<Result<Piece>>>) returns (r: Result<seq<Piece>>)
    requires job.Valid() && Codable(chunks) && Possible(job.s, job.InBlock(k)) && |results| == |chunks|
    requires forall j :: 0 <= j < |chunks| ==> SlotDone(job.mode, job.s, chunks, job.InBlock(k), j, results[j])
    ensures r.Ok? ==> CodedAs(job, chunks, k, r.value)
    ensures SearchSucceeds(job) ==> r.Ok?
  {
    hide Outcome, Tools.Valid, Covering, Searcher.Valid;
    var ps: seq<Piece> := [];
    for j := 0 to |results|
      invariant |ps| == j
      invariant forall i :: 0 <= i < j ==>
                  0 < |chunks[i].data| < TWO_TO_32 && Outcome(job.mode, job.s, chunks[i].data, job.ev(k, i), Ok(ps[i]))
    {
      assert SlotDone(job.mode, job.s, chunks, job.InBlock(k), j, results[j]);
      if results[j].value.Err? {
        ghost var r0 := results[j].value;
        OutcomeFails(job.mode, job.s, chunks[j].data, job.ev(k, j), r0);
        return Err(results[j].value.error);
      }
      ps := ps + [results[j].value.value];
    }
    return Ok(ps);
  }

  // One turn of the block loop: split, run the workers, gather, compress, encrypt.
  method PackNext(job: Job, input: Bytes, before: seq<ChunkEntry>, offset0: u64, blocks0: seq<Bytes>, ghost bs0: seq<seq<Piece>>, k: nat)
    returns (r: Result<(seq<ChunkEntry>, u64, seq<Bytes>)>, ghost bs: seq<seq<Piece>>)
    requires job.Valid() && |bs0| == k < BlockCount(|input|)
    requires Laid(bs0, before, offset0) && EachPacked(InJob(job, input), bs0, blocks0)
    ensures SearchSucceeds(job) ==> r.Ok?
    ensures r.Ok? ==> |bs| == k + 1 && Laid(bs, r.value.0, r.value.1) && EachPacked(InJob(job, input), bs, r.value.2)
  {
    hide *;
    bs := bs0;
    JobValid(job, k);
    BlockBounds(input, k);
    ChunkSizes(job.split, BlockOf(input, k));
    LaidParts(bs0, before, offset0);
    var chunks := job.split(BlockOf(input, k));
    var results := RunWorkers(job.mode, job.s, chunks, job.InBlock(k), job.concurrency);
    var collected := Collect(job, chunks, k, results);
    if collected.Err? {
      return Err(collected.error), bs;
    }
    var ps := collected.value;
    var entries, pool, offset := GatherBlock(ps, before, offset0, Base(bs0, |bs0|));
    LayStep(bs0, ps, before, offset0, entries, pool, offset);
    var frame := Frame(job.tools, job.key, job.nonces(k), job.Dictionary(), pool);
    HereIs(job, input, k, ps, frame);
    OneMorePacked(InJob(job, input), bs0, blocks0, ps, frame);
    r, bs := Ok((entries, offset, blocks0 + [frame])), bs0 + [ps];
  }

  lemma HereIs(job: Job, input: Bytes, k: nat, ps: seq<Piece>, frame: Bytes)
    requires job.Valid()
    ensures InJob(job, input)(k, ps, frame) <==>
              && CodedAs(job, job.split(BlockOf(input, k)), k, ps)
              && frame == Frame(job.tools, job.key, job.nonces(k), job.Dictionary(), Pool(ps, |ps|))
  {
    hide Job.Valid, CodedAs, Frame, Pool, Job.Dictionary;
  }

  // The block loop of Pack and PackStream.
  method PackBlocks(job: Job, input: Bytes) returns (r: Result<(seq<ChunkEntry>, seq<Bytes>)>, ghost bs: seq<seq<Piece>>)
    requires job.Valid()
    ensures SearchSucceeds(job) ==> r.Ok?
    ensures r.Ok? ==> |bs| == BlockCount(|input|) && r.value.0 == Entries(bs, |bs|) && EachPacked(InJob(job, input), bs, r.value.1)
  {
    hide *;
    var offset: u64, k := 0, 0;
    var entries: seq<ChunkEntry>, blocks: seq<Bytes> := [], [];
    bs := [];
    LayStart();
    NothingPacked(InJob(job, input));
    CountBlocks(|input|, 0);
    while k * BLOCK_SIZE < |input|
      invariant |bs| == k && (k == 0 || k - 1 < BlockCount(|input|)) && Laid(bs, entries, offset)
      invariant EachPacked(InJob(job, input), bs, blocks)
      decreases |input| - k * BLOCK_SIZE
    {
      CountBlocks(|input|, k);
      Advances(k);
      var next;
      next, bs := PackNext(job, input, entries, offset, blocks, bs, k);
      if next.Err? {
        return Err(next.error), bs;
      }
      entries, offset, blocks := next.value.0, next.value.1, next.value.2;
      k := k + 1;
    }
    LaidParts(bs, entries, offset);
    AllCounted(|input|, k);
    r := Ok((entries, blocks));
  }

  // Packed blocks are coded and framed ones.
  lemma PackedCoded(job: Job, input: Bytes, bs: seq<seq<Piece>>, frames: seq<Bytes>)
    requires job.Valid() && EachPacked(InJob(job, input), bs, frames)
    ensures CodedBlocks(job.s.brain, job.split, input, bs)
    ensures FramesWritten(job.tools, job.key, job.nonces, job.Dictionary(), bs, frames)
  {
    hide Job.Valid, InJob, CodedBlock, CodedAs, Frame, Pool, Job.Dictionary;
    forall k | 0 <= k < |bs|
      ensures CodedBlock(job.s.brain, job.split(BlockOf(input, k)), bs[k])
      ensures frames[k] == Frame(job.tools, job.key, job.nonces(k), job.Dictionary(), Pool(bs[k], |bs[k]|))
    {
      HereIs(job, input, k, bs[k], frames[k]);
      CodedAsFaithful(job, job.split(BlockOf(input, k)), k, bs[k]);
    }
  }

  lemma PackedArchive(job: Job, password: Bytes, input: Bytes, h: Header, nonce: Bytes, bs: seq<seq<Piece>>, frames: seq<Bytes>)
    requires job.Valid() && 0 < |input| < TWO_TO_63 && |bs| == BlockCount(|input|) && EachPacked(InJob(job, input), bs, frames)
    requires h.Valid() && 5 <= h.version <= 8 && h.compressedTable && !h.isPassthrough && !h.isLossy
    requires h.originalSize == |input| && h.originalHash == job.tools.sha256(input) && h.usesBrainDict == job.s.brain.Some?
    requires KeyFor(job.tools, h, password) == Ok(job.key)
    requires FitsFormat(job.tools, job.key, nonce, bs) && h.chunkCount == Start(bs, |bs|)
    ensures Archive(job.tools, job.s.brain, password, FileBytes(job.tools, job.key, nonce, h, Entries(bs, |bs|), frames), input, h, bs, frames)
  {
    hide *;
    JobValid(job, 0);
    PackedCoded(job, input, bs, frames);
    DictionaryIs(job);
    LaidOut(job.tools, job.s.brain, job.split, password, input, h, nonce, job.nonces, bs, frames);
  }

  lemma DictionaryIs(job: Job)
    ensures job.Dictionary() == if job.s.brain.Some? then job.s.brain.value.dictionary else []
  {
  }

  // ----- files stored whole ------------------------------------------------------------------

  // A header without chunks and the input behind it, encrypted if there is a key.
  ghost predicate StoredWhole(tools: Tools, password: Bytes, bytes: Bytes, input: Bytes, h: Header) {
    && tools.Valid() && h.Valid() && 5 <= h.version <= 8 && h.chunkCount == 0 && h.originalHash == tools.sha256(input)
    && KeyFor(tools, h, password).Ok?
    && exists nonce: Bytes :: bytes == Serialized(h) + Payload(tools, KeyFor(tools, h, password).value, nonce, input)
  }

  function Payload(tools: Tools, key: Option<Bytes>, nonce: Bytes, input: Bytes): Bytes {
    if key.Some? then tools.encrypt(key.value, nonce, input) else input
  }

  lemma ReadStored(tools: Tools, password: Bytes, h: Header, payload: Bytes)
    requires h.Valid() && 5 <= h.version <= 8 && h.chunkCount == 0 && KeyFor(tools, h, password).Ok?
    ensures ReadMetadata(tools, Serialized(h) + payload, password) ==
            Ok(Metadata(Kept(h), KeyFor(tools, h, password).value, [], [], 0, payload))
  {
    HeaderReadBack(h, payload);
    KeptFields(h);
    KeptKey(tools, h, password);
    hide Serialized, Kept, ReadHeader, KeyFor, Header.Valid;
  }

  lemma StoredRestored(tools: Tools, brain: Option<Codebook>, password: Bytes, strict: bool, bytes: Bytes, input: Bytes, h: Header)
    requires StoredWhole(tools, password, bytes, input, h)
    ensures Unpacker.Unpacked(tools, brain, password, strict, bytes) == Ok((input, 0 as nat))
    ensures brain.Some? ==> Unpacker.UnpackedBytes(tools, brain.value, password, bytes) == Ok(input)
  {
    var key := KeyFor(tools, h, password).value;
    var nonce: Bytes :| bytes == Serialized(h) + Payload(tools, key, nonce, input);
    ReadStored(tools, password, h, Payload(tools, key, nonce, input));
    KeptFields(h);
    FilesAreNotEmpty(tools, password, bytes);
    hide Serialized, Kept, ReadMetadata, KeyFor, Header.Valid;
  }

  // ----- Pack ---------------------------------------------------------------------------------

  // The choices of one run of Pack beside the chunk decisions: the password and
  // its salt, the table nonce, the brain to embed, the hashes stored for
  // identification, and whether the entropy of the file calls for storing it whole.
  datatype Options = Options(password: Bytes, salt: Bytes, tableNonce: Bytes, embed: Option<Bytes>, chunkSize: u32,
                             codebookHash: Bytes, codebookHashes: Bytes, merkleRoot: Bytes, storeWhole: bool)
  {
    ghost predicate Valid() {
      |salt| == 16 && |codebookHash| == 8 && |codebookHashes| == 24 && |merkleRoot| == 32
    }

    function Key(tools: Tools): Option<Bytes> {
      if password == [] then None else Some(tools.deriveKey(password, salt))
    }
  }

  function PackHeader(tools: Tools, o: Options, usesBrain: bool, input: Bytes, count: nat): Header
    requires |input| < TWO_TO_64
  {
    Header(if o.embed.Some? then 8 else 7, o.password != [], false, false, false, usesBrain, true,
           if o.password == [] then Zeros(16) else o.salt, tools.sha256(input), |input|, count % TWO_TO_32, o.chunkSize,
           o.codebookHash, o.codebookHashes, o.merkleRoot,
           if o.embed.Some? then |o.embed.value| % TWO_TO_32 else 0, if o.embed.Some? then o.embed.value else [])
  }

  // The header of a file stored whole: small or incompressible from the start, or
  // packed larger than the input.
  function WholeHeader(tools: Tools, o: Options, usesBrain: bool, input: Bytes, fromStart: bool): Header
    requires |input| < TWO_TO_64
  {
    PackHeader(tools, o.(embed := None), usesBrain && fromStart, input, 0).(
      version := if fromStart then 5 else if o.embed.Some? then 8 else 7, isPassthrough := fromStart, compressedTable := false)
  }

  lemma PackHeaderValid(tools: Tools, o: Options, usesBrain: bool, input: Bytes, count: nat, fromStart: bool)
    requires tools.Valid() && o.Valid() && |input| < TWO_TO_63 && (o.embed.Some? ==> |o.embed.value| <= MAX_MICRO_DICT)
    ensures var h := PackHeader(tools, o, usesBrain, input, count);
            && h.Valid() && 5 <= h.version <= 8 && h.compressedTable && !h.isPassthrough && !h.isLossy && h.usesBrainDict == usesBrain
            && h.originalSize == |input| && h.originalHash == tools.sha256(input) && KeyFor(tools, h, o.password) == Ok(o.Key(tools))
            && (count < TWO_TO_32 ==> h.chunkCount == count)
    ensures var w := WholeHeader(tools, o, usesBrain, input, fromStart);
            && w.Valid() && 5 <= w.version <= 8 && w.chunkCount == 0 && w.originalHash == tools.sha256(input)
            && KeyFor(tools, w, o.password) == Ok(o.Key(tools))
  {
  }

  // What a run of Pack produced.
  datatype Product = Product(h: Header, bs: seq<seq<Piece>>, frames: seq<Bytes>, whole: bool)

  // A file from which every reader restores the input.
  ghost predicate Packed(tools: Tools, brain: Option<Codebook>, password: Bytes, bytes: Bytes, input: Bytes, p: Product) {
    if p.whole then StoredWhole(tools, password, bytes, input, p.h)
    else Archive(tools, brain, password, bytes, input, p.h, p.bs, p.frames)
  }

  // The two writers' main promise, for every input, decision and schedule.
  lemma PackedRestored(tools: Tools, brain: Option<Codebook>, password: Bytes, strict: bool, bytes: Bytes, input: Bytes, p: Product)
    requires Packed(tools, brain, password, bytes, input, p)
    ensures Unpacker.Unpacked(tools, brain, password, strict, bytes) == Ok((input, 0 as nat))
    ensures brain.Some? ==> Unpacker.UnpackedBytes(tools, brain.value, password, bytes) == Ok(input)
  {
    hide Archive, StoredWhole, Unpacker.Unpacked, Unpacker.UnpackedBytes;
    if p.whole {
      StoredRestored(tools, brain, password, strict, bytes, input, p.h);
    } else {
      ArchiveRestored(tools, brain, password, strict, bytes, input, p.h, p.bs, p.frames);
    }
  }

  method StoreWhole(tools: Tools, o: Options, usesBrain: bool, input: Bytes, fromStart: bool) returns (bytes: Bytes, h: Header)
    requires tools.Valid() && o.Valid() && |input| < TWO_TO_63
    ensures h == WholeHeader(tools, o, usesBrain, input, fromStart)
    ensures bytes == Serialized(h) + Payload(tools, o.Key(tools), o.tableNonce, input)
    ensures StoredWhole(tools, o.password, bytes, input, h)
  {
    h := WholeHeader(tools, o, usesBrain, input, fromStart);
    PackHeaderValid(tools, o.(embed := None), usesBrain, input, 0, fromStart);
    bytes := Serialized(h) + Payload(tools, o.Key(tools), o.tableNonce, input);
    WholeValid(tools, o, usesBrain, input, fromStart);
    hide WholeHeader, Serialized, Payload, Tools.Valid, Header.Valid, KeyFor, Options.Key;
  }

  lemma WholeValid(tools: Tools, o: Options, usesBrain: bool, input: Bytes, fromStart: bool)
    requires tools.Valid() && o.Valid() && |input| < TWO_TO_63
    ensures var w := WholeHeader(tools, o, usesBrain, input, fromStart);
            && w.Valid() && 5 <= w.version <= 8 && w.chunkCount == 0 && w.originalHash == tools.sha256(input)
            && KeyFor(tools, w, o.password) == Ok(o.Key(tools))
  {
  }

  // Pack: stored whole if the file is small or looks incompressible, or if the
  // packed form comes out larger; chunked otherwise.
  method Pack(job: Job, o: Options, input: Bytes) returns (r: Result<Bytes>, ghost p: Product)
    requires job.Valid() && job.mode.File? && o.Valid() && |input| < TWO_TO_63 && job.key == o.Key(job.tools)
    ensures SearchSucceeds(job) && (o.embed.Some? ==> |o.embed.value| <= MAX_MICRO_DICT) ==> r.Ok?
    ensures r.Ok? && (o.storeWhole || |input| < 256) ==>
              p.whole && p.h == WholeHeader(job.tools, o, job.s.brain.Some?, input, true)
    ensures r.Ok? && !(o.storeWhole || |input| < 256) ==>
              && |p.bs| == BlockCount(|input|) && EachPacked(InJob(job, input), p.bs, p.frames)
              && var h := PackHeader(job.tools, o, job.s.brain.Some?, input, Start(p.bs, |p.bs|));
                 h.Valid()
                 && var file := FileBytes(job.tools, job.key, o.tableNonce, h, Entries(p.bs, |p.bs|), p.frames);
                    p.whole == (|file| > |input|) && (if p.whole then p.h == WholeHeader(job.tools, o, job.s.brain.Some?, input, false) else p.h == h && r.value == file)
    // With a password nothing can be read without one.
    ensures r.Ok? && o.password != [] ==> forall strict ::
              Unpacker.Unpacked(job.tools, job.s.brain, [], strict, r.value) == Err(NoKey)
    ensures r.Ok? && (p.whole || FitsFormat(job.tools, job.key, o.tableNonce, p.bs)) ==>
              Packed(job.tools, job.s.brain, o.password, r.value, input, p)
  {
    hide *;
    JobValid(job, 0);
    Short(input);
    var usesBrain := job.s.brain.Some?;
    if o.storeWhole || |input| < 256 {
      var bytes, whole := StoreWhole(job.tools, o, usesBrain, input, true);
      p := Product(whole, [], [], true);
      PackedWhole(job, o.password, bytes, input, p);
      if o.password != [] { WholeLocked(job.tools, job.s.brain, o, usesBrain, input, true, bytes); }
      return Ok(bytes), p;
    }
    p := Product(WholeHeader(job.tools, o, usesBrain, input, true), [], [], true);
    var packed; ghost var bs;
    packed, bs := PackBlocks(job, input);
    if packed.Err? {
      return Err(packed.error), p;
    }
    if o.embed.Some? && |o.embed.value| > MAX_MICRO_DICT {
      return Err(BadHeader), p;
    }
    var (entries, blocks) := packed.value;
    PackHeaderValid(job.tools, o, usesBrain, input, |entries|, false);
    var h := PackHeader(job.tools, o, usesBrain, input, |entries|);
    var bytes := FileBytes(job.tools, job.key, o.tableNonce, h, entries, blocks);
    // The smallest header that counts as overhead has 141 bytes, and here the
    // input has at least 256.
    if |bytes| > |input| && |input| > 141 {
      var smaller, whole := StoreWhole(job.tools, o, usesBrain, input, false);
      p := Product(whole, bs, blocks, true);
      PackedWhole(job, o.password, smaller, input, p);
      if o.password != [] { WholeLocked(job.tools, job.s.brain, o, usesBrain, input, false, smaller); }
      return Ok(smaller), p;
    }
    p := Product(h, bs, blocks, false);
    if o.password != [] { FileLocked(job.tools, job.s.brain, o, usesBrain, input, |entries|, job.key, entries, blocks); }
    if FitsFormat(job.tools, job.key, o.tableNonce, bs) {
      FitsWidth(job.tools, job.key, o.tableNonce, bs);
      PackedArchive(job, o.password, input, h, o.tableNonce, bs, blocks);
      PackedChunked(job, o.password, bytes, input, p);
    }
    r := Ok(bytes);
  }

  lemma WholeLocked(tools: Tools, brain: Option<Codebook>, o: Options, usesBrain: bool, input: Bytes, fromStart: bool, bytes: Bytes)
    requires tools.Valid() && o.Valid() && |input| < TWO_TO_63 && o.password != []
    requires bytes == Serialized(WholeHeader(tools, o, usesBrain, input, fromStart)) + Payload(tools, o.Key(tools), o.tableNonce, input)
    ensures forall strict :: Unpacker.Unpacked(tools, brain, [], strict, bytes) == Err(NoKey)
  {
    WholeValid(tools, o, usesBrain, input, fromStart);
    NoKeyNoFile(tools, WholeHeader(tools, o, usesBrain, input, fromStart), Payload(tools, o.Key(tools), o.tableNonce, input));
    hide Serialized, Payload, ReadMetadata, Tools.Valid, Options.Key;
  }

  lemma FileLocked(tools: Tools, brain: Option<Codebook>, o: Options, usesBrain: bool, input: Bytes, count: nat, key: Option<Bytes>,
                   es: seq<ChunkEntry>, frames: seq<Bytes>)
    requires tools.Valid() && o.Valid() && |input| < TWO_TO_63 && o.password != [] && (o.embed.Some? ==> |o.embed.value| <= MAX_MICRO_DICT)
    requires PackHeader(tools, o, usesBrain, input, count).Valid()
    ensures var file := FileBytes(tools, key, o.tableNonce, PackHeader(tools, o, usesBrain, input, count), es, frames);
            forall strict :: Unpacker.Unpacked(tools, brain, [], strict, file) == Err(NoKey)
  {
    var h := PackHeader(tools, o, usesBrain, input, count);
    FileIs(tools, key, o.tableNonce, h, es, frames);
    NoKeyNoFile(tools, h, SizesBytes(Lengths(frames), 0) + (TableBytes(tools, key, o.tableNonce, es) + Concat(frames, 0)));
    hide Serialized, SizesBytes, TableBytes, Concat, FileBytes, ReadMetadata, Tools.Valid, Lengths;
  }

  // What a header says, field by field.
  lemma PackHeaderSays(tools: Tools, o: Options, usesBrain: bool, input: Bytes, count: nat, fromStart: bool)
    requires |input| < TWO_TO_64
    ensures var h := PackHeader(tools, o, usesBrain, input, count);
            && h.version == (if o.embed.Some? then 8 else 7) && !h.isPassthrough && !h.isLossy && !h.isConvergent && h.compressedTable
            && (h.isEncrypted <==> o.password != []) && (o.password != [] ==> h.salt == o.salt) && h.usesBrainDict == usesBrain
            && h.originalHash == tools.sha256(input) && h.originalSize == |input| && h.chunkCount == count % TWO_TO_32
            && h.chunkSize == o.chunkSize && h.codebookHash == o.codebookHash && h.codebookHashes == o.codebookHashes
            && h.merkleRoot == o.merkleRoot && (o.embed.Some? ==> h.microDict == o.embed.value) && (o.embed.None? ==> h.microDict == [])
    ensures var w := WholeHeader(tools, o, usesBrain, input, fromStart);
            && w.version == (if fromStart then 5 else if o.embed.Some? then 8 else 7) && w.isPassthrough == fromStart && !w.isLossy
            && !w.isConvergent && !w.compressedTable && w.chunkCount == 0 && w.microDict == []
            && (w.isEncrypted <==> o.password != []) && (o.password != [] ==> w.salt == o.salt)
            && w.originalHash == tools.sha256(input) && w.originalSize == |input|
    ensures o.Key(tools) == if o.password == [] then None else Some(tools.deriveKey(o.password, o.salt))
  {
  }

  lemma Short(input: Bytes)
    requires |input| < TWO_TO_63
    ensures |input| < TWO_TO_64
  {
  }

  lemma PackedWhole(job: Job, password: Bytes, bytes: Bytes, input: Bytes, p: Product)
    requires p.whole && StoredWhole(job.tools, password, bytes, input, p.h)
    ensures Packed(job.tools, job.s.brain, password, bytes, input, p)
  {
  }

  lemma PackedChunked(job: Job, password: Bytes, bytes: Bytes, input: Bytes, p: Product)
    requires !p.whole && Archive(job.tools, job.s.brain, password, bytes, input, p.h, p.bs, p.frames)
    ensures Packed(job.tools, job.s.brain, password, bytes, input, p)
  {
  }

  // ----- PackStream ------------------------------------------------------------------------------

  function StreamHeader(tools: Tools, usesBrain: bool, chunkSize: u32, merkleRoot: Bytes, input: Bytes, count: nat): Header
    requires |input| < TWO_TO_64
  {
    Header(5, false, false, false, false, usesBrain, true, Zeros(16), tools.sha256(input), |input|, count % TWO_TO_32, chunkSize,
           Zeros(8), Zeros(24), merkleRoot, 0, [])
  }

  lemma StreamHeaderValid(tools: Tools, usesBrain: bool, chunkSize: u32, merkleRoot: Bytes, input: Bytes, count: nat)
    requires tools.Valid() && |merkleRoot| == 32 && |input| < TWO_TO_63
    ensures var h := StreamHeader(tools, usesBrain, chunkSize, merkleRoot, input, count);
            && h.Valid() && h.version == 5 && h.compressedTable && !h.isPassthrough && !h.isLossy && h.usesBrainDict == usesBrain
            && h.originalSize == |input| && h.originalHash == tools.sha256(input) && KeyFor(tools, h, []) == Ok(None)
            && (count < TWO_TO_32 ==> h.chunkCount == count)
  {
  }

  // PackStream of an empty input does not unpack to it: a file without chunks is
  // read as one stored whole, and its chunk table is taken for the payload.
  lemma EmptyStreamIsNotRestored(tools: Tools, brain: Option<Codebook>, strict: bool, h: Header)
    requires tools.Valid() && h.Valid() && h.version == 5 && h.chunkCount == 0 && !h.isEncrypted
    ensures Unpacker.Unpacked(tools, brain, [], strict, FileBytes(tools, None, [], h, [], [])) != Ok(([], 0 as nat))
  {
    var payload := TableBytes(tools, None, [], []);
    assert FileBytes(tools, None, [], h, [], []) == Serialized(h) + payload by {
      hide Serialized, TableBytes;
      assert payload + [] == payload && [] + payload == payload;
    }
    assert |payload| >= 4;
    ReadStored(tools, [], h, payload);
    hide Serialized, TableBytes, ReadMetadata;
  }

  lemma StreamHeaderSays(tools: Tools, usesBrain: bool, chunkSize: u32, merkleRoot: Bytes, input: Bytes, count: nat)
    requires |input| < TWO_TO_64
    ensures var h := StreamHeader(tools, usesBrain, chunkSize, merkleRoot, input, count);
            && h.version == 5 && !h.isEncrypted && !h.isPassthrough && !h.isLossy && !h.isConvergent && h.compressedTable
            && h.usesBrainDict == usesBrain && h.originalHash == tools.sha256(input) && h.originalSize == |input|
            && h.chunkCount == count % TWO_TO_32 && h.chunkSize == chunkSize && h.merkleRoot == merkleRoot && h.microDict == []
  {
  }

  // The file a stream of blocks is laid out as.
  ghost predicate Streamed(job: Job, chunkSize: u32, merkleRoot: Bytes, bytes: Bytes, input: Bytes, p: Product)
    requires job.Valid() && |input| < TWO_TO_63
  {
    && |p.bs| == BlockCount(|input|) && EachPacked(InJob(job, input), p.bs, p.frames) && !p.whole
    && p.h == StreamHeader(job.tools, job.s.brain.Some?, chunkSize, merkleRoot, input, Start(p.bs, |p.bs|)) && p.h.Valid()
    && bytes == FileBytes(job.tools, None, [], p.h, Entries(p.bs, |p.bs|), p.frames)
  }

  lemma StreamPacked(job: Job, chunkSize: u32, merkleRoot: Bytes, bytes: Bytes, input: Bytes, p: Product)
    requires job.Valid() && |merkleRoot| == 32 && 0 < |input| < TWO_TO_63 && job.key == None
    requires Streamed(job, chunkSize, merkleRoot, bytes, input, p) && FitsFormat(job.tools, None, [], p.bs)
    ensures Packed(job.tools, job.s.brain, [], bytes, input, p)
  {
    hide *;
    JobValid(job, 0);
    StreamedIs(job, chunkSize, merkleRoot, bytes, input, p);
    StreamHeaderValid(job.tools, job.s.brain.Some?, chunkSize, merkleRoot, input, Start(p.bs, |p.bs|));
    FitsWidth(job.tools, None, [], p.bs);
    PackedArchive(job, [], input, p.h, [], p.bs, p.frames);
    PackedChunked(job, [], bytes, input, p);
  }

  lemma StreamedIs(job: Job, chunkSize: u32, merkleRoot: Bytes, bytes: Bytes, input: Bytes, p: Product)
    requires job.Valid() && |input| < TWO_TO_63
    ensures Streamed(job, chunkSize, merkleRoot, bytes, input, p) <==>
              && |p.bs| == BlockCount(|input|) && EachPacked(InJob(job, input), p.bs, p.frames) && !p.whole
              && p.h == StreamHeader(job.tools, job.s.brain.Some?, chunkSize, merkleRoot, input, Start(p.bs, |p.bs|)) && p.h.Valid()
              && bytes == FileBytes(job.tools, None, [], p.h, Entries(p.bs, |p.bs|), p.frames)
  {
    hide Job.Valid, EachPacked, StreamHeader, Header.Valid, FileBytes, Entries, Start, BlockCount;
  }

  // A streamed file whose counts fit the format is restored exactly when the input
  // is not empty.
  lemma StreamRestoredIff(job: Job, chunkSize: u32, merkleRoot: Bytes, strict: bool, bytes: Bytes, input: Bytes, p: Product)
    requires job.Valid() && |merkleRoot| == 32 && |input| < TWO_TO_63 && job.key == None
    requires Streamed(job, chunkSize, merkleRoot, bytes, input, p) && FitsFormat(job.tools, None, [], p.bs)
    ensures Unpacker.Unpacked(job.tools, job.s.brain, [], strict, bytes) == Ok((input, 0 as nat)) <==> input != []
  {
    hide *;
    if input != [] {
      StreamPacked(job, chunkSize, merkleRoot, bytes, input, p);
      PackedRestored(job.tools, job.s.brain, [], strict, bytes, input, p);
    } else {
      JobValid(job, 0);
      StreamedIs(job, chunkSize, merkleRoot, bytes, input, p);
      PackedCount(InJob(job, input), p.bs, p.frames);
      NoBlocks(job, chunkSize, merkleRoot, p);
      EmptyStreamIsNotRestored(job.tools, job.s.brain, strict, p.h);
    }
  }

  lemma NoBlocks(job: Job, chunkSize: u32, merkleRoot: Bytes, p: Product)
    requires |p.bs| == |p.frames| == BlockCount(0)
    requires p.h == StreamHeader(job.tools, job.s.brain.Some?, chunkSize, merkleRoot, [], Start(p.bs, |p.bs|))
    ensures p.bs == [] && p.frames == [] && Entries(p.bs, |p.bs|) == []
    ensures p.h.version == 5 && p.h.chunkCount == 0 && !p.h.isEncrypted
  {
  }

  method PackStream(job: Job, chunkSize: u32, merkleRoot: Bytes, input: Bytes) returns (r: Result<Bytes>, ghost p: Product)
    requires job.Valid() && job.mode.Stream? && |input| < TWO_TO_63 && |merkleRoot| == 32 && job.key == None
    ensures SearchSucceeds(job) ==> r.Ok?
    ensures r.Ok? ==> Streamed(job, chunkSize, merkleRoot, r.value, input, p)
    ensures r.Ok? && input != [] && FitsFormat(job.tools, None, [], p.bs) ==>
              Packed(job.tools, job.s.brain, [], r.value, input, p)
    ensures r.Ok? && FitsFormat(job.tools, None, [], p.bs) ==> forall strict ::
              Unpacker.Unpacked(job.tools, job.s.brain, [], strict, r.value) == Ok((input, 0 as nat)) <==> input != []
  {
    hide *;
    JobValid(job, 0);
    var packed; ghost var bs;
    packed, bs := PackBlocks(job, input);
    StreamHeaderValid(job.tools, job.s.brain.Some?, chunkSize, merkleRoot, input, 0);
    p := Product(StreamHeader(job.tools, job.s.brain.Some?, chunkSize, merkleRoot, input, 0), [], [], false);
    if packed.Err? {
      return Err(packed.error), p;
    }
    var (entries, blocks) := packed.value;
    StreamHeaderValid(job.tools, job.s.brain.Some?, chunkSize, merkleRoot, input, |entries|);
    var h := StreamHeader(job.tools, job.s.brain.Some?, chunkSize, merkleRoot, input, |entries|);
    var bytes := FileBytes(job.tools, None, [], h, entries, blocks);
    p := Product(h, bs, blocks, false);
    StreamedIs(job, chunkSize, merkleRoot, bytes, input, p);
    if FitsFormat(job.tools, None, [], bs) {
      if input != [] { StreamPacked(job, chunkSize, merkleRoot, bytes, input, p); }
      forall strict
        ensures Unpacker.Unpacked(job.tools, job.s.brain, [], strict, bytes) == Ok((input, 0 as nat)) <==> input != []
      {
        StreamRestoredIff(job, chunkSize, merkleRoot, strict, bytes, input, p);
      }
    }
    r := Ok(bytes);
  }
}
