// Two syncs that leave the client without the seed's file, from start to end: one
// whose local version has the same chunks in another order, and one whose local
// version has a block that does not open.
module SyncCases {
  import opened Common
  import opened Tooling
  import opened Headers
  import opened ChunkTable
  import opened Codebooks
  import opened Blocks
  import opened Container
  import opened Residues
  import opened Seeding
  import opened Receiving
  import opened Packing
  import opened Messages
  import opened Syncing
  import Restoring
  import Unpacker
  import M = Manifests

  // ".crom", which names itself
  const NAME: Bytes := EXTENSION

  function Literal(b: byte): Piece { Piece(LITERAL_ID, 0, 1, [b]) }

  // Two literals of one byte in one block.
  ghost function Two(a: byte, b: byte): seq<seq<Piece>> { [[Literal(a), Literal(b)]] }

  function TwoEntries(): seq<ChunkEntry> {
    [ChunkEntry(LITERAL_ID, 0, 1, 1, 0), ChunkEntry(LITERAL_ID, 1, 1, 1, 0)]
  }

  function TwoHeader(tools: Tools, a: byte, b: byte): Header {
    Header(5, false, false, false, false, false, true, Zeros(16), tools.sha256([a, b]), 2, 2, 1, Zeros(8), Zeros(24), Zeros(32), 0, [])
  }

  lemma TwoBlocks(a: byte, b: byte, brain: Option<Codebook>)
    ensures var bs := Two(a, b);
            && Entries(bs, 1) == TwoEntries() && Pool(bs[0], 2) == [a, b] && Start(bs, 1) == 2 && Original(bs, 1) == 2
            && WellFormed(bs) && RegularBlocks(bs) && AllResiduals(bs, 0) == [[a], [b]]
            && Restoring.SoundBlocks(brain, bs) && Restoring.FileData(brain, bs, 1) == [a, b]
  {
    var ps, bs := [Literal(a), Literal(b)], Two(a, b);
    assert bs[0] == ps && ps[0].residual == [a] && ps[1].residual == [b];
    assert Size(ps, 0) == 0 && Size(ps, 1) == 1 && Size(ps, 2) == 2;
    assert PoolSize(ps, 0) == 0 && PoolSize(ps, 1) == 1 && PoolSize(ps, 2) == 2;
    assert Start(bs, 0) == 0 && Start(bs, 1) == 2 && Base(bs, 0) == 0 && Base(bs, 1) == 2 && Original(bs, 0) == 0 && Original(bs, 1) == 2;
    TwoTable(ps, bs);
    TwoData(a, b, brain, ps, bs);
    SameElements(ResidualsIn(ps, 0), [[a], [b]]);
    AllUnfold(bs, 0);
    AllUnfold(bs, 1);
    hide Entries, Pool, AllResiduals, ResidualsIn, Restoring.FileData;
    assert [[a], [b]] + [] == [[a], [b]];
  }

  lemma TwoTable(ps: seq<Piece>, bs: seq<seq<Piece>>)
    requires |ps| == 2 && bs == [ps] && Base(bs, 0) == 0 && PoolSize(ps, 0) == 0 && PoolSize(ps, 1) == 1
    requires forall j :: 0 <= j < 2 ==> ps[j].id == LITERAL_ID && ps[j].index == 0 && ps[j].size == |ps[j].residual| == 1
    ensures Entries(bs, 1) == TwoEntries()
  {
    var first, second := EntryOf(ps[0], 0), EntryOf(ps[1], 1);
    assert BlockEntries(ps, 0, 0) == [];
    assert BlockEntries(ps, 0, 1) == [] + [first] == [first];
    assert BlockEntries(ps, 0, 2) == [first] + [second] == [first, second];
    assert Entries(bs, 0) == [];
    assert Entries(bs, 1) == [] + BlockEntries(ps, 0, 2);
  }

  lemma TwoData(a: byte, b: byte, brain: Option<Codebook>, ps: seq<Piece>, bs: seq<seq<Piece>>)
    requires ps == [Literal(a), Literal(b)] && bs == [ps]
    ensures Pool(ps, 2) == [a, b] && Restoring.SoundBlocks(brain, bs) && Restoring.FileData(brain, bs, 1) == [a, b]
  {
    assert Pool(ps, 0) == [] && Pool(ps, 1) == [a] && Pool(ps, 2) == [a] + [b];
    assert Restoring.ChunkData(brain, ps[0]) == [a] && Restoring.ChunkData(brain, ps[1]) == [b];
    assert Restoring.Data(brain, ps, 0) == [] && Restoring.Data(brain, ps, 1) == [] + [a] && Restoring.Data(brain, ps, 2) == [a] + [b];
    assert Restoring.FileData(brain, bs, 0) == [] && Restoring.FileData(brain, bs, 1) == [] + [a, b];
  }

  lemma TwoHeaderIs(tools: Tools, a: byte, b: byte)
    requires tools.Valid()
    ensures var h := TwoHeader(tools, a, b);
            && h.Valid() && h.version == 5 && h.compressedTable && !h.isPassthrough && !h.isLossy && !h.usesBrainDict
            && h.originalSize == 2 && h.chunkCount == 2 && h.originalHash == tools.sha256([a, b]) && KeyFor(tools, h, []) == Ok(None)
  {
  }

  // A file of these two chunks around any frame.
  function TwoFile(tools: Tools, a: byte, b: byte, frame: Bytes): Bytes
    requires TwoHeader(tools, a, b).Valid()
  {
    FileBytes(tools, None, [], TwoHeader(tools, a, b), TwoEntries(), [frame])
  }

  lemma TwoIsFile(tools: Tools, a: byte, b: byte, frame: Bytes)
    requires tools.Valid() && |frame| < TWO_TO_32
    ensures TwoHeader(tools, a, b).Valid()
    ensures IsFile(tools, [], TwoFile(tools, a, b, frame), TwoHeader(tools, a, b), Two(a, b), [frame])
    ensures FitsFormat(tools, None, [], Two(a, b))
  {
    TwoSizes(a, b);
    hide *;
    TwoHeaderIs(tools, a, b);
    TwoBlocks(a, b, None);
    EntriesDoNotWrap(Two(a, b));
    ManyChunksFit(tools, None, [], Two(a, b));
    TwoFileIs(tools, a, b, frame);
    FileLaidOut(tools, [], TwoHeader(tools, a, b), [], Two(a, b), [frame]);
  }

  lemma TwoSizes(a: byte, b: byte)
    ensures |Two(a, b)| == 1 && |Two(a, b)[0]| == 2 && 2 < TWO_TO_63
  {
  }

  lemma TwoFileIs(tools: Tools, a: byte, b: byte, frame: Bytes)
    requires TwoHeader(tools, a, b).Valid()
    ensures TwoFile(tools, a, b, frame) == FileBytes(tools, None, [], TwoHeader(tools, a, b), TwoEntries(), [frame])
  {
    hide FileBytes, TwoHeader, TwoEntries;
  }

  // With the frame of its pool, it is a packed file of the two bytes.
  lemma TwoArchive(tools: Tools, cb: Codebook, a: byte, b: byte, frame: Bytes)
    requires tools.Valid() && frame == Frame(tools, None, [], [], [a, b])
    ensures TwoHeader(tools, a, b).Valid() && |frame| < TWO_TO_32
    ensures Archive(tools, Some(cb), [], TwoFile(tools, a, b, frame), [a, b], TwoHeader(tools, a, b), Two(a, b), [frame])
  {
    TwoSizes(a, b);
    FrameRoundTrip(tools, None, [], [], [a, b]);
    var fits := |frame| < TWO_TO_32;
    hide *;
    TwoHeaderIs(tools, a, b);
    TwoIsFile(tools, a, b, frame);
    TwoBlocks(a, b, Some(cb));
    ArchiveHolds(tools, Some(cb), [], TwoFile(tools, a, b, frame), [a, b], TwoHeader(tools, a, b), Two(a, b), [frame]);
  }

  // ----- a seed of the bytes 1 and 2 ---------------------------------------------------------

  ghost function SeedOrigin(tools: Tools, frame: Bytes): Origin {
    Origin([1, 2], TwoHeader(tools, 1, 2), Two(1, 2), [frame])
  }

  lemma SeedSyncable(tools: Tools, cb: Codebook, client: Node, seed: Node, frame: Bytes, salt: Bytes)
    requires tools.Valid() && frame == Frame(tools, None, [], [], [1, 2]) && TwoHeader(tools, 1, 2).Valid()
    requires client.tools == seed.tools == tools && client.cb == seed.cb == cb && client.password == seed.password == []
    requires CleanName(NAME) in seed.files && seed.files[CleanName(NAME)] == TwoFile(tools, 1, 2, frame)
    requires NoCollisions(tools.sum64, [[1], [2]], LocalChunks(tools, cb, [], LocalFile(client, NAME)))
    ensures Syncable(client, seed, true, NAME, LocalFile(client, NAME), salt, [], SeedOrigin(tools, frame))
  {
    hide *;
    TwoArchive(tools, cb, 1, 2, frame);
    TwoIsFile(tools, 1, 2, frame);
    TwoBlocks(1, 2, None);
    TwoSizes(1, 2);
    OriginParts(tools, frame);
    SeedFits(tools, frame, salt, client.password);
    SyncableIs(client, seed, true, NAME, LocalFile(client, NAME), salt, [], SeedOrigin(tools, frame));
  }

  lemma OriginParts(tools: Tools, frame: Bytes)
    ensures var o := SeedOrigin(tools, frame);
            o.input == [1, 2] && o.h == TwoHeader(tools, 1, 2) && o.bs == Two(1, 2) && o.frames == [frame]
  {
    hide Two, TwoHeader;
  }

  lemma SeedFits(tools: Tools, frame: Bytes, salt: Bytes, password: Bytes)
    requires tools.Valid() && password == [] && FitsFormat(tools, None, [], Two(1, 2))
    requires var o := SeedOrigin(tools, frame); |Entries(o.bs, |o.bs|)| == |AllResiduals(o.bs, 0)| == 2
    ensures Fits(tools, NAME, OriginManifest(tools.sum64, SeedOrigin(tools, frame)), NewKey(tools, password, salt), [], Two(1, 2))
  {
    var m := OriginManifest(tools.sum64, SeedOrigin(tools, frame));
    assert |m.entries| == 2 by { hide Entries, AllResiduals, EntryFor, Kept; }
    hide Entries, AllResiduals, OriginManifest, Kept, FitsFormat, SeedOrigin, M.Head, M.Columns;
    forall bin | M.IsBinary(bin, m)
      ensures |tools.CompressPool(bin, [])| <= MAX_MESSAGE_SIZE
    {
      assert |bin| == 88;
    }
  }

  lemma SyncableIs(client: Node, seed: Node, authenticated: bool, name: Bytes, file: Option<Bytes>, salt: Bytes, tableNonce: Bytes, o: Origin)
    requires authenticated && seed.tools == client.tools && seed.cb == client.cb && CleanName(name) in seed.files
    requires Archive(client.tools, Some(client.cb), seed.password, seed.files[CleanName(name)], o.input, o.h, o.bs, o.frames)
    requires |Entries(o.bs, |o.bs|)| == |AllResiduals(o.bs, 0)|
    requires Fits(client.tools, name, OriginManifest(client.tools.sum64, o), NewKey(client.tools, client.password, salt), tableNonce, o.bs)
    requires NoCollisions(client.tools.sum64, AllResiduals(o.bs, 0), LocalChunks(client.tools, client.cb, client.password, file))
    ensures Syncable(client, seed, authenticated, name, file, salt, tableNonce, o)
  {
    hide Archive, Entries, AllResiduals, Fits, NoCollisions, LocalChunks, CleanName;
  }

  // ----- the same chunks in another order ------------------------------------------------------

  lemma SwappedWalk(tools: Tools, cb: Codebook, frame: Bytes)
    requires tools.Valid() && frame == Frame(tools, None, [], [], [2, 1]) && TwoHeader(tools, 2, 1).Valid()
    ensures var w := Walked(tools, cb, [], TwoFile(tools, 2, 1, frame));
            w.Ok? && w.value.0.entries == TwoEntries() && w.value.1 == [[2], [1]]
  {
    hide *;
    TwoArchive(tools, cb, 2, 1, frame);
    TwoBlocks(2, 1, None);
    TwoSizes(2, 1);
    ArchiveWalked(tools, cb, [], TwoFile(tools, 2, 1, frame), [2, 1], TwoHeader(tools, 2, 1), Two(2, 1), [frame]);
  }

  lemma SwappedChunks(tools: Tools, cb: Codebook, file: Bytes)
    requires var w := Walked(tools, cb, [], file); w.Ok? && w.value.0.entries == TwoEntries() && w.value.1 == [[2], [1]]
    requires tools.sum64([1]) != tools.sum64([2])
    ensures NoCollisions(tools.sum64, [[1], [2]], LocalChunks(tools, cb, [], Some(file)))
  {
    hide Walked;
    assert LocalChunks(tools, cb, [], Some(file)) == [(LITERAL_ID, [2]), (LITERAL_ID, [1])];
  }

  lemma SwappedKeys(tools: Tools, cb: Codebook, file: Bytes, o: Origin)
    requires var w := Walked(tools, cb, [], file); w.Ok? && w.value.0.entries == TwoEntries() && w.value.1 == [[2], [1]]
    requires Entries(o.bs, |o.bs|) == TwoEntries() && AllResiduals(o.bs, 0) == [[1], [2]]
    ensures NothingMissing(tools, cb, [], Some(file), OriginManifest(tools.sum64, o))
  {
    hide Walked, Entries, AllResiduals, Kept, M.Keys;
    LocalManifestIs(tools, cb, [], file);
    var local, remote := LocalManifest(tools, cb, [], file).entries, OriginManifest(tools.sum64, o).entries;
    var one, two := EntryFor(tools.sum64, TwoEntries()[0], [1]), EntryFor(tools.sum64, TwoEntries()[0], [2]);
    hide LocalManifest, OriginManifest;
    assert local[0] == two && local[1] == one && remote[0] == one && remote[1] == two;
    forall k | k in M.Keys(remote, 2)
      ensures k in M.Keys(local, 2)
    {
      M.KeysAre(remote, 2, k);
      M.KeysAre(local, 2, k);
      assert M.KeyOf(local[0]) == M.KeyOf(two) && M.KeyOf(local[1]) == M.KeyOf(one);
    }
  }

  // The client has the bytes 2 and 1 where the seed has 1 and 2: the sync finds
  // nothing missing, and the client still unpacks its own bytes.
  method SwappedStays(tools: Tools, cb: Codebook, salt: Bytes, nonces: nat -> Bytes) returns (r: Outcome, local: Bytes, served: Bytes)
    requires tools.Valid() && tools.sum64([1]) != tools.sum64([2]) && |salt| == 16
    ensures r == UpToDate
    ensures Unpacker.Unpacked(tools, Some(cb), [], true, local) == Ok(([2, 1], 0 as nat))
    ensures Unpacker.Unpacked(tools, Some(cb), [], true, served) == Ok(([1, 2], 0 as nat))
  {
    hide *;
    var frame, swapped := Frame(tools, None, [], [], [1, 2]), Frame(tools, None, [], [], [2, 1]);
    TwoArchive(tools, cb, 1, 2, frame);
    TwoArchive(tools, cb, 2, 1, swapped);
    served, local := TwoFile(tools, 1, 2, frame), TwoFile(tools, 2, 1, swapped);
    ArchiveRestored(tools, Some(cb), [], true, served, [1, 2], TwoHeader(tools, 1, 2), Two(1, 2), [frame]);
    ArchiveRestored(tools, Some(cb), [], true, local, [2, 1], TwoHeader(tools, 2, 1), Two(2, 1), [swapped]);
    var client, seed := Node(tools, cb, map[CleanName(NAME) := local], []), Node(tools, cb, map[CleanName(NAME) := served], []);
    ghost var o := SeedOrigin(tools, frame);
    LocalIsHere(client, NAME);
    SwappedWalk(tools, cb, swapped);
    SwappedChunks(tools, cb, local);
    SeedSyncable(tools, cb, client, seed, frame, salt);
    TwoBlocks(1, 2, None);
    TwoSizes(1, 2);
    OriginParts(tools, frame);
    SwappedKeys(tools, cb, local, o);
    ghost var frames, asked, wire;
    r, frames, asked, wire := RequestSync(client, seed, true, NAME, salt, nonces, [], o);
    EndedIs(client, LocalFile(client, NAME), salt, o, r, frames);
  }

  lemma LocalIsHere(client: Node, name: Bytes)
    requires CleanName(name) in client.files
    ensures LocalFile(client, name) == Some(client.files[CleanName(name)])
  {
    hide CleanName;
  }

  // ----- a block that does not open ---------------------------------------------------------------

  // A file that reads back to its table but has a frame that does not open is of
  // no use to the receiver.
  lemma DamagedUnusable(tools: Tools, cb: Codebook, password: Bytes, file: Bytes, h: Header, bs: seq<seq<Piece>>,
                        frames: seq<Bytes>, k: nat)
    requires tools.Valid() && IsFile(tools, password, file, h, bs, frames) && k < |bs| == |frames|
    requires OpenFrame(tools, KeyFor(tools, h, password).value, if h.usesBrainDict then cb.dictionary else [], frames[k]).Err?
    ensures ReadMetadata(tools, file, password).Ok? && !LocalUsable(tools, cb, password, Some(file))
    ensures Walked(tools, cb, password, file).Err?
  {
    hide *;
    var nonce := FileParts(tools, password, file, h, bs, frames);
    FileReadBack(tools, password, file, h, bs, frames);
    KeptFields(h);
    BoundariesRecovered(bs);
    LocalIs(tools, cb, password, Some(file));
    WalkedParts(tools, cb, password, file);
    var m := ReadMetadata(tools, file, password).value;
    SyncJobIs(tools, cb, m, bs, frames);
    var job := SyncJob(tools, cb, m).value;
    SizesAre(job.sizes, frames);
    if Scannable(job, 0, Concat(frames, 0)) { ScannedOpens(job, frames, k, 0); }
    if Residuals(job, 0, Concat(frames, 0)).Ok? {
      ResidualsScan(job, 0, Concat(frames, 0));
    }
  }

  lemma SizesAre(sizes: seq<u32>, frames: seq<Bytes>)
    requires sizes == Lengths(frames) && forall k :: 0 <= k < |frames| ==> |frames[k]| < TWO_TO_32
    ensures |sizes| == |frames| && forall k :: 0 <= k < |frames| ==> sizes[k] == |frames[k]|
  {
  }

  lemma {:induction false} ScannedOpens(job: Unpacker.Job, frames: seq<Bytes>, k: nat, i: nat)
    requires Walks(job) && |job.sizes| == |frames| && forall b :: 0 <= b < |frames| ==> job.sizes[b] == |frames[b]|
    requires i <= k < |frames| && Scannable(job, i, Concat(frames, i))
    ensures OpenFrame(job.tools, job.key, job.dict, frames[k]).Ok?
    decreases k - i
  {
    hide *;
    ScannableUnfold(job, i, Concat(frames, i));
    Restoring.FrameRead(frames, i);
    OpenedBlock(job, i, Concat(frames, i), frames[i], Concat(frames, i + 1));
    if i < k { ScannedOpens(job, frames, k, i + 1); }
  }

  // The client has a version of the file whose frame does not decompress: the sync
  // fails, although the seed sends everything.
  method DamagedNeverSyncs(tools: Tools, cb: Codebook, damaged: Bytes, salt: Bytes, nonces: nat -> Bytes) returns (r: Outcome, local: Bytes)
    requires tools.Valid() && |damaged| < TWO_TO_32 && tools.DecompressPool(damaged, []).Err? && |salt| == 16
    ensures r.Failed? && ReadMetadata(tools, local, []).Ok?
  {
    hide *;
    var frame := Frame(tools, None, [], [], [1, 2]);
    TwoArchive(tools, cb, 1, 2, frame);
    TwoIsFile(tools, 1, 2, damaged);
    TwoHeaderIs(tools, 1, 2);
    TwoSizes(1, 2);
    Undecompressed(tools, damaged);
    var served := TwoFile(tools, 1, 2, frame);
    local := TwoFile(tools, 1, 2, damaged);
    var client, seed := Node(tools, cb, map[CleanName(NAME) := local], []), Node(tools, cb, map[CleanName(NAME) := served], []);
    ghost var o := SeedOrigin(tools, frame);
    LocalIsHere(client, NAME);
    DamagedUnusable(tools, cb, [], local, TwoHeader(tools, 1, 2), Two(1, 2), [damaged], 0);
    NoChunksNoCollisions(tools, cb, local);
    SeedSyncable(tools, cb, client, seed, frame, salt);
    ghost var frames, asked, wire;
    r, frames, asked, wire := RequestSync(client, seed, true, NAME, salt, nonces, [], o);
    EndedIs(client, LocalFile(client, NAME), salt, o, r, frames);
  }

  lemma Undecompressed(tools: Tools, frame: Bytes)
    requires tools.DecompressPool(frame, []).Err?
    ensures OpenFrame(tools, None, [], frame).Err?
  {
  }

  lemma NoChunksNoCollisions(tools: Tools, cb: Codebook, file: Bytes)
    requires Walked(tools, cb, [], file).Err?
    ensures NoCollisions(tools.sum64, [[1], [2]], LocalChunks(tools, cb, [], Some(file)))
  {
    hide Walked;
    assert LocalChunks(tools, cb, [], Some(file)) == [];
  }
}
