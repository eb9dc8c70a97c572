// One sync: the manifest request, the comparison, the request for what is
// missing, and the rebuilt file (internal/network/protocol.go, bitswap.go).
module Syncing {
  import opened Common
  import opened Tooling
  import opened Headers
  import opened ChunkTable
  import opened Codebooks
  import opened Blocks
  import opened Container
  import opened Unpacker
  import opened Residues
  import opened Seeding
  import opened Receiving
  import opened Packing
  import opened Messages
  import Restoring
  import M = Manifests

  // ----- what makes a rebuild possible ------------------------------------------------

  // The local version is absent, not a file with chunks, or one whose blocks open.
  ghost predicate LocalUsable(tools: Tools, cb: Codebook, password: Bytes, local: Option<Bytes>) {
    local.Some? ==>
      var m := ReadMetadata(tools, local.value, password);
      m.Err? || m.value.header.chunkCount == 0 || CanScan(tools, cb, m.value)
  }

  ghost predicate CanScan(tools: Tools, cb: Codebook, m: Metadata) {
    SyncJobWalks(tools, cb, m);
    var job := SyncJob(tools, cb, m);
    job.Ok? && Scannable(job.value, 0, m.pool)
  }

  // The residuals of the local version with the IDs they go with; none if it
  // cannot be walked through.
  ghost function LocalChunks(tools: Tools, cb: Codebook, password: Bytes, local: Option<Bytes>): seq<(u64, Bytes)> {
    if local.None? then []
    else
      var w := Walked(tools, cb, password, local.value);
      WalkedCount(tools, cb, password, local.value);
      if w.Err? then [] else seq(|w.value.1|, i requires 0 <= i < |w.value.1| => (w.value.0.entries[i].id, w.value.1[i]))
  }

  // Every chunk was asked for or is known, by its key, from the local version.
  ghost predicate Supplied(m: M.Manifest, ordered: seq<u32>, sum64: Bytes -> u64, chunks: seq<(u64, Bytes)>) {
    forall i :: 0 <= i < |m.entries| ==> i in ordered || KeyAmong(M.KeyOf(m.entries[i]), sum64, chunks)
  }

  ghost predicate KeyAmong(key: M.ChunkKey, sum64: Bytes -> u64, chunks: seq<(u64, Bytes)>) {
    exists k :: 0 <= k < |chunks| && M.ChunkKey(chunks[k].0, sum64(chunks[k].1)) == key
  }

  // Residuals of the two versions with the same hash are the same.
  ghost predicate NoCollisions(sum64: Bytes -> u64, rs: seq<Bytes>, chunks: seq<(u64, Bytes)>) {
    forall i, k :: 0 <= i < |rs| && 0 <= k < |chunks| && sum64(rs[i]) == sum64(chunks[k].1) ==> rs[i] == chunks[k].1
  }

  // ----- what is kept of the local version ---------------------------------------------

  method Needed(m: M.Manifest, refs: Refs) returns (needed: set<M.ChunkKey>)
    ensures forall i :: 0 <= i < |m.entries| && i !in refs ==> M.KeyOf(m.entries[i]) in needed
  {
    needed := {};
    for i := 0 to |m.entries|
      invariant forall k :: 0 <= k < i && k !in refs ==> M.KeyOf(m.entries[k]) in needed
    {
      if i !in refs {
        needed := needed + {M.KeyOf(m.entries[i])};
      }
    }
  }

  // Whatever the local version has of the keys needed is in the spill file.
  ghost predicate ChunksKept(spill: Bytes, local: LocalRefs, needed: set<M.ChunkKey>, sum64: Bytes -> u64, chunks: seq<(u64, Bytes)>) {
    forall key :: key in needed && KeyAmong(key, sum64, chunks) ==> key in local && ChunkRef(spill, local[key], key, sum64, chunks)
  }

  ghost predicate ChunkRef(spill: Bytes, ref: Spilled, key: M.ChunkKey, sum64: Bytes -> u64, chunks: seq<(u64, Bytes)>) {
    exists k :: 0 <= k < |chunks| && M.ChunkKey(chunks[k].0, sum64(chunks[k].1)) == key && RefIs(spill, ref, chunks[k].1)
  }

  method KeepLocal(tools: Tools, cb: Codebook, password: Bytes, file: Option<Bytes>, needed: set<M.ChunkKey>, spill0: Bytes)
    returns (r: Result<(Bytes, LocalRefs)>)
    ensures r.Ok? ==> spill0 <= r.value.0
    ensures r.Ok? <==> LocalUsable(tools, cb, password, file)
    ensures r.Ok? ==> ChunksKept(r.value.0, r.value.1, needed, tools.sum64, LocalChunks(tools, cb, password, file))
  {
    hide *;
    LocalIs(tools, cb, password, file);
    if file.None? {
      NothingKept(tools, cb, password, file, needed, spill0);
      return Ok((spill0, map[]));
    }
    WalkedParts(tools, cb, password, file.value);
    var m := ReadMetadata(tools, file.value, password);
    if m.Err? {
      NothingKept(tools, cb, password, file, needed, spill0);
      return Ok((spill0, map[]));
    }
    if m.value.header.chunkCount == 0 {
      EmptyTable(tools, cb, password, file.value);
      NothingKept(tools, cb, password, file, needed, spill0);
      return Ok((spill0, map[]));
    }
    var job := SyncJob(tools, cb, m.value);
    if job.Err? {
      return Err(job.error);
    }
    r := KeepBlocks(tools.sum64, job.value, m.value.pool, needed, spill0);
    if r.Ok? {
      ghost var all := Residuals(job.value, 0, m.value.pool);
      if all.Ok? {
        WalkedCount(tools, cb, password, file.value);
        KeptIs(tools, cb, password, file.value, needed, r.value.0, r.value.1);
      } else {
        KeptAnything(tools, cb, password, file, needed, r.value.0, r.value.1);
      }
    }
  }

  lemma LocalIs(tools: Tools, cb: Codebook, password: Bytes, local: Option<Bytes>)
    ensures LocalUsable(tools, cb, password, local) <==> local.Some? ==>
              var m := ReadMetadata(tools, local.value, password);
              m.Err? || m.value.header.chunkCount == 0 ||
              var job := SyncJob(tools, cb, m.value);
              job.Ok? && Walks(job.value) && Scannable(job.value, 0, m.value.pool)
  {
    if local.Some? {
      var m := ReadMetadata(tools, local.value, password);
      if m.Ok? { SyncJobWalks(tools, cb, m.value); }
    }
    hide ReadMetadata, Scannable, SyncJob, Walks;
  }

  lemma NothingKept(tools: Tools, cb: Codebook, password: Bytes, file: Option<Bytes>, needed: set<M.ChunkKey>, spill: Bytes)
    requires file.None? || Walked(tools, cb, password, file.value).Err? || Walked(tools, cb, password, file.value).value.1 == []
    ensures ChunksKept(spill, map[], needed, tools.sum64, LocalChunks(tools, cb, password, file))
  {
    hide Walked;
    assert LocalChunks(tools, cb, password, file) == [];
  }

  // A version that cannot be walked through is asked for nothing.
  lemma KeptAnything(tools: Tools, cb: Codebook, password: Bytes, file: Option<Bytes>, needed: set<M.ChunkKey>, spill: Bytes, local: LocalRefs)
    requires file.Some? && Walked(tools, cb, password, file.value).Err?
    ensures ChunksKept(spill, local, needed, tools.sum64, LocalChunks(tools, cb, password, file))
  {
    hide Walked;
    assert LocalChunks(tools, cb, password, file) == [];
  }

  lemma EmptyTable(tools: Tools, cb: Codebook, password: Bytes, file: Bytes)
    requires ReadMetadata(tools, file, password).Ok? && ReadMetadata(tools, file, password).value.header.chunkCount == 0
    ensures var w := Walked(tools, cb, password, file); w.Ok? ==> w.value.1 == []
  {
    WalkedCount(tools, cb, password, file);
    WalkedParts(tools, cb, password, file);
    NoChunksNoEntries(tools, file, password);
    hide Walked, ReadMetadata;
  }

  lemma NoChunksNoEntries(tools: Tools, file: Bytes, password: Bytes)
    requires ReadMetadata(tools, file, password).Ok? && ReadMetadata(tools, file, password).value.header.chunkCount == 0
    ensures ReadMetadata(tools, file, password).value.entries == []
  {
    hide ReadHeader, KeyFor, ReadSizes, NumBlocks, ReadTable, ReadPlainTable;
  }

  lemma KeptIs(tools: Tools, cb: Codebook, password: Bytes, file: Bytes, needed: set<M.ChunkKey>, spill: Bytes, local: LocalRefs)
    requires Walked(tools, cb, password, file).Ok?
    requires var w := Walked(tools, cb, password, file).value;
             LocalKept(spill, local, needed, tools.sum64, w.0.entries, w.1, |w.0.entries|)
    ensures ChunksKept(spill, local, needed, tools.sum64, LocalChunks(tools, cb, password, Some(file)))
  {
    hide Walked, RefIs;
    var w, chunks := Walked(tools, cb, password, file).value, LocalChunks(tools, cb, password, Some(file));
    forall key | key in needed && KeyAmong(key, tools.sum64, chunks)
      ensures key in local && ChunkRef(spill, local[key], key, tools.sum64, chunks)
    {
      var k :| 0 <= k < |chunks| && M.ChunkKey(chunks[k].0, tools.sum64(chunks[k].1)) == key;
      assert chunks[k] == (w.0.entries[k].id, w.1[k]);
      assert LocalRef(spill, local[key], key, tools.sum64, w.0.entries, w.1);
      var i :| 0 <= i < |w.0.entries| && key == M.ChunkKey(w.0.entries[i].id, tools.sum64(w.1[i])) && RefIs(spill, local[key], w.1[i]);
      assert chunks[i] == (w.0.entries[i].id, w.1[i]);
    }
  }

  // With no collisions, each chunk is found, and found right.
  lemma AllAvailable(m: M.Manifest, refs: Refs, local: LocalRefs, spill0: Bytes, spill: Bytes, ordered: seq<u32>, needed: set<M.ChunkKey>,
                     tools: Tools, rs: seq<Bytes>, chunks: seq<(u64, Bytes)>, es: seq<ChunkEntry>)
    requires |es| == |rs| == |m.entries| && forall i :: 0 <= i < |es| ==> m.entries[i] == EntryFor(tools.sum64, es[i], rs[i])
    requires Received(spill0, refs, rs) && spill0 <= spill && forall j :: 0 <= j < |ordered| ==> ordered[j] in refs
    requires forall i :: 0 <= i < |m.entries| && i !in refs ==> M.KeyOf(m.entries[i]) in needed
    requires ChunksKept(spill, local, needed, tools.sum64, chunks)
    requires Supplied(m, ordered, tools.sum64, chunks) && NoCollisions(tools.sum64, rs, chunks)
    ensures Available(m, refs, local, spill, rs)
  {
    hide RefIs, KeyAmong;
    ReceivedLater(spill0, spill[|spill0|..], refs, rs);
    assert spill0 + spill[|spill0|..] == spill;
    forall i | 0 <= i < |rs|
      ensures Found(m.entries[i], refs, local, spill, i, rs[i])
    {
      if i !in refs {
        var key := M.KeyOf(m.entries[i]);
        assert i !in ordered;
        assert ChunkRef(spill, local[key], key, tools.sum64, chunks);
        SameChunk(spill, local[key], key, tools.sum64, chunks, rs, i);
      }
    }
  }

  lemma SameChunk(spill: Bytes, ref: Spilled, key: M.ChunkKey, sum64: Bytes -> u64, chunks: seq<(u64, Bytes)>, rs: seq<Bytes>, i: nat)
    requires ChunkRef(spill, ref, key, sum64, chunks) && i < |rs| && key.hash == sum64(rs[i]) && NoCollisions(sum64, rs, chunks)
    ensures RefIs(spill, ref, rs[i])
  {
    hide RefIs;
    var k :| 0 <= k < |chunks| && M.ChunkKey(chunks[k].0, sum64(chunks[k].1)) == key && RefIs(spill, ref, chunks[k].1);
  }

  // ----- receiving ----------------------------------------------------------------------

  // The header of the rebuilt file: encrypted at rest if this node has a key.
  function RebuiltHeader(m: M.Manifest, password: Bytes, salt: Bytes): Header {
    Header(7, password != [], false, false, false, true, true, if password != [] then salt else Zeros(16), m.originalHash, m.originalSize,
           m.chunkCount, 0, Zeros(8), Zeros(24), Zeros(32), 0, [])
  }

  lemma RebuiltHeaderValid(tools: Tools, m: M.Manifest, password: Bytes, salt: Bytes)
    requires |m.originalHash| == 32 && |salt| == 16
    ensures var h := RebuiltHeader(m, password, salt);
            && h.Valid() && h.version == 7 && h.compressedTable && !h.isPassthrough && !h.isLossy && h.usesBrainDict
            && h.originalSize == m.originalSize && h.chunkCount == m.chunkCount && h.originalHash == m.originalHash
            && KeyFor(tools, h, password) == Ok(if password != [] then Some(tools.deriveKey(password, salt)) else None)
  {
  }

  // An honest sender, a usable local version, and no collision between the two.
  ghost predicate Served(tools: Tools, cb: Codebook, m: M.Manifest, count: nat, wire: Bytes, file: Option<Bytes>, password: Bytes,
                         bs: seq<seq<Piece>>, ordered: seq<u32>)
  {
    var rs, chunks := AllResiduals(bs, 0), LocalChunks(tools, cb, password, file);
    && WellFormed(bs) && Describes(m, tools.sum64, bs) && Acceptable(m, rs)
    && OnWire(rs, ordered, 0, wire) && count == |ordered|
    && LocalUsable(tools, cb, password, file)
    && Supplied(m, ordered, tools.sum64, chunks) && NoCollisions(tools.sum64, rs, chunks)
  }

  method ReceiveChunks(tools: Tools, cb: Codebook, m: M.Manifest, count: nat, wire: Bytes, file: Option<Bytes>, password: Bytes,
                       salt: Bytes, nonces: nat -> Bytes, tableNonce: Bytes, ghost bs: seq<seq<Piece>>, ghost ordered: seq<u32>)
    returns (r: Result<Bytes>, ghost frames: seq<Bytes>)
    requires m.Valid() && |salt| == 16
    ensures !LocalUsable(tools, cb, password, file) ==> r.Err?
    ensures Served(tools, cb, m, count, wire, file, password, bs, ordered) ==>
              var h := RebuiltHeader(m, password, salt);
              var key := if password != [] then Some(tools.deriveKey(password, salt)) else None;
              && h.Valid() && r == Ok(FileBytes(tools, key, tableNonce, h, Entries(bs, |bs|), frames))
              && FramesWritten(tools, key, nonces, cb.dictionary, bs, frames)
  {
    hide *;
    frames := [];
    ManifestShape(m);
    ServedIs(tools, cb, m, count, wire, file, password, bs, ordered);
    ghost var honest := Served(tools, cb, m, count, wire, file, password, bs, ordered);
    ghost var rs := AllResiduals(bs, 0);
    var got := ReceiveResiduals(m, count, wire, rs, ordered);
    if got.Err? {
      return Err(got.error), [];
    }
    var (spill0, refs) := got.value;
    var needed := Needed(m, refs);
    var kept := KeepLocal(tools, cb, password, file, needed, spill0);
    if kept.Err? {
      return Err(kept.error), [];
    }
    var (spill, local) := kept.value;
    if honest {
      DescribesAll(m, tools.sum64, bs);
      AllAvailable(m, refs, local, spill0, spill, ordered, needed, tools, rs, LocalChunks(tools, cb, password, file), Entries(bs, |bs|));
      HonestIs(m, refs, local, spill, tools.sum64, bs);
    }
    var key := if password != [] then Some(tools.deriveKey(password, salt)) else None;
    var rebuilt := RebuildBlocks(tools, cb.dictionary, m, refs, local, spill, key, nonces, bs);
    if rebuilt.Err? {
      return Err(rebuilt.error), [];
    }
    frames := rebuilt.value.1;
    var h := RebuiltHeader(m, password, salt);
    RebuiltHeaderValid(tools, m, password, salt);
    FramedIsWritten(tools, key, nonces, cb.dictionary, bs, frames);
    r := Ok(FileBytes(tools, key, tableNonce, h, rebuilt.value.0, rebuilt.value.1));
  }

  lemma ManifestShape(m: M.Manifest)
    requires m.Valid()
    ensures |m.originalHash| == 32 && m.chunkCount == |m.entries|
  {
  }

  lemma FramedIsWritten(tools: Tools, key: Option<Bytes>, nonces: nat -> Bytes, dict: Bytes, bs: seq<seq<Piece>>, frames: seq<Bytes>)
    ensures FramesSoFar(tools, key, nonces, dict, bs, frames, |bs|) ==> FramesWritten(tools, key, nonces, dict, bs, frames)
  {
    hide Frame, Pool;
  }

  lemma DescribesAll(m: M.Manifest, sum64: Bytes -> u64, bs: seq<seq<Piece>>)
    requires Describes(m, sum64, bs)
    ensures var es, rs := Entries(bs, |bs|), AllResiduals(bs, 0);
            |es| == |rs| == |m.entries| && forall i :: 0 <= i < |es| ==> m.entries[i] == EntryFor(sum64, es[i], rs[i])
  {
    hide Entries, AllResiduals, EntryFor;
  }

  lemma ServedIs(tools: Tools, cb: Codebook, m: M.Manifest, count: nat, wire: Bytes, file: Option<Bytes>, password: Bytes,
                 bs: seq<seq<Piece>>, ordered: seq<u32>)
    ensures Served(tools, cb, m, count, wire, file, password, bs, ordered) <==>
              var rs, chunks := AllResiduals(bs, 0), LocalChunks(tools, cb, password, file);
              && WellFormed(bs) && Describes(m, tools.sum64, bs) && Acceptable(m, rs)
              && OnWire(rs, ordered, 0, wire) && count == |ordered|
              && LocalUsable(tools, cb, password, file)
              && Supplied(m, ordered, tools.sum64, chunks) && NoCollisions(tools.sum64, rs, chunks)
  {
    hide AllResiduals, LocalChunks, WellFormed, Describes, Acceptable, OnWire, LocalUsable, Supplied, NoCollisions;
  }

  // ----- the serving node ------------------------------------------------------------------

  // ".crom"
  const EXTENSION: Bytes := [46, 99, 114, 111, 109]

  function CleanName(name: Bytes): Bytes {
    if |name| >= 5 && name[|name| - 5..] == EXTENSION then name else name + EXTENSION
  }

  datatype Node = Node(tools: Tools, cb: Codebook, files: map<Bytes, Bytes>, password: Bytes)

  method HandleSyncReq(node: Node, name: Bytes) returns (reply: Bytes, ghost bin: Bytes)
    ensures var clean := CleanName(name);
            clean in node.files && Walked(node.tools, node.cb, node.password, node.files[clean]).Ok? ==>
              var w := Walked(node.tools, node.cb, node.password, node.files[clean]).value;
              && |w.0.entries| == |w.1|
              && var m := ManifestOf(node.tools.sum64, w.0.header, w.0.entries, w.1);
                 m.Valid() && M.IsBinary(bin, m) && reply == Message(MSG_MANIFEST, node.tools.CompressPool(bin, []))
    ensures var clean := CleanName(name);
            clean !in node.files || Walked(node.tools, node.cb, node.password, node.files[clean]).Err? ==> reply == Message(MSG_ERROR, [])
  {
    hide *;
    bin := [];
    var clean := CleanName(name);
    if clean !in node.files {
      reply := Message(MSG_ERROR, []);
      return;
    }
    WalkedShape(node.tools, node.cb, node.password, node.files[clean]);
    var m := GenerateManifest(node.tools, node.cb, node.password, node.files[clean]);
    if m.Err? {
      reply := Message(MSG_ERROR, []);
      return;
    }
    var written := M.ToBinary(m.value);
    bin := written;
    reply := Message(MSG_MANIFEST, node.tools.CompressPool(written, []));
  }

  lemma WalkedShape(tools: Tools, cb: Codebook, password: Bytes, file: Bytes)
    ensures var w := Walked(tools, cb, password, file);
            w.Ok? ==> |w.value.0.entries| == |w.value.1| && ManifestOf(tools.sum64, w.value.0.header, w.value.0.entries, w.value.1).Valid()
  {
    WalkedCount(tools, cb, password, file);
    WalkedParts(tools, cb, password, file);
    MetadataShape(tools, file, password);
    hide Walked, ReadMetadata, SyncJob, Residuals, EntryFor;
  }

  method HandleDiffReq(node: Node, payload: Bytes) returns (reply: Bytes)
    ensures var request := ReadDiffRequest(payload);
            request.Ok? && CleanName(request.value.0) in node.files ==>
              var file, ordered := node.files[CleanName(request.value.0)], Sorted(request.value.1);
              var all := AskedOf(node.tools, node.cb, node.password, file, ordered);
              && (all.Ok? ==> reply == Wire(all.value, ordered, 0))
              && (Walked(node.tools, node.cb, node.password, file).Ok? ==>
                    reply == Wire(Walked(node.tools, node.cb, node.password, file).value.1, ordered, 0))
    ensures var request := ReadDiffRequest(payload);
            && (request.Err? ==> reply == Message(MSG_ERROR, []))
            && (request.Ok? && CleanName(request.value.0) !in node.files ==> reply == [])
  {
    hide *;
    var request := ReadDiffRequest(payload);
    if request.Err? {
      return Message(MSG_ERROR, []);
    }
    var clean := CleanName(request.value.0);
    if clean !in node.files {
      return [];
    }
    if Walked(node.tools, node.cb, node.password, node.files[clean]).Ok? {
      AskedOfWalked(node.tools, node.cb, node.password, node.files[clean], Sorted(request.value.1));
    }
    var sent := StreamChunks(node.tools, node.cb, node.password, node.files[clean], request.value.1);
    // A stream that breaks off sends no more than a prefix.
    reply := if sent.Ok? then sent.value else [];
  }

  // There is no such file, or it cannot be walked through.
  ghost predicate NotServed(node: Node, name: Bytes) {
    CleanName(name) !in node.files || Walked(node.tools, node.cb, node.password, node.files[CleanName(name)]).Err?
  }

  lemma NotServedIs(node: Node, name: Bytes)
    ensures NotServed(node, name) <==>
              CleanName(name) !in node.files || Walked(node.tools, node.cb, node.password, node.files[CleanName(name)]).Err?
  {
    hide CleanName, Walked;
  }

  // One request on a sync stream: an unauthenticated peer is refused, whatever it asks.
  method Answer(node: Node, authenticated: bool, request: Bytes) returns (reply: Bytes, ghost bin: Bytes)
    ensures !authenticated ==> reply == Message(MSG_ERROR, [])
    ensures authenticated ==>
              var got := ReadMessage(request, MAX_REQUEST_SIZE);
              && (got.Err? ==> reply == [])
              && (got.Ok? && got.value.0 == MSG_SYNC_REQ ==>
                   var clean := CleanName(got.value.1);
                   clean in node.files && Walked(node.tools, node.cb, node.password, node.files[clean]).Ok? ==>
                     var w := Walked(node.tools, node.cb, node.password, node.files[clean]).value;
                     && |w.0.entries| == |w.1|
                     && var m := ManifestOf(node.tools.sum64, w.0.header, w.0.entries, w.1);
                        m.Valid() && M.IsBinary(bin, m) && reply == Message(MSG_MANIFEST, node.tools.CompressPool(bin, [])))
              && (got.Ok? && got.value.0 == MSG_SYNC_REQ && NotServed(node, got.value.1) ==> reply == Message(MSG_ERROR, []))
              && (got.Ok? && got.value.0 == MSG_DIFF_REQ ==>
                   var asked := ReadDiffRequest(got.value.1);
                   asked.Ok? ==>
                     var clean := CleanName(asked.value.0);
                     clean in node.files && Walked(node.tools, node.cb, node.password, node.files[clean]).Ok? ==>
                       reply == Wire(Walked(node.tools, node.cb, node.password, node.files[clean]).value.1, Sorted(asked.value.1), 0))
  {
    hide *;
    Kinds();
    bin, reply := [], [];
    if !authenticated {
      reply := Message(MSG_ERROR, []);
      return;
    }
    var got := ReadMessage(request, MAX_REQUEST_SIZE);
    if got.Err? {
      return;
    }
    NotServedIs(node, got.value.1);
    if got.value.0 == MSG_SYNC_REQ {
      reply, bin := HandleSyncReq(node, got.value.1);
    } else if got.value.0 == MSG_DIFF_REQ {
      reply := HandleDiffReq(node, got.value.1);
    }
  }

  lemma Kinds()
    ensures MSG_SYNC_REQ != MSG_DIFF_REQ && MSG_MANIFEST != MSG_ERROR
  {
  }

  // ----- what is missing --------------------------------------------------------------------

  function UpTo(n: nat): (s: seq<u32>)
    requires n < TWO_TO_32
    ensures |s| == n && forall i :: 0 <= i < n ==> s[i] == i
  {
    seq(n, i requires 0 <= i < n => i)
  }

  // What GenerateManifest makes of a file that can be walked through.
  ghost function LocalManifest(tools: Tools, cb: Codebook, password: Bytes, file: Bytes): M.Manifest
    requires Walked(tools, cb, password, file).Ok?
  {
    WalkedCount(tools, cb, password, file);
    var w := Walked(tools, cb, password, file).value;
    ManifestOf(tools.sum64, w.0.header, w.0.entries, w.1)
  }

  // There is a local manifest, and no key of the remote one is missing from it.
  ghost predicate NothingMissing(tools: Tools, cb: Codebook, password: Bytes, file: Option<Bytes>, remote: M.Manifest) {
    && file.Some? && Walked(tools, cb, password, file.value).Ok?
    && var local := LocalManifest(tools, cb, password, file.value);
       M.Keys(remote.entries, |remote.entries|) <= M.Keys(local.entries, |local.entries|)
  }

  // There is no local manifest, or the key is not in it.
  ghost predicate Lacks(tools: Tools, cb: Codebook, password: Bytes, file: Option<Bytes>, key: M.ChunkKey) {
    file.Some? && Walked(tools, cb, password, file.value).Ok? ==>
      var local := LocalManifest(tools, cb, password, file.value); key !in M.Keys(local.entries, |local.entries|)
  }

  lemma LacksAll(tools: Tools, cb: Codebook, password: Bytes, file: Option<Bytes>)
    ensures !(file.Some? && Walked(tools, cb, password, file.value).Ok?) ==> forall key :: Lacks(tools, cb, password, file, key)
    ensures file.Some? && Walked(tools, cb, password, file.value).Ok? ==>
              var local := LocalManifest(tools, cb, password, file.value);
              forall key :: Lacks(tools, cb, password, file, key) <==> key !in M.Keys(local.entries, |local.entries|)
  {
    hide Walked, LocalManifest, M.Keys;
  }

  lemma RemoteKeyIn(es: seq<M.ManifestEntry>)
    ensures forall i :: 0 <= i < |es| ==> M.KeyOf(es[i]) in M.Keys(es, |es|)
  {
    forall i | 0 <= i < |es|
      ensures M.KeyOf(es[i]) in M.Keys(es, |es|)
    {
      M.KeysAre(es, |es|, M.KeyOf(es[i]));
    }
  }

  lemma NothingIs(tools: Tools, cb: Codebook, password: Bytes, file: Option<Bytes>, remote: M.Manifest)
    ensures NothingMissing(tools, cb, password, file, remote) ==> file.Some? && Walked(tools, cb, password, file.value).Ok?
    ensures file.Some? && Walked(tools, cb, password, file.value).Ok? ==>
              var local := LocalManifest(tools, cb, password, file.value);
              NothingMissing(tools, cb, password, file, remote) <==>
                M.Keys(remote.entries, |remote.entries|) - M.Keys(local.entries, |local.entries|) == {}
  {
    hide Walked, LocalManifest, M.Keys;
    if file.Some? && Walked(tools, cb, password, file.value).Ok? {
      var local := LocalManifest(tools, cb, password, file.value);
      NoDifference(M.Keys(remote.entries, |remote.entries|), M.Keys(local.entries, |local.entries|));
    }
  }

  lemma NoDifference<T>(a: set<T>, b: set<T>)
    ensures a <= b <==> a - b == {}
  {
    if a - b == {} {
      forall x | x in a
        ensures x in b
      {
        assert x !in a - b;
      }
    }
  }

  lemma LocalManifestIs(tools: Tools, cb: Codebook, password: Bytes, file: Bytes)
    requires Walked(tools, cb, password, file).Ok?
    ensures var w := Walked(tools, cb, password, file).value;
            |w.0.entries| == |w.1| && LocalManifest(tools, cb, password, file) == ManifestOf(tools.sum64, w.0.header, w.0.entries, w.1)
  {
    hide Walked, ManifestOf;
    WalkedCount(tools, cb, password, file);
  }

  // Which chunks to ask for; nothing exactly if no key of the remote manifest is
  // missing locally, whatever the order and the number of the local chunks.
  method MissingIndexes(tools: Tools, cb: Codebook, password: Bytes, file: Option<Bytes>, remote: M.Manifest)
    returns (r: Option<seq<u32>>)
    requires remote.Valid()
    ensures r.Some? ==> Supplied(remote, r.value, tools.sum64, LocalChunks(tools, cb, password, file))
    ensures r.Some? ==> |r.value| <= |remote.entries| && forall j :: 0 <= j < |r.value| ==> r.value[j] < |remote.entries|
    ensures r.None? <==> NothingMissing(tools, cb, password, file, remote)
    ensures r.Some? && remote.entries != [] ==> r.value != []
    // Each index at most once and in order; exactly those whose key is lacking.
    ensures r.Some? ==> forall j, k :: 0 <= j < k < |r.value| ==> r.value[j] < r.value[k]
    ensures r.Some? ==> forall i :: 0 <= i < |remote.entries| ==> (i in r.value <==> Lacks(tools, cb, password, file, M.KeyOf(remote.entries[i])))
  {
    hide *;
    ManifestShape(remote);
    NothingIs(tools, cb, password, file, remote);
    LacksAll(tools, cb, password, file);
    AllSupplied(remote, tools.sum64, LocalChunks(tools, cb, password, file));
    if file.None? {
      return Some(UpTo(remote.chunkCount));
    }
    var local := GenerateManifest(tools, cb, password, file.value);
    if local.Err? {
      return Some(UpTo(remote.chunkCount));
    }
    var diff := M.Diff(local.value, remote);
    ghost var localKeys := M.Keys(local.value.entries, |local.value.entries|);
    M.MissingKeys(remote.entries, |remote.entries|, localKeys);
    var missingSet := M.KeySet(diff.missing);
    LocalManifestIs(tools, cb, password, file.value);
    LocalKeysAmong(tools, cb, password, file.value, local.value);
    NoKeys(diff.missing);
    RemoteKeys(remote, missingSet, localKeys, tools.sum64, LocalChunks(tools, cb, password, file));
    if |diff.missing| == 0 {
      return None;
    }
    var missing: seq<u32> := [];
    for i := 0 to |remote.entries|
      invariant |missing| <= i && forall j :: 0 <= j < |missing| ==> missing[j] < i
      invariant forall j, k :: 0 <= j < k < |missing| ==> missing[j] < missing[k]
      invariant forall k :: 0 <= k < i ==> (k in missing <==> M.KeyOf(remote.entries[k]) in missingSet)
    {
      if M.KeyOf(remote.entries[i]) in missingSet {
        missing := missing + [i];
      }
    }
    SomeLocal(remote, missing, missingSet, tools.sum64, LocalChunks(tools, cb, password, file));
    SomeMissing(remote, missing, missingSet, localKeys);
    RemoteKeyIn(remote.entries);
    return Some(missing);
  }

  lemma AllSupplied(m: M.Manifest, sum64: Bytes -> u64, chunks: seq<(u64, Bytes)>)
    requires m.Valid()
    ensures m.chunkCount < TWO_TO_32 && |UpTo(m.chunkCount)| == |m.entries| && Supplied(m, UpTo(m.chunkCount), sum64, chunks)
    ensures forall j :: 0 <= j < |UpTo(m.chunkCount)| ==> UpTo(m.chunkCount)[j] < |m.entries|
    ensures forall i :: 0 <= i < |m.entries| ==> i in UpTo(m.chunkCount)
    ensures forall j, k :: 0 <= j < k < |UpTo(m.chunkCount)| ==> UpTo(m.chunkCount)[j] < UpTo(m.chunkCount)[k]
  {
    hide KeyAmong;
    forall i | 0 <= i < |m.entries|
      ensures i in UpTo(m.chunkCount)
    {
      assert UpTo(m.chunkCount)[i] == i;
    }
  }

  // The keys of the local manifest are those of the local chunks.
  lemma LocalKeysAmong(tools: Tools, cb: Codebook, password: Bytes, file: Bytes, local: M.Manifest)
    requires Walked(tools, cb, password, file).Ok?
    requires var w := Walked(tools, cb, password, file).value;
             |w.0.entries| == |w.1| && local == ManifestOf(tools.sum64, w.0.header, w.0.entries, w.1)
    ensures var chunks := LocalChunks(tools, cb, password, Some(file));
            forall key :: key in M.Keys(local.entries, |local.entries|) ==> KeyAmong(key, tools.sum64, chunks)
  {
    hide Walked, M.Keys;
    var w, chunks := Walked(tools, cb, password, file).value, LocalChunks(tools, cb, password, Some(file));
    forall key | key in M.Keys(local.entries, |local.entries|)
      ensures KeyAmong(key, tools.sum64, chunks)
    {
      M.KeysAre(local.entries, |local.entries|, key);
      var i :| 0 <= i < |local.entries| && M.KeyOf(local.entries[i]) == key;
      assert chunks[i] == (w.0.entries[i].id, w.1[i]);
    }
  }

  lemma RemoteKeys(remote: M.Manifest, missing: set<M.ChunkKey>, localKeys: set<M.ChunkKey>, sum64: Bytes -> u64, chunks: seq<(u64, Bytes)>)
    requires missing == M.Keys(remote.entries, |remote.entries|) - localKeys
    requires forall key :: key in localKeys ==> KeyAmong(key, sum64, chunks)
    ensures forall i :: 0 <= i < |remote.entries| && M.KeyOf(remote.entries[i]) !in missing ==> KeyAmong(M.KeyOf(remote.entries[i]), sum64, chunks)
  {
    hide KeyAmong, M.Keys;
    forall i | 0 <= i < |remote.entries| && M.KeyOf(remote.entries[i]) !in missing
      ensures M.KeyOf(remote.entries[i]) in localKeys
    {
      M.KeysAre(remote.entries, |remote.entries|, M.KeyOf(remote.entries[i]));
    }
  }

  lemma NoKeys(es: seq<M.ManifestEntry>)
    ensures es == [] <==> M.Keys(es, |es|) == {}
  {
    if es != [] { assert M.KeyOf(es[|es| - 1]) in M.Keys(es, |es|); }
  }

  lemma SomeMissing(remote: M.Manifest, missing: seq<u32>, missingSet: set<M.ChunkKey>, localKeys: set<M.ChunkKey>)
    requires missingSet == M.Keys(remote.entries, |remote.entries|) - localKeys && missingSet != {}
    requires forall k :: 0 <= k < |remote.entries| && M.KeyOf(remote.entries[k]) in missingSet ==> k in missing
    ensures missing != []
  {
    var key :| key in missingSet;
    M.KeysAre(remote.entries, |remote.entries|, key);
    hide M.Keys;
    var i :| 0 <= i < |remote.entries| && M.KeyOf(remote.entries[i]) == key;
    assert i in missing;
  }

  lemma SomeLocal(remote: M.Manifest, missing: seq<u32>, missingSet: set<M.ChunkKey>, sum64: Bytes -> u64, chunks: seq<(u64, Bytes)>)
    requires forall k :: 0 <= k < |remote.entries| && M.KeyOf(remote.entries[k]) in missingSet ==> k in missing
    requires forall i :: 0 <= i < |remote.entries| && M.KeyOf(remote.entries[i]) !in missingSet ==> KeyAmong(M.KeyOf(remote.entries[i]), sum64, chunks)
    ensures Supplied(remote, missing, sum64, chunks)
  {
    hide KeyAmong;
  }

  // ----- the sender's side of the argument ----------------------------------------------------

  lemma ArchiveWalked(tools: Tools, cb: Codebook, password: Bytes, bytes: Bytes, input: Bytes, h: Header, bs: seq<seq<Piece>>, frames: seq<Bytes>)
    requires Archive(tools, Some(cb), password, bytes, input, h, bs, frames)
    ensures var w := Walked(tools, cb, password, bytes);
            w.Ok? && w.value.0.header == Kept(h) && w.value.0.entries == Entries(bs, |bs|) && w.value.1 == AllResiduals(bs, 0)
  {
    hide *;
    ArchiveIs(tools, Some(cb), password, bytes, input, h, bs, frames);
    FileReadBack(tools, password, bytes, h, bs, frames);
    WalkedParts(tools, cb, password, bytes);
    KeptFields(h);
    var m := ReadMetadata(tools, bytes, password).value;
    BoundariesRecovered(bs);
    SyncJobIs(tools, cb, m, bs, frames);
    var job := SyncJob(tools, cb, m).value;
    JobHolds(job, bs, frames);
    ResidualsReadBack(job, bs, frames, 0);
  }

  lemma JobHolds(job: Job, bs: seq<seq<Piece>>, frames: seq<Bytes>)
    requires WellFormed(bs) && |frames| == |bs|
    requires job.entries == Entries(bs, |bs|) && job.starts == TrueStarts(bs, 0) && job.sizes == Lengths(frames)
    requires forall k :: 0 <= k < |frames| ==> |frames[k]| < TWO_TO_32
    requires forall k :: 0 <= k < |bs| ==> OpenFrame(job.tools, job.key, job.dict, frames[k]) == Ok(Pool(bs[k], |bs[k]|))
    ensures Holds(job, bs, frames)
  {
    hide WellFormed, Entries, TrueStarts, Lengths, OpenFrame, Pool;
  }

  // Where chunk i of the table lies.
  lemma {:induction false} Locate(bs: seq<seq<Piece>>, i: nat, k: nat) returns (b: nat, j: nat)
    requires k <= |bs| && i < Start(bs, k)
    ensures b < k && j < |bs[b]| && i == Start(bs, b) + j
  {
    StartNext(bs, k - 1);
    hide Start;
    if i < Start(bs, k - 1) {
      b, j := Locate(bs, i, k - 1);
    } else {
      b, j := k - 1, i - Start(bs, k - 1);
    }
  }

  // The receiver takes every residual of a packed file.
  lemma ManifestAccepted(sum64: Bytes -> u64, h: Header, bs: seq<seq<Piece>>)
    requires WellFormed(bs) && RegularBlocks(bs) && h.chunkCount == Start(bs, |bs|)
    ensures |Entries(bs, |bs|)| == |AllResiduals(bs, 0)|
    ensures var m := ManifestOf(sum64, h, Entries(bs, |bs|), AllResiduals(bs, 0));
            Describes(m, sum64, bs) && Acceptable(m, AllResiduals(bs, 0))
  {
    hide *;
    ResidualsLength(bs, 0);
    StartZero(bs);
    var es, rs := Entries(bs, |bs|), AllResiduals(bs, 0);
    var m := ManifestOf(sum64, h, es, rs);
    ManifestEntries(sum64, h, es, rs);
    forall i | 0 <= i < |rs|
      ensures |rs[i]| <= Limit(m.entries[i].size)
    {
      var b, j := Locate(bs, i, |bs|);
      ResidualAt(bs, b, j, 0);
      EntryAt(bs, b, j, |bs|);
      BlockSizes(bs, b);
      SizeMonotone(bs[b], 0, j);
      SizeMonotone(bs[b], j + 1, |bs[b]|);
      PieceLimit(sum64, bs, b, j, es[i], rs[i], Base(bs, b) + PoolSize(bs[b], j));
    }
    AcceptableIs(m, rs);
    DescribesIs(m, sum64, bs);
  }

  lemma PieceLimit(sum64: Bytes -> u64, bs: seq<seq<Piece>>, b: nat, j: nat, e: ChunkEntry, residual: Bytes, at: nat)
    requires b < |bs| && j < |bs[b]| && RegularBlocks(bs) && residual == bs[b][j].residual && e == EntryOf(bs[b][j], at)
    requires Size(bs[b], j + 1) <= Size(bs[b], |bs[b]|) <= BLOCK_SIZE
    ensures |residual| <= Limit(EntryFor(sum64, e, residual).size)
  {
    assert Regular(bs[b]);
  }

  lemma ManifestEntries(sum64: Bytes -> u64, h: Header, es: seq<ChunkEntry>, rs: seq<Bytes>)
    requires |rs| == |es|
    ensures var m := ManifestOf(sum64, h, es, rs);
            && |m.entries| == |es| && m.chunkCount == h.chunkCount && m.originalSize == h.originalSize && m.originalHash == h.originalHash
            && forall i :: 0 <= i < |es| ==> m.entries[i] == EntryFor(sum64, es[i], rs[i])
  {
    hide EntryFor;
  }

  lemma AcceptableIs(m: M.Manifest, rs: seq<Bytes>)
    requires |rs| == |m.entries| == m.chunkCount && forall i :: 0 <= i < |rs| ==> |rs[i]| <= Limit(m.entries[i].size)
    ensures Acceptable(m, rs)
  {
    hide Limit;
  }

  lemma DescribesIs(m: M.Manifest, sum64: Bytes -> u64, bs: seq<seq<Piece>>)
    requires var es, rs := Entries(bs, |bs|), AllResiduals(bs, 0);
             |m.entries| == |es| == |rs| && forall i :: 0 <= i < |es| ==> m.entries[i] == EntryFor(sum64, es[i], rs[i])
    ensures Describes(m, sum64, bs)
  {
    hide Entries, AllResiduals, EntryFor;
  }

  // ----- the whole run ------------------------------------------------------------------------

  datatype Outcome = Failed(error: Error) | UpToDate | Synced(file: Bytes)

  // The file the seed serves, and what the writer knew of it.
  datatype Origin = Origin(input: Bytes, h: Header, bs: seq<seq<Piece>>, frames: seq<Bytes>)

  ghost function OriginManifest(sum64: Bytes -> u64, o: Origin): M.Manifest
    requires |Entries(o.bs, |o.bs|)| == |AllResiduals(o.bs, 0)|
  {
    ManifestOf(sum64, Kept(o.h), Entries(o.bs, |o.bs|), AllResiduals(o.bs, 0))
  }

  // The sizes of names, messages and tables that the protocol can carry.
  ghost predicate Fits(tools: Tools, name: Bytes, m: M.Manifest, key: Option<Bytes>, tableNonce: Bytes, bs: seq<seq<Piece>>) {
    && |name| < 0xfffe && 6 + |name| + 4 * |m.entries| <= MAX_REQUEST_SIZE
    && 46 + 21 * |m.entries| <= MAX_MANIFEST_SIZE
    && (forall bin :: M.IsBinary(bin, m) ==> |tools.CompressPool(bin, [])| <= MAX_MESSAGE_SIZE)
    && FitsFormat(tools, key, tableNonce, bs)
  }

  function NewKey(tools: Tools, password: Bytes, salt: Bytes): Option<Bytes> {
    if password != [] then Some(tools.deriveKey(password, salt)) else None
  }

  // A seed that serves a packed file to an authenticated peer, and no collision
  // between it and the version the peer has, if any.
  ghost predicate Syncable(client: Node, seed: Node, authenticated: bool, name: Bytes, file: Option<Bytes>, salt: Bytes,
                           tableNonce: Bytes, o: Origin)
  {
    && authenticated && seed.tools == client.tools && seed.cb == client.cb && CleanName(name) in seed.files
    && Archive(client.tools, Some(client.cb), seed.password, seed.files[CleanName(name)], o.input, o.h, o.bs, o.frames)
    && |Entries(o.bs, |o.bs|)| == |AllResiduals(o.bs, 0)|
    && Fits(client.tools, name, OriginManifest(client.tools.sum64, o), NewKey(client.tools, client.password, salt), tableNonce, o.bs)
    && NoCollisions(client.tools.sum64, AllResiduals(o.bs, 0), LocalChunks(client.tools, client.cb, client.password, file))
  }

  // How the sync then ends. It fails exactly if the local version cannot be used;
  // it ends up to date exactly if no key is missing there; otherwise there is a
  // new file with the table of the seed's, block for block, from which the seed's
  // input is restored.
  ghost predicate Ended(client: Node, file: Option<Bytes>, salt: Bytes, o: Origin, r: Outcome, frames: seq<Bytes>)
    requires |Entries(o.bs, |o.bs|)| == |AllResiduals(o.bs, 0)|
  {
    && (r.Failed? <==> !LocalUsable(client.tools, client.cb, client.password, file))
    && (r == UpToDate <==> NothingMissing(client.tools, client.cb, client.password, file, OriginManifest(client.tools.sum64, o)))
    && (r.Synced? ==>
          Archive(client.tools, Some(client.cb), client.password, r.file, o.input,
                  RebuiltHeader(OriginManifest(client.tools.sum64, o), client.password, salt), o.bs, frames))
  }

  // A version that can be walked through can be used.
  lemma WalkedUsable(tools: Tools, cb: Codebook, password: Bytes, file: Bytes)
    requires Walked(tools, cb, password, file).Ok?
    ensures LocalUsable(tools, cb, password, Some(file))
  {
    hide *;
    WalkedParts(tools, cb, password, file);
    LocalIs(tools, cb, password, Some(file));
    var m := ReadMetadata(tools, file, password).value;
    ResidualsScan(SyncJob(tools, cb, m).value, 0, m.pool);
  }

  lemma {:induction false} ResidualsScan(job: Job, i: nat, stream: Bytes)
    requires Walks(job) && i <= |job.sizes| && Residuals(job, i, stream).Ok?
    ensures Scannable(job, i, stream)
    decreases |job.sizes| - i
  {
    hide *;
    ScannableUnfold(job, i, stream);
    if i < |job.sizes| {
      ResidualsStep(job, i, stream);
      var (pool, rest) := OpenBlock(job, i, stream).value;
      ResidualsScan(job, i + 1, rest);
      var first, end := First(job, i), First(job, i + 1);
      BlockResidualsScan(job.entries, pool, job.entries[first].offset, first, end);
    }
  }

  lemma BlockResidualsScan(es: seq<ChunkEntry>, pool: Bytes, base: u64, first: nat, end: nat)
    requires first <= end <= |es| && BlockResiduals(es, pool, base, first, end).Ok?
    ensures BlockScans(es, pool, base, first, end)
  {
    forall k | first <= k < end
      ensures EntryScans(es[k], pool, base)
    {
      BlockResidualAt(es, pool, base, first, end, k);
      hide BlockResiduals;
    }
  }

  method FetchManifest(client: Node, seed: Node, authenticated: bool, name: Bytes, ghost file: Option<Bytes>, ghost salt: Bytes,
                       ghost tableNonce: Bytes, ghost o: Origin) returns (r: Result<M.Manifest>)
    ensures r.Ok? ==> r.value.Valid()
    ensures !authenticated ==> r.Err?
    ensures |name| <= MAX_REQUEST_SIZE && NotServed(seed, name) ==> r.Err?
    ensures Syncable(client, seed, authenticated, name, file, salt, tableNonce, o) ==>
              |Entries(o.bs, |o.bs|)| == |AllResiduals(o.bs, 0)| && r == Ok(OriginManifest(client.tools.sum64, o))
  {
    hide *;
    ghost var honest := Syncable(client, seed, authenticated, name, file, salt, tableNonce, o);
    if honest {
      NameFits(client, seed, authenticated, name, file, salt, tableNonce, o);
      OriginIsManifest(client.tools.sum64, o);
    }
    Kinds();
    RefusalRead();
    NameArrives(name);
    var reply, bin := Answer(seed, authenticated, Message(MSG_SYNC_REQ, name));
    if honest { ManifestArrives(client, seed, authenticated, name, file, salt, tableNonce, o, bin, reply); }
    var got := ReadMessage(reply, MAX_MESSAGE_SIZE);
    if got.Err? {
      return Err(got.error);
    }
    if got.value.0 != MSG_MANIFEST {
      return Err(BadMessage);
    }
    var plain := client.tools.DecompressPool(got.value.1, []);
    if plain.Err? {
      return Err(plain.error);
    }
    if |plain.value| > MAX_MANIFEST_SIZE {
      return Err(BadMessage);
    }
    if honest { BinaryIs(plain.value); }
    r := M.FromBinary(plain.value);
    if r.Ok? {
      Parsed(plain.value, r.value);
      if honest { ManifestRead(bin, OriginManifest(client.tools.sum64, o), r.value); }
      if r.value.chunkCount == 0 && r.value.originalSize > 0 {
        return Err(BadMessage);
      }
    }
  }

  lemma NameArrives(name: Bytes)
    ensures |name| <= MAX_REQUEST_SIZE ==> ReadMessage(Message(MSG_SYNC_REQ, name), MAX_REQUEST_SIZE) == Ok((MSG_SYNC_REQ, name))
  {
    if |name| <= MAX_REQUEST_SIZE {
      hide Message, ReadMessage;
      MessageReadBack(MSG_SYNC_REQ, name, MAX_REQUEST_SIZE);
    }
  }

  lemma RefusalRead()
    ensures ReadMessage(Message(MSG_ERROR, []), MAX_MESSAGE_SIZE) == Ok((MSG_ERROR, []))
  {
    hide Message, ReadMessage;
    MessageReadBack(MSG_ERROR, [], MAX_MESSAGE_SIZE);
  }

  lemma Parsed(b: Bytes, m: M.Manifest)
    requires M.Parses(b, m)
    ensures m.Valid()
  {
    hide Field, M.EntryAt, GetU16, GetU32, GetU64;
  }

  lemma ManifestRead(bin: Bytes, m: M.Manifest, m': M.Manifest)
    requires m.Valid() && M.IsBinary(bin, m) && M.Parses(bin, m')
    ensures m' == m
  {
    hide *;
    assert bin + [] == bin;
    M.ManifestReadBack(bin, [], m, m');
  }

  lemma SyncableParts(client: Node, seed: Node, authenticated: bool, name: Bytes, file: Option<Bytes>, salt: Bytes,
                      tableNonce: Bytes, o: Origin)
    requires Syncable(client, seed, authenticated, name, file, salt, tableNonce, o)
    ensures authenticated && seed.tools == client.tools && seed.cb == client.cb && CleanName(name) in seed.files
    ensures Archive(client.tools, Some(client.cb), seed.password, seed.files[CleanName(name)], o.input, o.h, o.bs, o.frames)
    ensures |Entries(o.bs, |o.bs|)| == |AllResiduals(o.bs, 0)|
    ensures Fits(client.tools, name, OriginManifest(client.tools.sum64, o), NewKey(client.tools, client.password, salt), tableNonce, o.bs)
    ensures NoCollisions(client.tools.sum64, AllResiduals(o.bs, 0), LocalChunks(client.tools, client.cb, client.password, file))
  {
    hide Archive, Entries, AllResiduals, Fits, NoCollisions, LocalChunks, CleanName;
  }

  lemma NameFits(client: Node, seed: Node, authenticated: bool, name: Bytes, file: Option<Bytes>, salt: Bytes, tableNonce: Bytes, o: Origin)
    requires Syncable(client, seed, authenticated, name, file, salt, tableNonce, o)
    ensures authenticated && seed.tools == client.tools && seed.cb == client.cb && CleanName(name) in seed.files
    ensures ReadMessage(Message(MSG_SYNC_REQ, name), MAX_REQUEST_SIZE) == Ok((MSG_SYNC_REQ, name))
    ensures var w := Walked(seed.tools, seed.cb, seed.password, seed.files[CleanName(name)]);
            && w.Ok? && w.value.0.header == Kept(o.h) && w.value.0.entries == Entries(o.bs, |o.bs|) && w.value.1 == AllResiduals(o.bs, 0)
    ensures |Entries(o.bs, |o.bs|)| == |AllResiduals(o.bs, 0)|
  {
    hide *;
    SyncableParts(client, seed, authenticated, name, file, salt, tableNonce, o);
    ArchiveWalked(client.tools, client.cb, seed.password, seed.files[CleanName(name)], o.input, o.h, o.bs, o.frames);
    FitsParts(client.tools, name, OriginManifest(client.tools.sum64, o), NewKey(client.tools, client.password, salt), tableNonce, o.bs);
    MessageReadBack(MSG_SYNC_REQ, name, MAX_REQUEST_SIZE);
  }

  lemma FitsParts(tools: Tools, name: Bytes, m: M.Manifest, key: Option<Bytes>, tableNonce: Bytes, bs: seq<seq<Piece>>)
    requires Fits(tools, name, m, key, tableNonce, bs)
    ensures |name| < 0xfffe && 6 + |name| + 4 * |m.entries| <= MAX_REQUEST_SIZE <= MAX_MESSAGE_SIZE < TWO_TO_32
    ensures |name| <= MAX_REQUEST_SIZE && |name| < TWO_TO_32
    ensures 46 + 21 * |m.entries| <= MAX_MANIFEST_SIZE
    ensures forall bin :: M.IsBinary(bin, m) ==> |bin| <= MAX_MANIFEST_SIZE && |tools.CompressPool(bin, [])| <= MAX_MESSAGE_SIZE
    ensures FitsFormat(tools, key, tableNonce, bs)
  {
    hide M.Head, M.Columns, FitsFormat, Tools.CompressPool;
  }

  lemma ManifestArrives(client: Node, seed: Node, authenticated: bool, name: Bytes, file: Option<Bytes>, salt: Bytes, tableNonce: Bytes,
                        o: Origin, bin: Bytes, reply: Bytes)
    requires Syncable(client, seed, authenticated, name, file, salt, tableNonce, o)
    requires |Entries(o.bs, |o.bs|)| == |AllResiduals(o.bs, 0)|
    requires M.IsBinary(bin, OriginManifest(client.tools.sum64, o)) && OriginManifest(client.tools.sum64, o).Valid()
    requires reply == Message(MSG_MANIFEST, client.tools.CompressPool(bin, []))
    ensures ReadMessage(reply, MAX_MESSAGE_SIZE) == Ok((MSG_MANIFEST, client.tools.CompressPool(bin, [])))
    ensures client.tools.DecompressPool(client.tools.CompressPool(bin, []), []) == Ok(bin) && |bin| <= MAX_MANIFEST_SIZE
    ensures BinaryIsRead(bin) && OriginManifest(client.tools.sum64, o).chunkCount > 0
  {
    hide *;
    var m := OriginManifest(client.tools.sum64, o);
    SyncableParts(client, seed, authenticated, name, file, salt, tableNonce, o);
    ArchiveIs(client.tools, Some(client.cb), seed.password, seed.files[CleanName(name)], o.input, o.h, o.bs, o.frames);
    FitsParts(client.tools, name, m, NewKey(client.tools, client.password, salt), tableNonce, o.bs);
    MessageReadBack(MSG_MANIFEST, client.tools.CompressPool(bin, []), MAX_MESSAGE_SIZE);
    PoolInverse(client.tools, bin);
    BinaryReads(bin, m);
    OriginIs(client.tools.sum64, o);
  }

  ghost predicate BinaryIsRead(b: Bytes) {
    |b| >= M.HEADER_SIZE && |b| >= M.HEADER_SIZE + GetU32(Field(b, 42, 4)) * M.ENTRY_SIZE
  }

  lemma BinaryIs(b: Bytes)
    ensures BinaryIsRead(b) <==> |b| >= M.HEADER_SIZE && |b| >= M.HEADER_SIZE + GetU32(Field(b, 42, 4)) * M.ENTRY_SIZE
  {
    hide GetU32, Field;
  }

  lemma OriginIsManifest(sum64: Bytes -> u64, o: Origin)
    requires |Entries(o.bs, |o.bs|)| == |AllResiduals(o.bs, 0)|
    ensures OriginManifest(sum64, o) == ManifestOf(sum64, Kept(o.h), Entries(o.bs, |o.bs|), AllResiduals(o.bs, 0))
  {
    hide ManifestOf, Kept, Entries, AllResiduals;
  }

  lemma BinaryReads(b: Bytes, m: M.Manifest)
    requires M.IsBinary(b, m) && m.Valid()
    ensures BinaryIsRead(b)
  {
    GetU32Put(m.chunkCount);
    hide GetU32, U32, U16, U64, Field, M.Columns;
  }

  lemma PoolInverse(tools: Tools, b: Bytes)
    requires tools.Valid()
    ensures tools.DecompressPool(tools.CompressPool(b, []), []) == Ok(b)
  {
  }

  lemma OriginIs(sum64: Bytes -> u64, o: Origin)
    requires |Entries(o.bs, |o.bs|)| == |AllResiduals(o.bs, 0)| && o.h.Valid() && 5 <= o.h.version <= 8
    requires o.h.chunkCount == Start(o.bs, |o.bs|)
    ensures var m := OriginManifest(sum64, o);
            && m.chunkCount == o.h.chunkCount == |m.entries| && m.originalSize == o.h.originalSize && m.originalHash == o.h.originalHash
            && |m.originalHash| == 32 && m.Valid()
            && m == ManifestOf(sum64, Kept(o.h), Entries(o.bs, |o.bs|), AllResiduals(o.bs, 0)) && Kept(o.h).chunkCount == o.h.chunkCount
  {
    KeptFields(o.h);
    hide Kept, EntryFor, AllResiduals;
  }

  lemma {:induction false} SortedMembers(s: seq<u32>)
    ensures |Sorted(s)| == |s| && forall x :: x in Sorted(s) <==> x in s
  {
    SortedAscends(s);
    assert |multiset(Sorted(s))| == |multiset(s)|;
    forall x ensures x in Sorted(s) <==> x in s {
      assert x in multiset(Sorted(s)) <==> x in multiset(s);
    }
  }

  // The request reaches the seed, and the seed sends what it asks for.
  lemma RequestArrives(name: Bytes, missing: seq<u32>)
    requires |name| < 0xfffe && 6 + |name| + 4 * |missing| <= MAX_REQUEST_SIZE
    ensures ReadMessage(Message(MSG_DIFF_REQ, DiffRequest(name, missing)), MAX_REQUEST_SIZE) == Ok((MSG_DIFF_REQ, DiffRequest(name, missing)))
    ensures ReadDiffRequest(DiffRequest(name, missing)) == Ok((name, missing))
  {
    hide *;
    LimitIs();
    RequestLength(name, missing);
    MessageReadBack(MSG_DIFF_REQ, DiffRequest(name, missing), MAX_REQUEST_SIZE);
    RequestReadBack(name, missing);
  }

  lemma SuppliedSorted(m: M.Manifest, missing: seq<u32>, sum64: Bytes -> u64, chunks: seq<(u64, Bytes)>)
    requires Supplied(m, missing, sum64, chunks)
    ensures Supplied(m, Sorted(missing), sum64, chunks)
  {
    hide Sorted, KeyAmong;
    SortedMembers(missing);
  }

  lemma ServedHere(client: Node, seed: Node, authenticated: bool, name: Bytes, file: Option<Bytes>, salt: Bytes, tableNonce: Bytes, o: Origin,
                   missing: seq<u32>, wire: Bytes)
    requires Syncable(client, seed, authenticated, name, file, salt, tableNonce, o)
    requires |Entries(o.bs, |o.bs|)| == |AllResiduals(o.bs, 0)| && LocalUsable(client.tools, client.cb, client.password, file)
    requires var m := OriginManifest(client.tools.sum64, o);
             && Supplied(m, missing, client.tools.sum64, LocalChunks(client.tools, client.cb, client.password, file))
             && forall j :: 0 <= j < |missing| ==> missing[j] < |m.entries|
    requires wire == Wire(AllResiduals(o.bs, 0), Sorted(missing), 0)
    ensures Served(client.tools, client.cb, OriginManifest(client.tools.sum64, o), |missing|, wire, file, client.password, o.bs, Sorted(missing))
  {
    hide *;
    var rs, m := AllResiduals(o.bs, 0), OriginManifest(client.tools.sum64, o);
    SyncableParts(client, seed, authenticated, name, file, salt, tableNonce, o);
    ArchiveIs(client.tools, Some(client.cb), seed.password, seed.files[CleanName(name)], o.input, o.h, o.bs, o.frames);
    OriginIs(client.tools.sum64, o);
    ManifestAccepted(client.tools.sum64, Kept(o.h), o.bs);
    SortedMembers(missing);
    SuppliedSorted(m, missing, client.tools.sum64, LocalChunks(client.tools, client.cb, client.password, file));
    OnWireIs(rs, Sorted(missing), 0, wire);
    SortedBelow(missing, |m.entries|);
    ServedIs(client.tools, client.cb, m, |missing|, wire, file, client.password, o.bs, Sorted(missing));
  }

  lemma SortedBelow(s: seq<u32>, n: nat)
    requires forall j :: 0 <= j < |s| ==> s[j] < n
    ensures forall j :: 0 <= j < |Sorted(s)| ==> Sorted(s)[j] < n
  {
    SortedMembers(s);
    forall j | 0 <= j < |Sorted(s)|
      ensures Sorted(s)[j] < n
    {
      assert Sorted(s)[j] in s;
    }
  }

  lemma {:induction false} PoolWithin(ps: seq<Piece>, n: nat)
    requires Regular(ps) && n <= |ps|
    ensures PoolSize(ps, n) <= Size(ps, n)
  {
    if n > 0 { PoolWithin(ps, n - 1); }
  }

  // The file put together is a packed file again, with the same blocks.
  lemma ArchiveMade(client: Node, seed: Node, authenticated: bool, name: Bytes, file: Option<Bytes>, salt: Bytes, tableNonce: Bytes, o: Origin,
                    nonces: nat -> Bytes, out: Bytes, frames: seq<Bytes>)
    requires Syncable(client, seed, authenticated, name, file, salt, tableNonce, o) && |salt| == 16
    requires |Entries(o.bs, |o.bs|)| == |AllResiduals(o.bs, 0)|
    requires var h := RebuiltHeader(OriginManifest(client.tools.sum64, o), client.password, salt);
             && h.Valid() && out == FileBytes(client.tools, NewKey(client.tools, client.password, salt), tableNonce, h, Entries(o.bs, |o.bs|), frames)
    requires FramesWritten(client.tools, NewKey(client.tools, client.password, salt), nonces, client.cb.dictionary, o.bs, frames)
    ensures Archive(client.tools, Some(client.cb), client.password, out, o.input,
                    RebuiltHeader(OriginManifest(client.tools.sum64, o), client.password, salt), o.bs, frames)
  {
    hide *;
    var tools, cb, m := client.tools, client.cb, OriginManifest(client.tools.sum64, o);
    var key := NewKey(tools, client.password, salt);
    SyncableParts(client, seed, authenticated, name, file, salt, tableNonce, o);
    ArchiveIs(tools, Some(cb), seed.password, seed.files[CleanName(name)], o.input, o.h, o.bs, o.frames);
    FitsParts(tools, name, m, key, tableNonce, o.bs);
    OriginIs(tools.sum64, o);
    RebuiltHeaderValid(tools, m, client.password, salt);
    NewKeyIs(tools, client.password, salt);
    FrameCount(tools, key, nonces, cb.dictionary, o.bs, frames);
    forall k | 0 <= k < |o.bs|
      ensures |frames[k]| < TWO_TO_32 && OpenFrame(tools, key, cb.dictionary, frames[k]) == Ok(Pool(o.bs[k], |o.bs[k]|))
    {
      NewFrame(tools, key, nonces, cb.dictionary, o.bs, frames, k);
    }
    FileLaidOut(tools, client.password, RebuiltHeader(m, client.password, salt), tableNonce, o.bs, frames);
    ArchiveHolds(tools, Some(cb), client.password, out, o.input, RebuiltHeader(m, client.password, salt), o.bs, frames);
  }

  lemma NewKeyIs(tools: Tools, password: Bytes, salt: Bytes)
    ensures NewKey(tools, password, salt) == if password != [] then Some(tools.deriveKey(password, salt)) else None
  {
  }

  lemma NewFrame(tools: Tools, key: Option<Bytes>, nonces: nat -> Bytes, dict: Bytes, bs: seq<seq<Piece>>, frames: seq<Bytes>, k: nat)
    requires tools.Valid() && WellFormed(bs) && RegularBlocks(bs) && FramesWritten(tools, key, nonces, dict, bs, frames) && k < |bs|
    ensures |frames| == |bs| && |frames[k]| < TWO_TO_32 && OpenFrame(tools, key, dict, frames[k]) == Ok(Pool(bs[k], |bs[k]|))
  {
    BlockSizes(bs, k);
    assert Regular(bs[k]);
    PoolWithin(bs[k], |bs[k]|);
    PoolLength(bs[k], |bs[k]|);
    FrameRoundTrip(tools, key, nonces(k), dict, Pool(bs[k], |bs[k]|));
    hide Tools.Valid, WellFormed, RegularBlocks, Regular, Frame, OpenFrame, Pool, PoolSize, Size;
  }

  function LocalFile(client: Node, name: Bytes): Option<Bytes> {
    if CleanName(name) in client.files then Some(client.files[CleanName(name)]) else None
  }

  // One sync, both ends. With an honest seed it never lacks a chunk, and how it ends
  // can be told from the two manifests and the local version beforehand.
  method RequestSync(client: Node, seed: Node, authenticated: bool, name: Bytes, salt: Bytes, nonces: nat -> Bytes, tableNonce: Bytes,
                     ghost o: Origin)
    returns (r: Outcome, ghost frames: seq<Bytes>, ghost asked: seq<u32>, ghost wire: Bytes)
    requires |salt| == 16
    ensures !authenticated ==> r.Failed?
    ensures |name| <= MAX_REQUEST_SIZE && NotServed(seed, name) ==> r.Failed?
    ensures !LocalUsable(client.tools, client.cb, client.password, LocalFile(client, name)) ==> r.Failed? || r == UpToDate
    ensures Syncable(client, seed, authenticated, name, LocalFile(client, name), salt, tableNonce, o) ==>
              |Entries(o.bs, |o.bs|)| == |AllResiduals(o.bs, 0)| && Ended(client, LocalFile(client, name), salt, o, r, frames)
    // What the seed sends are the residuals of the chunks whose key the client lacks,
    // each once and in order.
    ensures Syncable(client, seed, authenticated, name, LocalFile(client, name), salt, tableNonce, o) ==>
              && wire == Wire(AllResiduals(o.bs, 0), asked, 0) && (r == UpToDate ==> asked == [])
              && (forall j, k :: 0 <= j < k < |asked| ==> asked[j] < asked[k])
              && var entries := OriginManifest(client.tools.sum64, o).entries;
                 r != UpToDate ==> forall i :: 0 <= i < |entries| ==>
                   (i in asked <==> Lacks(client.tools, client.cb, client.password, LocalFile(client, name), M.KeyOf(entries[i])))
  {
    hide *;
    frames, asked, wire := [], [], [];
    WireNone(AllResiduals(o.bs, 0));
    var file := LocalFile(client, name);
    ghost var honest := Syncable(client, seed, authenticated, name, file, salt, tableNonce, o);
    ghost var usable := LocalUsable(client.tools, client.cb, client.password, file);
    var remote := FetchManifest(client, seed, authenticated, name, file, salt, tableNonce, o);
    if remote.Err? {
      return Failed(remote.error), [], [], [];
    }
    if honest {
      SyncableParts(client, seed, authenticated, name, file, salt, tableNonce, o);
      SomeEntries(client, seed, authenticated, name, file, salt, tableNonce, o);
      EndsUpToDate(client, file, salt, o);
    }
    var missing := MissingIndexes(client.tools, client.cb, client.password, file, remote.value);
    if missing.None? || |missing.value| == 0 {
      return UpToDate, [], [], [];
    }
    if honest {
      EndsFailed(client, file, salt, o);
      NameFits(client, seed, authenticated, name, file, salt, tableNonce, o);
      FitsParts(client.tools, name, remote.value, NewKey(client.tools, client.password, salt), tableNonce, o.bs);
      RequestArrives(name, missing.value);
    }
    var sent, _ := Answer(seed, authenticated, Message(MSG_DIFF_REQ, DiffRequest(name, missing.value)));
    SortedAlready(missing.value);
    asked, wire := missing.value, sent;
    if honest && usable { ServedHere(client, seed, authenticated, name, file, salt, tableNonce, o, missing.value, sent); }
    NewKeyIs(client.tools, client.password, salt);
    var made, written := ReceiveChunks(client.tools, client.cb, remote.value, |missing.value|, sent, file, client.password, salt, nonces, tableNonce,
                                       o.bs, Sorted(missing.value));
    if made.Err? {
      return Failed(made.error), [], asked, wire;
    }
    frames := written;
    r := Synced(made.value);
    if honest {
      ArchiveMade(client, seed, authenticated, name, file, salt, tableNonce, o, nonces, made.value, frames);
      EndsSynced(client, file, salt, o, made.value, frames);
    }
  }

  lemma WireNone(rs: seq<Bytes>)
    ensures Wire(rs, [], 0) == []
  {
  }

  // A packed file has chunks.
  lemma SomeEntries(client: Node, seed: Node, authenticated: bool, name: Bytes, file: Option<Bytes>, salt: Bytes, tableNonce: Bytes, o: Origin)
    requires Syncable(client, seed, authenticated, name, file, salt, tableNonce, o)
    ensures |Entries(o.bs, |o.bs|)| == |AllResiduals(o.bs, 0)| && OriginManifest(client.tools.sum64, o).entries != []
  {
    hide *;
    SyncableParts(client, seed, authenticated, name, file, salt, tableNonce, o);
    ArchiveIs(client.tools, Some(client.cb), seed.password, seed.files[CleanName(name)], o.input, o.h, o.bs, o.frames);
    OriginIs(client.tools.sum64, o);
  }

  lemma EndsUpToDate(client: Node, file: Option<Bytes>, salt: Bytes, o: Origin)
    requires |Entries(o.bs, |o.bs|)| == |AllResiduals(o.bs, 0)|
    ensures NothingMissing(client.tools, client.cb, client.password, file, OriginManifest(client.tools.sum64, o)) ==> Ended(client, file, salt, o, UpToDate, [])
  {
    hide OriginManifest, LocalUsable, NothingMissing, Entries, AllResiduals;
    NothingIs(client.tools, client.cb, client.password, file, OriginManifest(client.tools.sum64, o));
    if NothingMissing(client.tools, client.cb, client.password, file, OriginManifest(client.tools.sum64, o)) {
      WalkedUsable(client.tools, client.cb, client.password, file.value);
    }
    hide Walked, LocalManifest;
  }

  lemma EndsFailed(client: Node, file: Option<Bytes>, salt: Bytes, o: Origin)
    requires |Entries(o.bs, |o.bs|)| == |AllResiduals(o.bs, 0)|
    requires !NothingMissing(client.tools, client.cb, client.password, file, OriginManifest(client.tools.sum64, o))
    ensures !LocalUsable(client.tools, client.cb, client.password, file) ==> forall e :: Ended(client, file, salt, o, Failed(e), [])
  {
    hide OriginManifest, LocalUsable, NothingMissing, Entries, AllResiduals;
  }

  lemma EndsSynced(client: Node, file: Option<Bytes>, salt: Bytes, o: Origin, out: Bytes, frames: seq<Bytes>)
    requires |Entries(o.bs, |o.bs|)| == |AllResiduals(o.bs, 0)|
    requires LocalUsable(client.tools, client.cb, client.password, file)
    requires !NothingMissing(client.tools, client.cb, client.password, file, OriginManifest(client.tools.sum64, o))
    requires Archive(client.tools, Some(client.cb), client.password, out, o.input,
                     RebuiltHeader(OriginManifest(client.tools.sum64, o), client.password, salt), o.bs, frames)
    ensures Ended(client, file, salt, o, Synced(out), frames)
  {
    hide Archive, RebuiltHeader, OriginManifest, LocalUsable, NothingMissing, Entries, AllResiduals;
  }

  lemma EndedIs(client: Node, file: Option<Bytes>, salt: Bytes, o: Origin, r: Outcome, frames: seq<Bytes>)
    requires |Entries(o.bs, |o.bs|)| == |AllResiduals(o.bs, 0)| && Ended(client, file, salt, o, r, frames)
    ensures r.Failed? <==> !LocalUsable(client.tools, client.cb, client.password, file)
    ensures r == UpToDate <==> NothingMissing(client.tools, client.cb, client.password, file, OriginManifest(client.tools.sum64, o))
    ensures r.Synced? ==>
              Archive(client.tools, Some(client.cb), client.password, r.file, o.input,
                      RebuiltHeader(OriginManifest(client.tools.sum64, o), client.password, salt), o.bs, frames)
  {
    hide Archive, RebuiltHeader, OriginManifest, LocalUsable, NothingMissing, Entries, AllResiduals;
  }

  // A synced file unpacks to the seed's input, and has the seed's table.
  lemma SyncedRestores(client: Node, file: Option<Bytes>, salt: Bytes, o: Origin, out: Bytes, frames: seq<Bytes>, strict: bool)
    requires |Entries(o.bs, |o.bs|)| == |AllResiduals(o.bs, 0)| && Ended(client, file, salt, o, Synced(out), frames)
    ensures Unpacked(client.tools, Some(client.cb), client.password, strict, out) == Ok((o.input, 0 as nat))
    ensures var m := ReadMetadata(client.tools, out, client.password); m.Ok? && m.value.entries == Entries(o.bs, |o.bs|)
    // With a password of its own, a client's file is not read without one.
    ensures client.password != [] ==> ReadMetadata(client.tools, out, []) == Err(NoKey)
  {
    var h := RebuiltHeader(OriginManifest(client.tools.sum64, o), client.password, salt);
    hide *;
    EndedIs(client, file, salt, o, Synced(out), frames);
    ArchiveRestored(client.tools, Some(client.cb), client.password, strict, out, o.input, h, o.bs, frames);
    ArchiveIs(client.tools, Some(client.cb), client.password, out, o.input, h, o.bs, frames);
    FileReadBack(client.tools, client.password, out, h, o.bs, frames);
    SealedAtRest(client, salt, o);
    if client.password != [] { LockedFile(client.tools, client.password, out, h, o.bs, frames); }
  }

  lemma SealedAtRest(client: Node, salt: Bytes, o: Origin)
    requires |Entries(o.bs, |o.bs|)| == |AllResiduals(o.bs, 0)|
    ensures RebuiltHeader(OriginManifest(client.tools.sum64, o), client.password, salt).isEncrypted == (client.password != [])
  {
    hide OriginManifest, Entries, AllResiduals;
  }

  lemma LockedFile(tools: Tools, password: Bytes, bytes: Bytes, h: Header, bs: seq<seq<Piece>>, frames: seq<Bytes>)
    requires IsFile(tools, password, bytes, h, bs, frames) && h.isEncrypted
    ensures ReadMetadata(tools, bytes, []) == Err(NoKey)
  {
    hide *;
    var nonce := FileParts(tools, password, bytes, h, bs, frames);
    var table := TableBytes(tools, KeyFor(tools, h, password).value, nonce, Entries(bs, |bs|));
    NoKeyNoFile(tools, h, SizesBytes(Lengths(frames), 0) + (table + Concat(frames, 0)));
  }

  // ----- what the client holds afterwards -------------------------------------------------------

  // The file under the name once the sync has ended.
  function Afterwards(file: Option<Bytes>, r: Outcome): Option<Bytes> {
    if r.Synced? then Some(r.file) else file
  }

  // Two tables that describe the same chunks: only where their residuals lie in
  // the pool may differ.
  ghost predicate SameTable(es: seq<ChunkEntry>, rs: seq<Bytes>, es': seq<ChunkEntry>, rs': seq<Bytes>) {
    && |es| == |rs| == |es'| == |rs'| && rs == rs'
    && forall i :: 0 <= i < |es| ==> es[i].id == es'[i].id && es[i].size == es'[i].size && es[i].index == es'[i].index
  }

  // The client's file has the chunks of these blocks, in their order.
  ghost predicate HoldsTable(client: Node, file: Option<Bytes>, bs: seq<seq<Piece>>) {
    && file.Some? && Walked(client.tools, client.cb, client.password, file.value).Ok?
    && var w := Walked(client.tools, client.cb, client.password, file.value).value;
       SameTable(w.0.entries, w.1, Entries(bs, |bs|), AllResiduals(bs, 0))
  }

  // The local manifest has the entries of the seed's.
  ghost predicate SameEntries(client: Node, file: Option<Bytes>, o: Origin)
    requires |Entries(o.bs, |o.bs|)| == |AllResiduals(o.bs, 0)|
  {
    && file.Some? && Walked(client.tools, client.cb, client.password, file.value).Ok?
    && LocalManifest(client.tools, client.cb, client.password, file.value).entries == OriginManifest(client.tools.sum64, o).entries
  }

  // Without collisions equal manifests are those of equal tables.
  lemma SameTableIff(sum64: Bytes -> u64, h: Header, es: seq<ChunkEntry>, rs: seq<Bytes>, h': Header, es': seq<ChunkEntry>, rs': seq<Bytes>)
    requires |es| == |rs| && |es'| == |rs'|
    requires forall i, k :: 0 <= i < |rs'| && 0 <= k < |rs| && sum64(rs'[i]) == sum64(rs[k]) ==> rs'[i] == rs[k]
    ensures ManifestOf(sum64, h, es, rs).entries == ManifestOf(sum64, h', es', rs').entries <==> SameTable(es, rs, es', rs')
  {
    var a, b := ManifestOf(sum64, h, es, rs).entries, ManifestOf(sum64, h', es', rs').entries;
    if a == b {
      forall i | 0 <= i < |es|
        ensures es[i].id == es'[i].id && es[i].size == es'[i].size && es[i].index == es'[i].index && rs[i] == rs'[i]
      {
        assert a[i] == EntryFor(sum64, es[i], rs[i]) && b[i] == EntryFor(sum64, es'[i], rs'[i]);
      }
    } else if SameTable(es, rs, es', rs') {
      SameElements(a, b);
    }
  }

  // After a run with an honest seed the client holds a file with the seed's table
  // if and only if its version could be used and either lacked some key or had the
  // seed's manifest entry for entry already.
  lemma HeldAfterwards(client: Node, seed: Node, authenticated: bool, name: Bytes, file: Option<Bytes>, salt: Bytes, tableNonce: Bytes, o: Origin,
                       r: Outcome, frames: seq<Bytes>)
    requires Syncable(client, seed, authenticated, name, file, salt, tableNonce, o)
    requires |Entries(o.bs, |o.bs|)| == |AllResiduals(o.bs, 0)| && Ended(client, file, salt, o, r, frames)
    ensures HoldsTable(client, Afterwards(file, r), o.bs) <==>
              && LocalUsable(client.tools, client.cb, client.password, file)
              && (!NothingMissing(client.tools, client.cb, client.password, file, OriginManifest(client.tools.sum64, o)) || SameEntries(client, file, o))
  {
    hide *;
    EndedIs(client, file, salt, o, r, frames);
    SyncableParts(client, seed, authenticated, name, file, salt, tableNonce, o);
    AfterwardsIs(file, r);
    if r.Synced? {
      ArchiveWalked(client.tools, client.cb, client.password, r.file, o.input,
                    RebuiltHeader(OriginManifest(client.tools.sum64, o), client.password, salt), o.bs, frames);
      HoldsIs(client, Some(r.file), o.bs);
      TableOfItself(Entries(o.bs, |o.bs|), AllResiduals(o.bs, 0));
    } else {
      NothingIs(client.tools, client.cb, client.password, file, OriginManifest(client.tools.sum64, o));
      HoldsIs(client, file, o.bs);
      SameEntriesIs(client, file, o);
      if file.Some? && Walked(client.tools, client.cb, client.password, file.value).Ok? {
        WalkedUsable(client.tools, client.cb, client.password, file.value);
        LocalManifestIs(client.tools, client.cb, client.password, file.value);
        OriginIsManifest(client.tools.sum64, o);
        var w := Walked(client.tools, client.cb, client.password, file.value).value;
        NoneCollide(client.tools, client.cb, client.password, file.value, AllResiduals(o.bs, 0));
        SameTableIff(client.tools.sum64, w.0.header, w.0.entries, w.1, Kept(o.h), Entries(o.bs, |o.bs|), AllResiduals(o.bs, 0));
      }
    }
  }

  lemma AfterwardsIs(file: Option<Bytes>, r: Outcome)
    ensures Afterwards(file, r) == if r.Synced? then Some(r.file) else file
  {
  }

  lemma HoldsIs(client: Node, file: Option<Bytes>, bs: seq<seq<Piece>>)
    ensures HoldsTable(client, file, bs) <==>
              && file.Some? && Walked(client.tools, client.cb, client.password, file.value).Ok?
              && var w := Walked(client.tools, client.cb, client.password, file.value).value;
                 SameTable(w.0.entries, w.1, Entries(bs, |bs|), AllResiduals(bs, 0))
  {
    hide Walked, SameTable, Entries, AllResiduals;
  }

  lemma SameEntriesIs(client: Node, file: Option<Bytes>, o: Origin)
    requires |Entries(o.bs, |o.bs|)| == |AllResiduals(o.bs, 0)|
    ensures SameEntries(client, file, o) <==>
              && file.Some? && Walked(client.tools, client.cb, client.password, file.value).Ok?
              && LocalManifest(client.tools, client.cb, client.password, file.value).entries == OriginManifest(client.tools.sum64, o).entries
  {
    hide Walked, LocalManifest, OriginManifest, Entries, AllResiduals;
  }

  lemma TableOfItself(es: seq<ChunkEntry>, rs: seq<Bytes>)
    requires |es| == |rs|
    ensures SameTable(es, rs, es, rs)
  {
  }

  lemma NoneCollide(tools: Tools, cb: Codebook, password: Bytes, file: Bytes, rs: seq<Bytes>)
    requires Walked(tools, cb, password, file).Ok? && NoCollisions(tools.sum64, rs, LocalChunks(tools, cb, password, Some(file)))
    ensures var mine := Walked(tools, cb, password, file).value.1;
            forall i, k :: 0 <= i < |rs| && 0 <= k < |mine| && tools.sum64(rs[i]) == tools.sum64(mine[k]) ==> rs[i] == mine[k]
  {
    hide Walked;
    WalkedCount(tools, cb, password, file);
    var w, chunks := Walked(tools, cb, password, file).value, LocalChunks(tools, cb, password, Some(file));
    forall i, k | 0 <= i < |rs| && 0 <= k < |w.1| && tools.sum64(rs[i]) == tools.sum64(w.1[k])
      ensures rs[i] == w.1[k]
    {
      assert chunks[k] == (w.0.entries[k].id, w.1[k]);
    }
  }

  // Where nothing was missing, a local version that is a packed file itself unpacks
  // to the seed's input exactly if the two manifests carry the same digest.
  lemma UpToDateRestoresIff(client: Node, seed: Node, authenticated: bool, name: Bytes, file: Bytes, salt: Bytes, tableNonce: Bytes, o: Origin,
                            input: Bytes, h: Header, bs: seq<seq<Piece>>, frames: seq<Bytes>, strict: bool)
    requires Syncable(client, seed, authenticated, name, Some(file), salt, tableNonce, o)
    requires Archive(client.tools, Some(client.cb), client.password, file, input, h, bs, frames)
    requires client.tools.sha256(input) == client.tools.sha256(o.input) ==> input == o.input
    ensures |Entries(o.bs, |o.bs|)| == |AllResiduals(o.bs, 0)| && Walked(client.tools, client.cb, client.password, file).Ok?
    ensures Unpacked(client.tools, Some(client.cb), client.password, strict, file) == Ok((o.input, 0 as nat)) <==>
              LocalManifest(client.tools, client.cb, client.password, file).originalHash == OriginManifest(client.tools.sum64, o).originalHash
  {
    hide *;
    SyncableParts(client, seed, authenticated, name, Some(file), salt, tableNonce, o);
    ArchiveIs(client.tools, Some(client.cb), seed.password, seed.files[CleanName(name)], o.input, o.h, o.bs, o.frames);
    OriginIs(client.tools.sum64, o);
    ArchiveIs(client.tools, Some(client.cb), client.password, file, input, h, bs, frames);
    ArchiveRestored(client.tools, Some(client.cb), client.password, strict, file, input, h, bs, frames);
    ArchiveWalked(client.tools, client.cb, client.password, file, input, h, bs, frames);
    LocalManifestIs(client.tools, client.cb, client.password, file);
    KeptFields(h);
    var w := Walked(client.tools, client.cb, client.password, file).value;
    ManifestEntries(client.tools.sum64, w.0.header, w.0.entries, w.1);
  }
}
