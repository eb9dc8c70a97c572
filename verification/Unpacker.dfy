// Sequential unpacking (pkg/cromlib/unpacker.go and unpack_bytes.go): block by
// block, with a running entry index and global delta offset.
module Unpacker {
  import opened Common
  import opened Tooling
  import opened Headers
  import opened ChunkTable
  import opened Codebooks
  import opened Blocks
  import opened Container
  import Coding

  // What stays fixed during one unpack.
  datatype Job = Job(
    tools: Tools, brain: Option<Codebook>, dict: Bytes, key: Option<Bytes>, strict: bool,
    entries: seq<ChunkEntry>, starts: seq<nat>, sizes: seq<u32>)

  // The variables of the block loop. Zero-filled chunks are written to the
  // output but not hashed.
  datatype State = State(stream: Bytes, base: u64, next: nat, out: Bytes, hashed: Bytes, corrupt: nat)

  // The zero-filled chunks of entries[from..to].
  function ZeroFill(es: seq<ChunkEntry>, from: nat, to: nat): Bytes
    decreases to - from
  {
    if from >= to || from >= |es| then [] else Zeros(es[from].size) + ZeroFill(es, from + 1, to)
  }

  // One chunk of a block whose pool is known.
  function ChunkStep(job: Job, pool: Bytes, s: State): Result<State>
    requires s.next < |job.entries|
  {
    var e := job.entries[s.next];
    var local := Sub64(e.offset, s.base);
    var end := Add64(local, e.deltaSize);
    if end > |pool| then
      if job.strict then Err(BadBounds)
      else Ok(s.(out := s.out + Zeros(e.size), corrupt := s.corrupt + 1, next := s.next + 1))
    else if local > end then Err(BadBounds)
    else
      var chunk :- Coding.Rebuilt(job.brain, e.id, e.index, e.size, pool[local..end]);
      Ok(s.(out := s.out + chunk, hashed := s.hashed + chunk, next := s.next + 1))
  }

  function ChunkSteps(job: Job, pool: Bytes, count: nat, s: State): Result<State>
    decreases count
  {
    if count == 0 || s.next >= |job.entries| then Ok(s)
    else
      var t :- ChunkStep(job, pool, s);
      ChunkSteps(job, pool, count - 1, t)
  }

  // A block whose frame does not decompress, in tolerant mode.
  function SkipBlock(job: Job, end: nat, s: State): State {
    State(s.stream, if end < |job.entries| then job.entries[end].offset else s.base, Max(s.next, Min(end, |job.entries|)),
          s.out + ZeroFill(job.entries, s.next, end), s.hashed, s.corrupt + 1)
  }

  function BlockStep(job: Job, i: nat, s: State): Result<State>
    requires i < |job.sizes| == |job.starts|
  {
    var (frame, stream) :- ReadFull(s.stream, job.sizes[i]);
    var plain :- if job.key.Some? then job.tools.decrypt(job.key.value, frame) else Ok(frame);
    var pool := job.tools.DecompressPool(plain, job.dict);
    var (first, end) := BlockRange(job.starts, i, |job.entries|);
    if pool.Err? then
      if job.strict then Err(BadBlock) else Ok(SkipBlock(job, end, s.(stream := stream)))
    else
      var t :- ChunkSteps(job, pool.value, if end > first then end - first else 0, s.(stream := stream));
      Ok(t.(base := Add64(s.base, |pool.value|)))
  }

  function BlockSteps(job: Job, i: nat, s: State): Result<State>
    requires |job.sizes| == |job.starts|
    decreases |job.sizes| - i
  {
    if i >= |job.sizes| then Ok(s)
    else
      var t :- BlockStep(job, i, s);
      BlockSteps(job, i + 1, t)
  }

  // ----- opening the file -----------------------------------------------------------------

  // Files of literals and polynomials need no brain.
  predicate NeedsBrain(es: seq<ChunkEntry>) {
    exists e :: e in es && e.id != LITERAL_ID && e.index != FRACTAL_INDEX
  }

  function JobFor(tools: Tools, brain: Option<Codebook>, strict: bool, m: Metadata): Result<Job> {
    if brain.None? && (m.header.usesBrainDict || NeedsBrain(m.entries)) then Err(BadLookup)
    else
      var dict := if m.header.usesBrainDict then brain.value.dictionary else [];
      var starts := StartsFrom(m.entries, 0, 0);
      if |starts| != |m.sizes| then Err(BadBlockCount)
      else Ok(Job(tools, brain, dict, m.key, strict, m.entries, starts, m.sizes))
  }

  // A payload stored as it is.
  function Passthrough(tools: Tools, m: Metadata): Result<Bytes> {
    if m.key.Some? then tools.decrypt(m.key.value, m.pool) else Ok(m.pool)
  }

  function Start0(m: Metadata): State { State(m.pool, 0, 0, [], [], 0) }

  // Unpack: the bytes written, and how many blocks or chunks were given up.
  // Files of version 1 are not modelled.
  function Unpacked(tools: Tools, brain: Option<Codebook>, password: Bytes, strict: bool, data: Bytes): Result<(Bytes, nat)> {
    var m :- ReadMetadata(tools, data, password);
    if m.header.isPassthrough || m.header.chunkCount == 0 then
      var plain :- Passthrough(tools, m);
      if !m.header.isLossy && tools.sha256(plain) != m.header.originalHash then Err(BadHash) else Ok((plain, 0))
    else if m.header.version < 2 then Err(BadVersion)
    else
      var job :- JobFor(tools, brain, strict, m);
      var s :- BlockSteps(job, 0, Start0(m));
      if !m.header.isLossy && tools.sha256(s.hashed) != m.header.originalHash && (strict || s.corrupt == 0) then Err(BadHash)
      else Ok((s.out, s.corrupt))
  }

  // ----- the loops ----------------------------------------------------------------------------

  method UnpackBlock(job: Job, pool: Bytes, count: nat, s0: State) returns (r: Result<State>)
    ensures r == ChunkSteps(job, pool, count, s0)
  {
    hide Coding.Rebuilt;
    var s := s0;
    var done := 0;
    while done < count && s.next < |job.entries|
      invariant 0 <= done <= count
      invariant ChunkSteps(job, pool, count - done, s) == ChunkSteps(job, pool, count, s0)
    {
      var e := job.entries[s.next];
      var local := Sub64(e.offset, s.base);
      var end := Add64(local, e.deltaSize);
      if end > |pool| {
        if job.strict {
          return Err(BadBounds);
        }
        s := s.(out := s.out + Zeros(e.size), corrupt := s.corrupt + 1, next := s.next + 1);
      } else {
        if local > end {
          return Err(BadBounds);
        }
        var chunk := Coding.ReconstructChunk(job.brain, e, pool[local..end]);
        if chunk.Err? {
          return Err(chunk.error);
        }
        s := s.(out := s.out + chunk.value, hashed := s.hashed + chunk.value, next := s.next + 1);
      }
      done := done + 1;
    }
    return Ok(s);
  }

  // Writes zeros for the entries of a block that is given up.
  method SkipEntries(job: Job, end: nat, s0: State) returns (s: State)
    ensures s == SkipBlock(job, end, s0)
  {
    var base := if end < |job.entries| then job.entries[end].offset else s0.base;
    var next, out := s0.next, s0.out;
    while next < |job.entries| && next < end
      invariant s0.next <= next <= Max(s0.next, Min(end, |job.entries|))
      invariant out + ZeroFill(job.entries, next, end) == s0.out + ZeroFill(job.entries, s0.next, end)
    {
      out := out + Zeros(job.entries[next].size);
      next := next + 1;
    }
    s := State(s0.stream, base, next, out, s0.hashed, s0.corrupt + 1);
  }

  method UnpackBlocks(job: Job, s0: State) returns (r: Result<State>)
    requires |job.sizes| == |job.starts|
    ensures r == BlockSteps(job, 0, s0)
  {
    hide ChunkSteps, SkipBlock, ReadFull;
    var s := s0;
    for i := 0 to |job.sizes|
      invariant BlockSteps(job, i, s) == BlockSteps(job, 0, s0)
    {
      var read := ReadFull(s.stream, job.sizes[i]);
      if read.Err? {
        return Err(read.error);
      }
      var (frame, stream) := read.value;
      if job.key.Some? {
        var decrypted := job.tools.decrypt(job.key.value, frame);
        if decrypted.Err? {
          return Err(decrypted.error);
        }
        frame := decrypted.value;
      }
      var pool := job.tools.DecompressPool(frame, job.dict);
      var (first, end) := BlockRange(job.starts, i, |job.entries|);
      if pool.Err? {
        if job.strict {
          return Err(BadBlock);
        }
        s := SkipEntries(job, end, s.(stream := stream));
      } else {
        var chunks := UnpackBlock(job, pool.value, if end > first then end - first else 0, s.(stream := stream));
        if chunks.Err? {
          return Err(chunks.error);
        }
        s := chunks.value.(base := Add64(s.base, |pool.value|));
      }
    }
    return Ok(s);
  }

  method Unpack(tools: Tools, brain: Option<Codebook>, password: Bytes, strict: bool, data: Bytes)
    returns (r: Result<(Bytes, nat)>)
    ensures r == Unpacked(tools, brain, password, strict, data)
  {
    hide ReadMetadata, BlockSteps, NeedsBrain;
    var read := ReadMetadata(tools, data, password);
    if read.Err? {
      return Err(read.error);
    }
    var m := read.value;
    if m.header.isPassthrough || m.header.chunkCount == 0 {
      var plain := Passthrough(tools, m);
      if plain.Err? {
        return Err(plain.error);
      }
      if !m.header.isLossy && tools.sha256(plain.value) != m.header.originalHash {
        return Err(BadHash);
      }
      return Ok((plain.value, 0));
    }
    if m.header.version < 2 {
      return Err(BadVersion);
    }
    var job := JobFor(tools, brain, strict, m);
    if job.Err? {
      return Err(job.error);
    }
    var done := UnpackBlocks(job.value, Start0(m));
    if done.Err? {
      return Err(done.error);
    }
    var s := done.value;
    if !m.header.isLossy && tools.sha256(s.hashed) != m.header.originalHash && (strict || s.corrupt == 0) {
      return Err(BadHash);
    }
    return Ok((s.out, s.corrupt));
  }

  // UnpackBytes: in memory, the brain always opened, never tolerant, and with no
  // digest check on a passthrough payload.
  function UnpackedBytes(tools: Tools, cb: Codebook, password: Bytes, data: Bytes): Result<Bytes> {
    if data == [] then Err(EmptyInput)
    else
      var m :- ReadMetadata(tools, data, password);
      if m.header.isPassthrough || m.header.chunkCount == 0 then Passthrough(tools, m)
      else if m.header.version < 2 then Err(BadVersion)
      else
        var job :- JobFor(tools, Some(cb), true, m);
        var s :- BlockSteps(job, 0, Start0(m));
        if !m.header.isLossy && tools.sha256(s.out) != m.header.originalHash then Err(BadHash) else Ok(s.out)
  }

  method UnpackBytes(tools: Tools, cb: Codebook, password: Bytes, data: Bytes) returns (r: Result<Bytes>)
    ensures r == UnpackedBytes(tools, cb, password, data)
  {
    hide ReadMetadata, BlockSteps, NeedsBrain;
    if |data| == 0 {
      return Err(EmptyInput);
    }
    var read := ReadMetadata(tools, data, password);
    if read.Err? {
      return Err(read.error);
    }
    var m := read.value;
    if m.header.isPassthrough || m.header.chunkCount == 0 {
      return Passthrough(tools, m);
    }
    if m.header.version < 2 {
      return Err(BadVersion);
    }
    var job := JobFor(tools, Some(cb), true, m);
    if job.Err? {
      return Err(job.error);
    }
    var done := UnpackBlocks(job.value, Start0(m));
    if done.Err? {
      return Err(done.error);
    }
    if !m.header.isLossy && tools.sha256(done.value.out) != m.header.originalHash {
      return Err(BadHash);
    }
    return Ok(done.value.out);
  }
}
