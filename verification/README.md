# A verified model of Crompressor

Crompressor is a dictionary compressor. Its dictionary, the *brain*, is a table of
codewords of equal size. A file is cut into chunks; each chunk is stored as a
reference to a codeword, as a polynomial, as an edit script or XOR residual against
a codeword, or as it is. Residuals are gathered into one compressed pool for every
16 MB of input, and a column-coded chunk table says what each chunk is. The same
file is read by sequential unpacking, by random access through a cache, and by a
peer-to-peer sync that transfers only the residuals the other side lacks.

This project models that chain in Dafny and proves what it is for:

* packing and unpacking restore the input, for every input, every outcome of the
  searches and thresholds, and every order in which workers take their jobs;
* a block that does not decompress costs only its own bytes, and of any bytes at all nothing is
  returned as whole that does not have the digest of its header;
* the chunker that looks for codewords finds as many as can be found;
* edit scripts are minimal in edits and in length, polynomials are found whenever they exist, the table
  codec and the block boundaries round-trip;
* random access returns slices of what unpacking would give, after any history;
* a sync asks for exactly the chunks that are lacking, never lacks one, and rebuilds the
  sender's file;
* the handshake stores only peers that proved the same brain, on both sides;
* the choice of codewords is optimal; pair encoding learns a most frequent pair at each step
  and keeps the meaning of its data;
* content-defined chunks resynchronise; the unrolled distance loops are the plain one;
* a chunk that is a codeword costs an ID, so with content-aligned chunks an insertion into a
  block costs little more than its own bytes.

`dafny verify dfyconfig.toml` checks everything.

## How it is built

Each file holds one component, under modules named after it. Compression, encryption,
hashing and key derivation are function-valued fields of `Tooling.Tools`, with the
laws assumed of them in `Tools.Valid`: compression and encryption have inverses and
bounded expansion, a digest has 32 bytes. Encryption takes its random nonce as an
argument. Entropy and similarity comparisons and the nearest-codeword search are
arbitrary choices (`Evidence`), so theorems hold for all their outcomes. Code that
works by updating state is a method, or a class with methods, proved against a
function; the properties are lemmas about those functions. 64-bit and 32-bit
arithmetic wraps explicitly wherever the program relies on it or could meet it.

A file and what its writer knew of it are tied together by `Packing.Archive`: the
bytes read back to a table that describes blocks of `Piece`s, every piece rebuilds to
its chunk, and the chunks are the input. The writers establish it, every reader uses it.

Results where the code falls short of its description, each with its exact condition:

* the table codec adds one to a zigzag value; it round-trips if and only if no ID lies
  2^63 from the ID expected for it (`ChunkTable.TableRoundTrip`, `ChunkTable.WrapExample`);
* the number of chunks and the size of their table are cut to 32 bits; a file reads back to
  its table and stops at its first frame if and only if both fit (`Packing.ReadBackIffFits`),
  as they do up to 120 million chunks (`Packing.ManyChunksFit`);
* `PackStream` of an empty input writes a file that does not unpack to it; a streamed file
  that fits is restored if and only if its input is not empty (`FileWriter.PackStream`,
  `FileWriter.StreamRestoredIff`, `FileWriter.EmptyStreamIsNotRestored`);
* the random reader looks at the index of a chunk before its ID and unpacking the other way
  round, so a literal marked with the polynomial index can be read differently
  (`RandomView.MarkedLiteral`); both readers show the same bytes of a file if and only if every
  marked literal is what the polynomial of that ID generates (`RandomView.ReadersAgreeIff`); no
  writer produces a marked literal (`RandomView.RegularIsHarmless`);
* the request for missing chunks keeps sums with the length of a name in 16 bits; it is
  read back if and only if the name is shorter than 65534 bytes (`Messages.RequestReadBack`);
* a sync that finds nothing missing leaves the local version alone, whatever the order and
  number of its chunks. A sync ends that way if and only if the local version can be walked
  through and every key of the seed's manifest is in its own; afterwards the client has the
  seed's table if and only if some key was missing or the two manifests had the same entries,
  and its version unpacks to the seed's input if and only if they carried the same digest
  (`Syncing.RequestSync`, `Syncing.HeldAfterwards`, `Syncing.UpToDateRestoresIff`; two files for
  which it goes wrong are in `SyncCases.SwappedStays`);
* a local version whose metadata can be read but which has a block that does not open makes
  every sync fail, although everything is requested: a sync with an honest seed fails if and
  only if the local version is not `Syncing.LocalUsable` (`Syncing.RequestSync`,
  `Syncing.KeepLocal`; such a version is in `SyncCases.DamagedNeverSyncs`);
* `NewCDCChunker` takes any target, and `Split` cuts empty chunks for ever if twice the target,
  as 64 bits have it, is zero or less; `Split` returns if and only if the data are empty or no
  longer than the minimum, or that maximum is positive. For targets that can be doubled, it
  returns if and only if the data are empty or the target is positive
  (`RollingChunker.CDCChunker.ReturnsIff`, `RollingChunker.CDCChunker.OrdinaryTargets`);
* in tolerant mode a block whose frame opens to less than its pool keeps its size, but shifts
  every later residual by what is missing: the next block is read in its place if and only if
  nothing was (`Integrity.ShortPool`, `Integrity.ShortPoolShifts`);
* comments call the count of an edit operation 16 bits wide; the code writes one byte,
  and the model follows the code.

## Model

| member | source | states |
|---|---|---|
| RollingHash.Roll | internal/search/aligned.go:84-85 | the incremental hash of a moved window is the hash of the window computed afresh, modulo 2^64 |
| AlignedChunking.AlignedChunker.constructor | internal/search/aligned.go:26-41 | the index maps the hash of every codeword to a codeword with that hash, and the multiplier is the weight of a leaving byte |
| AlignedChunking.AlignedChunker.Split | internal/search/aligned.go:52-94 | the nested loops emit exactly the leftmost-first cut of the data around codewords |
| AlignedChunking.AlignedChunker.EmitLiteral | internal/search/aligned.go:62-71 | the bytes between codewords go out in pieces of at most a codeword |
| AlignedChunking.AlignedChunker.Advance | internal/search/aligned.go:74-86 | the inner loop stops at the first window that is a codeword, or finds there is none |
| AlignedChunking.ChunksCover | internal/search/aligned.go:52-94 | the chunks cover the data without gap or overlap |
| AlignedChunking.LiteralPieces | internal/search/aligned.go:62-71 | the pieces of a stretch without codewords are a codeword long, all but the last, and carry their own checksums |
| AlignedChunking.PiecesFull | internal/search/aligned.go:52-94 | no chunk is longer than a codeword, a shorter one stands right before a codeword or at the end, and each carries the checksum of its bytes |
| AlignedChunking.SplitIsOptimal | internal/search/aligned.go:52-94 | without hash collisions no set of disjoint codeword occurrences is larger than the codeword chunks emitted, so literal bytes are at most n - k*size for any k |
| AlignedChunking.InsertionIsLocal | internal/search/aligned.go:16-17 | inserting bytes anywhere adds at most their length and one codeword of literal bytes |
| Patch.Table | internal/delta/patch.go:20-45 | the filled table holds the edit distance of every pair of prefixes |
| Patch.DistanceIsLeast | internal/delta/patch.go:30-45 | no script of equal, insert and delete operations costs less than the table's last cell |
| Patch.Backtrack | internal/delta/patch.go:51-73 | walking back gives operations and data that align pattern and original at the cost of the table |
| Patch.ReverseInPlace | internal/delta/patch.go:75-81 | reversal in place |
| Patch.EncodeRuns | internal/delta/patch.go:83-104 | the run-length script expands to the operations, and no script for the same operations and data is shorter |
| Patch.RunAt | internal/delta/patch.go:86-91 | a run is as long as it can be: it ends at 255, at the end, or at a different operation |
| Patch.Diff | internal/delta/patch.go:17-105 | the script applies to the pattern to give the original, no such script has fewer inserts and deletes, and none for the same operations is shorter |
| Patch.DiffIsMinimal | internal/delta/patch.go:17-105 | a script that expands to an alignment at the table's cost is minimal among all scripts |
| Patch.ApplyPatch | internal/delta/patch.go:108-135 | the index-driven loop gives what applying the script operation by operation gives, errors included |
| Patch.PatchRoundTrip | internal/delta/patch.go:108-135 | applying any script that aligns pattern and original gives the original |
| Polynomial.GeneratePolynomial | internal/fractal/generator.go:32-42 | 64-bit evaluation cut to a byte gives a*x^2+b*x+c modulo 256 at every position |
| Polynomial.WordAtIsAt | internal/fractal/generator.go:37-40 | 64-bit wrap-around does not change the low byte |
| Polynomial.ByteAtIsAt | internal/fractal/generator.go:70-73 | byte arithmetic agrees with it at any length |
| Polynomial.FindPolynomial | internal/fractal/generator.go:47-85 | succeeds if and only if some a, b, c generate the non-empty target; its seed regenerates the target and its a is below 128 |
| Polynomial.SmallA | internal/fractal/generator.go:62-68 | a polynomial modulo 256 always has coefficients with a below 128 |
| XorDelta.XOR | internal/delta/xor.go:17-34 | the exclusive or of each byte with the pattern, the byte itself past its end |
| XorDelta.Apply | internal/delta/xor.go:37-56 | the same on the residual, the pattern itself for an empty one |
| XorDelta.XorRoundTrip | internal/delta/xor.go:17-56 | applying the residual of a non-empty chunk gives the chunk back, for patterns of any length |
| Coding.ReconstructChunk | pkg/cromlib/unpack_bytes.go:163-197 | rebuilds as the table entry says: literal, polynomial, script or XOR, with truncation to the chunk |
| Coding.NoWordNoChunk | pkg/cromlib/unpack_bytes.go:174-180 | only literals and polynomials are rebuilt without a word of the brain |
| Coding.RebuiltLength | pkg/cromlib/unpack_bytes.go:163-197 | how long a chunk comes out for any table entry and residual |
| Coding.BuildIndex | internal/search/lsh.go:51-59 | the index of exact words after all codewords |
| Coding.FindExact | internal/search/lsh.go:62-71 | an ID found names a codeword equal to the chunk |
| Coding.FindExactComplete | internal/search/lsh.go:51-71 | without hash collisions exact search finds precisely the codewords |
| Coding.ExactFaithful | pkg/cromlib/compiler.go:429-448 | an exact reference rebuilds its chunk |
| Coding.XorFaithful | pkg/cromlib/compiler.go:530-536 | an XOR reference rebuilds its chunk, whichever codeword was chosen |
| Coding.PatchFaithful | pkg/cromlib/compiler.go:522-533 | a script reference rebuilds its chunk through the flag bit in its ID |
| Coding.PolynomialFaithful | pkg/cromlib/compiler.go:452-467 | a polynomial reference rebuilds its chunk |
| Deduplication.KnownChunkInMemory | pkg/cromlib/pack_bytes.go:87-97 | without checksum collisions a chunk that is a codeword is stored as its ID alone, whatever the other decisions |
| Deduplication.KnownChunkOnDisk | pkg/cromlib/compiler.go:429-448 | the same for both file writers |
| Deduplication.PoolIsLiteral | pkg/cromlib/compiler.go:587-601 | so the pool of a block is no larger than the bytes outside codewords |
| Deduplication.PackedBlockIsLean | pkg/cromlib/compiler.go:413-601 | every block a file writer packs against a brain is stored that way |
| Deduplication.InsertionStoresLittle | internal/search/aligned.go:16-17 | inserting bytes anywhere into a block makes its pool grow past the literal bytes before by at most the insertion and one codeword |
| Varint.ReadWrite | pkg/format/format.go:394-404 | an unsigned LEB128 varint (section 7.6 of DWARF Version 4) is read back, whatever follows |
| Zigzag.RoundTrip | pkg/format/format.go:455-456 | the shift-and-xor forms of zigzag undo each other on 64-bit words |
| ChunkTable.EncodeTableColumns | pkg/format/format.go:381-404 | the loop over running expectations lays out exactly the column form of the entries |
| ChunkTable.DecodeTableColumns | pkg/format/format.go:407-453 | the decoding loop gives exactly what reading the columns row by row gives, errors included |
| ChunkTable.TableRoundTrip | pkg/format/format.go:381-453 | decoding undoes encoding if and only if no non-literal ID is 2^63 from its predecessor's successor; an encoding takes at most 31 bytes an entry and 40 more |
| ChunkTable.SmallIdsDoNotWrap | pkg/format/format.go:388-391 | IDs below 2^63 - 1 never wrap |
| ChunkTable.WrapExample | pkg/format/format.go:388-391 | a table of one entry that does not round-trip |
| ChunkTable.DecodedCount | pkg/format/format.go:417-431 | a table that is read has as many entries as announced |
| Blocks.BlockStarts | pkg/format/format.go:172-185 | the scan of the sizes, as a function of the table |
| Blocks.StartsAreEnds | pkg/format/format.go:172-185 | of any table: a block starts exactly where the one before has reached 16 MB, and not earlier |
| Blocks.NumBlocksIs | pkg/format/format.go:161-169 | the number of blocks is the size divided by 16 MB, rounded up, one for an empty file with chunks and none without |
| Blocks.BoundariesRecovered | pkg/format/format.go:172-194 | the sizes alone give back the writer's block starts, and the ranges partition the table |
| Blocks.BlocksCounted | pkg/format/format.go:161-169 | the header's two size fields give the number of blocks |
| Headers.Serialize | pkg/format/format.go:288-369 | the buffer filled field by field is the serialized header |
| Headers.HeaderRoundTrip | pkg/format/format.go:207-369 | parsing undoes serializing up to the fields the version keeps; the size is that of the version |
| Container.FrameRoundTrip | internal/delta/compress.go:90-127 | a block frame opens to the pool it was made of, and how much larger it can be |
| Container.FrameSealed | internal/delta/compress.go:90-127 | with a key a frame is ciphertext of the compressed pool, and one that cannot be decrypted does not open |
| Container.TableSealed | pkg/format/reader.go:158-189 | the table is its compressed columns, encrypted with a key, behind their length |
| Container.TableReadBack | pkg/format/reader.go:158-189 | a written table is accepted by the reader's limits and read back, leaving the rest, if and only if no ID wraps |
| Container.TableReadIff | pkg/format/reader.go:158-189 | the same for tables of any size, whose count and length are cut to 32 bits: read back if and only if both fit and no ID wraps |
| Container.HeaderReadBack | pkg/format/reader.go:28-82 | the header comes off a stream with the rest left |
| Container.SizesReadBack | pkg/format/reader.go:93-105 | the block table comes off a stream with the rest left |
| Container.MetadataShape | pkg/format/reader.go:25-146 | whatever is read has as many entries as its header announces |
| Container.NoKeyNoFile | pkg/format/reader.go:83-91 | a file whose header asks for a key is not read without a password |
| Container.FileReadBack | pkg/format/reader.go:25-146 | a laid-out file reads back to its header, sizes and table, and stops at the first frame |
| Refusals.HeaderReadIff | pkg/format/reader.go:28-82 | of any bytes: a header is read if and only if magic number, a known version and all bytes of that version are there, the micro-dictionary within its cap; and it takes exactly those |
| Refusals.MetadataLayout | pkg/format/reader.go:25-189 | of any file that is read: header, one size a block, a table within its cap, and the pool is all the rest |
| Refusals.MetadataAgrees | pkg/format/reader.go:83-146 | and a password was given if the header asks for one, there are as many sizes as blocks and as many entries as announced |
| StreamReader.Reader.TakeHeader | pkg/format/reader.go:28-82 | the cursor advances over the header as its version and micro-dictionary say |
| StreamReader.Reader.TakeBlockTable | pkg/format/reader.go:93-105 | sizes parsed from one buffer are those read one by one |
| StreamReader.Reader.TakeTable | pkg/format/reader.go:112-146 | compressed and fixed-size tables, with their limits and errors |
| StreamReader.Reader.TakeMetadata | pkg/format/reader.go:25-146 | the step-by-step reader gives the metadata of the layout and leaves the stream at the pool |
| Unpacker.UnpackBlock | pkg/cromlib/unpacker.go:219-290 | the chunk loop, with running offsets modulo 2^64 and zero-filled chunks in tolerant mode |
| Unpacker.SkipEntries | pkg/cromlib/unpacker.go:187-211 | a block given up: zeros for its chunks, the offset taken from the next block's first entry |
| Unpacker.UnpackBlocks | pkg/cromlib/unpacker.go:155-293 | the block loop, strict and tolerant |
| Unpacker.Unpack | pkg/cromlib/unpacker.go:37-359 | opening, passthrough, the block loop and the digest check, which lossy files are spared, as a function of the bytes; what that function promises is in the rows below |
| Integrity.DigestChecked | pkg/cromlib/unpacker.go:337-346 | of any bytes: an output returned with nothing given up has the digest in the header, unless the header is lossy; strict runs give nothing up |
| Integrity.WrongDigest | pkg/cromlib/unpacker.go:337-346 | a file whose blocks all open, under a header with another digest, is refused by both readers |
| Refusals.UnpackNeeds | pkg/cromlib/unpacker.go:37-211 | of any bytes: unpacking succeeds only with a brain where an entry needs one, as many blocks in the table as in the block table, and every frame there and decrypted; strictly, also decompressed |
| Integrity.ShortChunk | pkg/cromlib/unpacker.go:226-240 | a residual past the end of its pool: as many zeros as announced in tolerant mode, the end in strict mode |
| Integrity.ShortPool | pkg/cromlib/unpacker.go:219-290 | a block of which only a part of the pool is there keeps its size; chunks whose residual is there are right, the others zeros |
| Integrity.ShortPoolShifts | pkg/cromlib/unpacker.go:222-223 | the block after it finds its residuals in their places if and only if nothing of the pool was missing: the offset is out by what was |
| Unpacker.UnpackBytes | pkg/cromlib/unpack_bytes.go:25-160 | the in-memory reader, always strict, as a function of the bytes |
| Integrity.DigestCheckedInMemory | pkg/cromlib/unpack_bytes.go:140-160 | of any bytes: what it returns for a file with chunks has the digest in the header, unless the header is lossy |
| Restoring.OffsetInBlock | pkg/cromlib/unpacker.go:222-223 | subtracting the running offset modulo 2^64 finds each residual in its pool |
| Restoring.GoodBlock | pkg/cromlib/unpacker.go:213-292 | a block that opens writes its chunks and keeps stream, index and offset in step |
| Restoring.BadBlockSkipped | pkg/cromlib/unpacker.go:187-211 | a block that does not open writes as many zeros and keeps them in step too |
| Restoring.AllBlocks | pkg/cromlib/unpacker.go:163-293 | so after every block the reader is where the writer's next block starts |
| Restoring.UnpackRestores | pkg/cromlib/unpacker.go:155-293 | the output of a run for any set of blocks that fail, and the whole file when none does |
| Restoring.FaultIsolation | pkg/cromlib/unpacker.go:187-211 | in tolerant mode the output has the original size, zeros over the failing blocks and the right bytes everywhere else |
| Packing.CodedIsWellFormed | pkg/cromlib/compiler.go:383-397 | full reads cut into covering chunks give blocks whose boundaries can be recovered and whose data are the input |
| Packing.LaidOut | pkg/cromlib/compiler.go:663-770 | header, sizes, table and frames in order make a packed file |
| Packing.ArchiveRestored | pkg/cromlib/unpacker.go:37-359 | every reader restores the input of a packed file, strict or tolerant, encrypted or not |
| Packing.ManyChunksFit | pkg/cromlib/compiler.go:663-722 | up to 120 million chunks never exceed the 32-bit fields |
| Packing.ReadBackIffFits | pkg/cromlib/compiler.go:663-770 | what the writers lay out reads back to its table and stops at its first frame if and only if the number of chunks and the size of the table fit in 32 bits |
| Writing.GatherBlock | pkg/cromlib/compiler.go:587-601 | gathering gives entries with running offsets and the concatenated pool |
| ByteWriter.CodedFaithful | pkg/cromlib/pack_bytes.go:86-169 | whatever the in-memory writer decides for a chunk rebuilds it |
| ByteWriter.CodedIs | pkg/cromlib/pack_bytes.go:86-169 | which piece the in-memory writer chooses: ID alone, literal or XOR residual, by the search and the thresholds |
| ByteWriter.PackBlock | pkg/cromlib/pack_bytes.go:86-169 | one block, chunk by chunk |
| ByteWriter.PackBlocks | pkg/cromlib/pack_bytes.go:80-176 | all blocks, with their frames |
| ByteWriter.PackBytes | pkg/cromlib/pack_bytes.go:27-238 | the file returned is a packed one for its input; an empty input is an error |
| ByteWriter.HeaderSays | pkg/cromlib/pack_bytes.go:178-225 | what its header says, field by field |
| ChunkWorkers.EncodeChunk | pkg/cromlib/compiler.go:413-577 | one chunk by either writer: which piece it becomes (ID, polynomial of low entropy, literal, or, by the nearest codeword, ID, literal, or the shorter of a minimal script of at most 256 bytes and an XOR residual), that it rebuilds the chunk, and that only a failed search fails it |
| ChunkWorkers.OutcomeFaithful | pkg/cromlib/compiler.go:413-577 | whichever outcome is reached, the chunk is rebuilt from it |
| ChunkWorkers.RunWorkers | pkg/cromlib/compiler.go:405-585 | for any number of workers and any order, every slot holds an outcome for its own chunk |
| FileWriter.PackBlocks | pkg/cromlib/compiler.go:383-661 | block loop of both file writers |
| FileWriter.Pack | pkg/cromlib/compiler.go:98-857 | stored whole or chunked, and exactly when which; the file is one that every reader restores, and none reads without the password it was given |
| FileWriter.PackHeaderSays | pkg/cromlib/compiler.go:663-840 | what the header says for a chunked file and for one stored whole, field by field |
| FileWriter.PackStream | pkg/cromlib/compiler_stream.go:31-311 | the file of a stream that fits the format is restored if and only if the stream was not empty |
| FileWriter.StreamHeaderSays | pkg/cromlib/compiler_stream.go:241-289 | what its header says, field by field |
| FileWriter.PackedRestored | pkg/cromlib/unpacker.go:37-359 | unpacking what Pack or PackStream wrote gives the input |
| FileWriter.StoredRestored | pkg/cromlib/compiler.go:786-840 | a file stored whole is restored |
| FileWriter.EmptyStreamIsNotRestored | pkg/cromlib/compiler_stream.go:241-289 | the stream writer's file for an empty input unpacks to something else |
| FileWriter.StreamRestoredIff | pkg/cromlib/compiler_stream.go:31-311 | the same for any blocks coded and laid out as a stream |
| RecencyLists.FitIsLongest | internal/vfs/cache.go:67-70 | eviction leaves the longest most-recent prefix that fits |
| RecencyLists.OversizedEmpties | internal/vfs/cache.go:49-71 | an item larger than the cache leaves it empty |
| RecencyLists.PutIsFirst | internal/vfs/cache.go:49-71 | an item that fits the cache is its most recent one after the put |
| RecencyLists.HitIsLastPut | internal/vfs/cache.go:37-71 | after any history a hit returns the value last put under its key |
| Caches.MemoryCache.constructor | internal/vfs/cache.go:25-34 | empty, with the fallback size |
| Caches.MemoryCache.Get | internal/vfs/cache.go:37-46 | finds what the recency list holds and moves it to the front |
| Caches.MemoryCache.Put | internal/vfs/cache.go:49-71 | the recency list with the item in front, cut to fit; map, list and byte count stay exact |
| Caches.MemoryCache.RemoveOldest | internal/vfs/cache.go:73-81 | drops the last item and its exact size |
| Geometry.FrameThere | internal/vfs/reader.go:88-94 | each block offset is where the sequential reader would start the block, and its frame is there |
| Geometry.PoolFound | internal/vfs/reader.go:62-87 | the offset computed from the metadata is where the first frame starts |
| Geometry.ChunkInFile | internal/vfs/reader.go:97-102 | a chunk's bytes in the original lie between two neighbouring prefix sums |
| Geometry.ChunkHolds | internal/vfs/reader.go:140-145 | the search over prefix sums finds the chunk that holds an offset |
| Geometry.BlockHolds | internal/vfs/reader.go:148 | the search over block starts finds the block that holds a chunk |
| RandomView.SameChunkIff | internal/vfs/reader.go:151-206 | a chunk that unpacking rebuilds is rebuilt alike by the random reader if and only if it is no marked literal, or one its ID's polynomial generates |
| RandomView.ChunkShown | internal/vfs/reader.go:97-102 | whatever it is taken for, a chunk lies between the same two prefix sums |
| RandomView.ShownIff | internal/vfs/reader.go:151-206 | the whole file is shown as unpacking gives it if and only if every marked literal is harmless |
| RandomView.ReadersAgreeIff | pkg/cromlib/unpack_bytes.go:163-172 | the same against the result of Unpack, for any file that unpacks |
| RandomView.RegularIsHarmless | pkg/cromlib/compiler.go:413-577 | no writer marks a literal |
| RandomView.MarkedLiteral | internal/vfs/reader.go:156-159 | a file of one marked literal that unpacks to 0 and is shown as 255 |
| RandomAccess.Search | internal/vfs/reader.go:140-148 | binary search for the first index where a predicate turns true |
| RandomAccess.ChunkInPool | internal/vfs/reader.go:169-179 | offset less the block's own finds the residual, and it rebuilds the bytes shown there |
| RandomAccess.CachePut | internal/vfs/reader.go:219-223 | eviction or not, a sound cache stays sound |
| RandomAccess.RandomReader.constructor | internal/vfs/reader.go:40-105 | prefix sums and block starts for any table; on a file that unpacks, a good reader |
| RandomAccess.RandomReader.DataIff | internal/vfs/reader.go:156-183 | what a reader shows is what unpacking gives if and only if no mark does harm |
| RandomAccess.RandomReader.LoadBlockPool | internal/vfs/reader.go:273-318 | the pool of a block, cached or read, is the one the writer compressed, and if the cache can hold it, it is its most recent item afterwards |
| RandomAccess.RandomReader.ReadChunk | internal/vfs/reader.go:147-223 | a chunk, cached, generated or rebuilt, is that part of the data; unless it is a literal, it is the most recent item of a cache that can hold it |
| RandomAccess.RandomReader.CopyChunk | internal/vfs/reader.go:225-244 | each round makes progress or fails, and copies the part asked for |
| RandomAccess.RandomReader.ReadAt | internal/vfs/reader.go:109-251 | a read inside a file that unpacks returns exactly that slice of the reader's data and nothing else changes in the buffer; the loop ends; the reader stays good for the next read |
| RandomAccess.RandomReader.ReadPassthrough | internal/vfs/reader.go:121-131 | a file stored whole is read from the offset on, as far as it goes, with the errors of a short read and of an offset past the end |
| RandomAccess.Open | internal/vfs/fuse.go:123-153 | mounting a file that unpacks gives a good reader, whose data are what unpacking gives if and only if no mark does harm; on a packed file they are the packed input |
| Manifests.ToBinary | pkg/sync/manifest.go:185-208 | the buffer written by columns has the documented layout, IDs as differences |
| Manifests.FromBinary | pkg/sync/manifest.go:211-243 | parses whatever has room for the announced entries, and nothing else |
| Manifests.ManifestReadBack | pkg/sync/manifest.go:185-243 | a manifest read from its binary form is the same manifest, whatever follows it |
| Manifests.Diff | pkg/sync/manifest.go:252-285 | missing and extra are the entries whose key the other side lacks, each as often as it stands in its manifest |
| Manifests.MissingKeys | pkg/sync/manifest.go:269-274 | the keys missing are the remote keys less the local ones |
| Residues.StartsAscend | pkg/format/format.go:172-194 | block starts ascend inside the table, whatever the sizes are |
| Residues.ResidualsReadBack | pkg/sync/manifest.go:56-96 | a walk through a packed file sees exactly the residuals written |
| Seeding.GenerateManifest | pkg/sync/manifest.go:100-156 | one entry a chunk, with the hash of its own residual; fails exactly when the walk does |
| Seeding.SortedAscends | internal/network/bitswap.go:51-52 | the requested indexes in ascending order, repeats kept |
| Seeding.SendBlock | internal/network/bitswap.go:59-87 | from one block, the requested chunks; no index before the block ever turns up |
| Seeding.StreamBlocks | internal/network/bitswap.go:55-88 | sends what a walk that opens only the blocks asked for sees, and fails if and only if that walk does |
| Seeding.StreamChunks | internal/network/bitswap.go:24-93 | sends the requested indexes below the chunk count in ascending order with repeats, each with its own residual; blocks nobody asked for need not open |
| Seeding.AskedOfWalked | internal/network/bitswap.go:55-88 | skipping blocks nobody asked for changes nothing of what is sent |
| Seeding.ServedDespiteDamage | internal/network/bitswap.go:55-88 | a file with damaged blocks serves every chunk of the others |
| Receiving.ReceiveResiduals | internal/network/bitswap.go:146-183 | from an honest wire every residual asked for is kept, and is the sender's |
| Receiving.KeepBlocks | internal/network/bitswap.go:193-228 | of the local version all residuals needed are kept, under their own keys; fails if and only if a block does not open or has reversed bounds |
| Receiving.StartsBySizes | internal/network/bitswap.go:257-265 | block boundaries of the rebuilt table depend on sizes only |
| Receiving.EntryFilled | internal/network/bitswap.go:294-297 | offset and size filled in give the sender's table entry |
| Receiving.RebuildBlocks | internal/network/bitswap.go:275-312 | the rebuilt table is the sender's, block for block, with frames that hold the sender's pools |
| Messages.MessageReadBack | internal/network/protocol.go:315-356 | a message arrives exactly when it keeps the reader's bound |
| Messages.RequestReadBack | internal/network/protocol.go:141-173 | a request within the size limit is read back if and only if the name is shorter than 65534 bytes |
| Syncing.KeepLocal | internal/network/bitswap.go:186-229 | succeeds if and only if the local version is usable, and then keeps every key it has |
| Syncing.AllAvailable | internal/network/bitswap.go:282-287 | without residual-hash collisions no chunk is missing, and each one found is the sender's |
| Syncing.ReceiveChunks | internal/network/bitswap.go:111-336 | the file put together has the sender's table and pools under a header of its own |
| Syncing.HandleSyncReq | internal/network/protocol.go:109-134 | the manifest of the file named, compressed; an error if there is none or it cannot be walked through |
| Syncing.HandleDiffReq | internal/network/protocol.go:141-180 | the residuals asked for, from the file named; an error for a malformed request, nothing for a missing file |
| Syncing.Answer | internal/network/protocol.go:56-106 | an unauthenticated peer gets an error, an oversized request nothing |
| Syncing.MissingIndexes | internal/network/protocol.go:236-273 | asks for nothing if and only if the local version can be walked through and no remote key is missing from its manifest; otherwise for exactly the chunks whose key is lacking, each once and in ascending order |
| Syncing.FetchManifest | internal/network/protocol.go:189-232 | the manifest that arrives is the one of the seed's file |
| Syncing.RequestSync | internal/network/protocol.go:189-311 | against an honest seed a sync fails if and only if the local version cannot be used, ends up to date if and only if no key is missing from it, and else produces a packed file of the seed's blocks; what travels is the residuals of the chunks whose key is lacking, each once |
| Syncing.SyncedRestores | internal/network/protocol.go:189-311 | a synced file unpacks to the seed's input, has the seed's table, and with a password of the client's own is not read without it |
| Syncing.HeldAfterwards | internal/network/protocol.go:236-311 | after a run with an honest seed the client has the seed's table if and only if its version could be used and lacked a key or had the seed's manifest entries already |
| Syncing.UpToDateRestoresIff | internal/network/protocol.go:249-252 | a local packed file left alone unpacks to the seed's input if and only if the two manifests carry the same digest, where digests do not collide |
| SyncCases.SwappedStays | internal/network/protocol.go:249-252 | a whole run between two packed files with the same chunks in another order: it ends up to date, and the client unpacks other bytes than the seed |
| SyncCases.DamagedUnusable | internal/network/bitswap.go:193-228 | a file that reads back to its table but has a frame that does not open cannot be used |
| SyncCases.DamagedNeverSyncs | internal/network/bitswap.go:193-228 | a whole run with such a local version fails |
| Handshakes.EveryRun | internal/network/auth.go:52-89 | what every interleaving of any number of sessions keeps |
| Handshakes.BothStored | internal/network/auth.go:77-84 | when an initiator returns without error from an honest peer, both have stored each other |
| Handshakes.GateStaysOpen | internal/network/protocol.go:59-63 | and no later step closes the gate of the sync handler to it |
| Handshakes.StoredHasProved | internal/network/auth.go:42-76 | an honest peer is stored only if it holds the same brain and answered this session's nonce in its own name, whatever has leaked; a dishonest one only if some dishonest peer holds that brain |
| Handshakes.NoReplay | internal/network/auth.go:42-49 | no proof serves two sessions |
| Handshakes.SameBrainCompletes | internal/network/auth.go:52-89 | two honest nodes with the same brain can complete the handshake |
| Handshakes.SameBrainAccepted | internal/network/auth.go:69-76 | between honest nodes the check passes if and only if they hold the same brain |
| Selector.SelectPicked | internal/trainer/selector.go:20-61 | keeps both caps, no other choice within them has a larger sum of counts, no bucket cap at all for a limit of zero or less; reading order, the more frequent first among equals |
| Selector.SharedBucket | internal/trainer/selector.go:63-69 | two entries share a bucket if and only if their first two bytes agree |
| Selector.Pick | internal/trainer/selector.go:33-52 | the loop with its bucket counters makes the greedy choice |
| Selector.GreedyIsOptimal | internal/trainer/selector.go:33-52 | the greedy choice is optimal for every descending order |
| Selector.GreedyIsAllowed | internal/trainer/selector.go:36-52 | it keeps the caps and picks only entries of the table |
| Selector.SortByFirst | internal/trainer/selector.go:56-60 | a stable sort: permutation, ascending, ties in their order |
| Bpe.CountPairs | internal/trainer/bpe.go:56-61 | how often each pair stands in the stream, overlaps included |
| Bpe.BestPair | internal/trainer/bpe.go:63-79 | a most frequent pair among those short enough |
| Bpe.Merge | internal/trainer/bpe.go:93-102 | left-to-right replacement of a pair |
| Bpe.MergedIs | internal/trainer/bpe.go:93-102 | the merged stream gives back the old one with the pair for the token, and no pair is left that the scan should have taken |
| Bpe.MergeKeeps | internal/trainer/bpe.go:87-104 | a merge changes the tokens but not what they stand for |
| Bpe.PairLearned | internal/trainer/bpe.go:81-91 | a pair counted twice stands for bytes at two positions of the data |
| Bpe.BPEBuilder.Train | internal/trainer/bpe.go:32-111 | a run step by step: each stream is the one before with every left-to-right occurrence of the pair learned replaced by its token, whose word spells the pair; the pair stands there at least twice and no fitting pair more often; every stream spells the data; training ends only at its target or when no pair is left |
| ContentCuts.ChunksCover | internal/chunker/cdc.go:43-99 | chunks by any rule cover the data |
| ContentCuts.RestAlone | internal/chunker/cdc.go:43-99 | from a cut on, the chunks are those of the rest alone, moved |
| ContentCuts.Resynchronised | internal/chunker/cdc.go:24-27 | two inputs with a common end and a cut in it agree on every later chunk |
| ContentCuts.SizesInBounds | internal/chunker/cdc.go:57-86 | no chunk is longer than the maximum, only the last one shorter than the minimum |
| ContentCuts.CutReason | internal/chunker/cdc.go:43-99 | a chunk before the last one ends by the rule, no shorter beginning of a chunk would have, and each carries the checksum of its bytes |
| RollingChunker.HashRolls | internal/chunker/cdc.go:71-74 | the rolling value is the hash of the last eight bytes |
| RollingChunker.CDCChunker.Split | internal/chunker/cdc.go:43-99 | wherever it returns at all, the loop with its `continue` branch makes exactly the cuts of the rule, and ends |
| RollingChunker.CDCChunker.AlwaysStuck | internal/chunker/cdc.go:61-70 | with a maximum of zero or less every round cuts an empty chunk and comes back to the state the loop started in |
| RollingChunker.CDCChunker.ReturnsIff | internal/chunker/cdc.go:43-99 | Split returns if and only if the data are empty or no longer than the minimum, or twice the target comes out positive in 64 bits |
| RollingChunker.CDCChunker.OrdinaryTargets | internal/chunker/cdc.go:34-40 | for targets that can be doubled: if and only if the data are empty or the target is positive |
| RollingChunker.CDCChunker.RuleBounds | internal/chunker/cdc.go:34-40 | the rule keeps its minimum and maximum |
| RollingChunker.CDCChunker.ChunkEnds | internal/chunker/cdc.go:61-99 | a chunk before the last one has the maximum size, or is longer than the minimum and the window with a hash of its last eight bytes that is a multiple of the target; no shorter beginning of it is so |
| GearChunker.FastCDCChunker.Split | internal/chunker/fastcdc.go:43-77 | the same for the gear hash |
| GearChunker.FastCDCChunker.RuleBounds | internal/chunker/fastcdc.go:27-41 | the rule keeps its minimum and maximum |
| GearChunker.FastCDCChunker.ChunkEnds | internal/chunker/fastcdc.go:43-77 | a chunk before the last one has the minimum size, and the maximum or a hash without any bit of the mask; no shorter beginning of it is so |
| GearChunker.GearWindow | internal/chunker/fastcdc.go:59 | the gear hash of a chunk is that of its last 64 bytes: what came before has been shifted out |
| Chunks.CoversReassemble | internal/chunker/chunker.go:32-49 | chunks that cover the data concatenate to it |
| Hamming.HammingDistance | internal/search/search.go:46-78 | words, then bytes, then eight bits a missing byte: the sum over all positions |
| Hamming.HammingDistanceSimd | internal/search/search_simd.go:12-63 | four words a round give the same distance |
| Hamming.WordDistance | internal/search/search.go:61-67 | the differing bits of two words are those of their bytes |
| Hamming.IsMetric | internal/search/search.go:46-78 | zero exactly for equal strings, symmetric, triangle inequality, lengths differing or not |
| LinearSearch.LinearSearcher.FindBestMatch | internal/search/linear.go:29-83 | the first nearest codeword of those allowed, despite the early exit; empty and missing codebooks are errors |
| LinearSearch.LeastOfNearest | internal/search/linear.go:62-76 | unrestricted, that is the least ID among the nearest codewords |

## Left out

- Compression, encryption, key derivation and hashing: foreign code, functions with the laws of `Tools.Valid`; the brain compression of the wire of a sync is taken as transparent.
- Searching similar codewords by locality buckets, its result cache and the restriction of a search: any codeword may come out of it, so losslessness does not depend on it.
- Edge mode, fuzziness, convergent encryption and several codebooks at once: the program does not restore the input there.
- Fixed-size and semantic chunkers: used only through what every chunker promises, that its chunks cover the data.
- Entropy and similarity values: each comparison is an arbitrary choice, so floating point plays no part.
- Metrics, progress, the Merkle root (written, never read), embedded brains beyond their bytes in the header, and the opening of codebook files.
- Temporary files and the rewriting of a file in place: files are strings of bytes, written once with their final header.
- Coding.BuildIndex: the map of exact words only; the buckets filled in the same loop belong to the similarity search.
- Unpacker.Unpack: files of version 1 are refused, where the program reads one pool for the whole file; the three attempts at decompressing a block are one, since decompression is a function here.
- Unpacker.UnpackBytes: files of version 1 are refused, as above.
- FileWriter.Pack: the decision to store a file whole because of its entropy is a choice given to the method, and so are salt, nonces, hashes for identification and the Merkle root.
- ChunkWorkers.EncodeChunk: one codebook, archive mode, no convergent encryption.
- Patch.ApplyPatch: a script that ends in the middle of an operation stops the program; here it is an error like the others. Insert data are bounded by the length of the script, not by the capacity behind its slice.
- Caches.MemoryCache.Get: list elements are values, and the map holds copies of them instead of references into the list; the lock is not modelled.
- RandomAccess.RandomReader.ReadAt: one reader at a time; the second look into the cache under the lock is there, but nothing can come between. Slices the program would take out of bounds on a malformed table are errors here.
- RandomAccess.RandomReader.ReadPassthrough: the decrypted payload of a file stored whole is not kept between reads.
- RandomAccess.Open: local files, with the brain given; no paging over HTTP.
- Headers.HeaderRoundTrip: version 9, which is read but never written, has no round trip to state.
- Seeding.StreamBlocks: the callbacks of `ForEachBlock` are written into each of the three loops that use it; the branch for an index before the current block is left out, since `Seeding.SendBlock` proves that it is never taken.
- Seeding.StreamChunks: an error of the walk is stated, not what was sent before it.
- Syncing.HandleDiffReq: what a failing stream sends before it breaks off is not modelled.
- Syncing.RequestSync: names are base names already, and one request follows the other on one stream. The condition on the sizes of messages and tables is that of the protocol's own limits.
- Handshakes.EveryRun: proofs are symbolic, equal only when made from the same brain, sender and nonce, and nonces are drawn fresh. Deadlines are a step that may fail a session at any time.
- Selector.SelectPicked: the result keeps the entries; the copy of their data into a list is not modelled.
- RollingChunker.CDCChunker.Split: where the loop would not end there is no result to state; `RollingChunker.CDCChunker.ReturnsIff` says exactly where that is.
- The commit log of written files, the virtual file system around the reader, discovery and gossip: plumbing without properties of its own.
