# Dumper: a verified model

Dumper backs up PostgreSQL and MySQL databases into a deduplicating, encrypted
repository that several machines may use at once, through a local directory or
an S3 bucket. This project models its hardest parts in Dafny and proves what
they promise: for every input, every interleaving and every reachable state.

`dafny verify dfyconfig.toml` checks all of it.

## How it is laid out

| part | files |
|---|---|
| repository locks | `LockRules`, `LockCode`, `LockProtocol`, `LockLimits`, `LockContention`, `LockSharing` |
| content store and garbage collector | `Codecs`, `Compression`, `Paths`, `Engine` |
| backups, forgets and prunes side by side | `RepositoryProtocol`, `RepositoryLimits`, `RepositoryAlone`, `PruneLimits` |
| the DMP1 byte stream | `StreamFormat`, `StreamEncoder`, `StreamDecoder`, `StreamTheorems` |
| chunks, upload, download | `Chunker`, `Pipeline`, `PipelineTheorems` |
| retention | `Retention`, `RetentionTheorems`, `RetentionFields` |
| PostgreSQL views and COPY data | `ViewOrder`, `ViewOrderTheorems`, `ViewOrderFields`, `CopyRestore`, `CopyTheorems`, `RestoreStatements`, `RestoreTheorems` |
| MySQL rows as SQL text | `MysqlText`, `MysqlRows` |
| S3 listings | `S3Xml`, `S3Documents`, `S3Listing` |
| the local backend | `TempNames`, `LocalFiles`, `LocalListing` |
| helpers | `Wrappers`, `Sets`, `Names`, `TextTools` |

Code that changes state step by step is a class or a method with loops, proved
against a specification function or predicate; what the source promises is then
proved about that specification, and again on the plain fields of what goes in
and comes out. Concurrent parts are state machines with one
action for each backend or file-system call, a clock and crashes; their results
are about every run.

Where a promise does not hold without a condition, the condition is part of the
theorem, in both directions, and a concrete run or input shows the failure:

- Locks exclude each other in every run, whatever creation times processes
  write, if and only if the delay from a process's first listing to its put
  stays under the 500 ms settle time and no clock can take the heartbeat of a
  live lock for dead. A request that is retried for longer breaks it, and so
  does an unlock that has read a late heartbeat on a fast clock.
- Pruning never leaves a snapshot without one of its blobs, in every run, under
  exactly the same condition.
- Where directories cannot be read, prune spares all that the snapshots mention
  if and only if none of these lies under `snapshots/`, or no blob is listed
  either. With `snapshots/` itself unreadable it deletes every blob; and where
  snapshots lie in `snapshots/` itself, as backups put them, only that one
  directory matters.
- A finished stream is read back if and only if it holds at least one record:
  the trailer's digest is taken before the magic bytes are written
  (`src/stream/encoder.rs:125`, `src/stream/encoder.rs:131`), while the decoder
  always hashes them (`src/stream/decoder.rs:43`).
- A PostgreSQL restore of a backup stream that may be cut short, with any calls
  failing, asks the database for one COPY session per table with data, in order,
  or for the beginning of that. It succeeds, and commits its transaction, if and
  only if the stream is there in full with at least one record, its headers are
  PostgreSQL's, and no call that matters fails.
- Raising retention numbers loses no snapshot of any list if and only if there
  was a rule before or there is none after.
- COPY data reaches its table in full if and only if no slice marked last
  carries data without an open session of its table; such data is dropped in
  silence. Backups never write such a slice.
- Object files hold old or new bytes in full in every run, on machines with any
  host names. Cleaning up temporary files spares every live writer, in every
  run, if and only if no two machines share a sanitised host name; `db.1` and
  `db-1` do.
- The view sort falls back to alphabetical order if and only if the views refer
  to each other in a cycle, and then for exactly the greatest set of views in
  which each refers to another member.

## What is assumed

- SHA-256, CRC-32, zstd, the AEAD cipher and JSON are functions. `Lawful` in
  `Codecs`, `StreamFormat` and `MysqlRows` lists what is assumed of them:
  decoding undoes encoding, digests are not empty and have no slash in them. Collision freedom is
  a separate assumption of the theorems that need it.
- Backend calls on present objects succeed and take effect at once; a process
  that crashed has no later effect on blobs and snapshots. Lock files that
  appear late are covered by a foreign-file action.
- Lock ids, snapshot ids and temporary names are not drawn twice. Lock ids are
  numbers that compare as their hexadecimal forms of fixed length do.
- A lock's `created_at` is any number: no theorem bounds it. The source writes
  the clock reading that it also takes as the first heartbeat
  (`src/repository/lock.rs:177`); all failing runs do the same, and the exact
  conditions are stated for such runs too.
- Only the fifteen-minute staleness test needs clock readings that are off by
  at most `skew`, a heartbeat that is stored within 60 s, and an acquisition
  that does not last: `Timing.Fresh` adds them up.
- File times and the cleaning process read one clock, and a live writer has
  written to its temporary file within the hour. A cleaning process can ask which
  processes are alive, as on Unix, and finds itself and process 1 alive.
- MySQL reads text with backslash escapes on; a failed commit has no effect. A
  PostgreSQL call that fails has no effect.
- Listings in `RepositoryProtocol` are complete: every directory can be read.
  `PruneLimits` says what happens where one cannot.
- `Engine` lists a directory, S3 a bare prefix (`src/repository/s3/client.rs:325`).
  The two agree on the keys the repository writes itself, `config` and those
  under `locks/`, `blobs/` and `snapshots/`; no other key in the bucket is taken
  to begin with these names.

## Where the code and its documentation differ

The model follows the code. `REPOSITORY_FORMAT.md` places the compression tag
outside the encrypted envelope; `put_chunk` seals it inside, and `get_chunk`
also accepts the older form outside. `ARCHITECTURE.md` has backups pass through
`StreamChunker`; the backup command has its own read loop, and both are modelled
and produce the same chunks.

## Model

| member | source | states |
|---|---|---|
| LockCode.LockBackend.ListActiveLocks | src/repository/lock.rs:241-263 | exactly the readable locks that have beaten within 15 minutes, or without a heartbeat were created within two hours |
| LockCode.LockBackend.AcquireRaw | src/repository/lock.rs:146-221 | blocked if and only if at the first listing a live lock is exclusive, or any is live when an exclusive one is asked for, and then nothing is stored; yields if and only if such a lock of another id, older or with a lower id, is there at the second, and then its own file is gone; otherwise its file stands. Among shared locks only, a shared request always succeeds |
| LockCode.LockBackend.UnlockAll | src/repository/lock.rs:265-303 | without force exactly the stale readable locks go: what is not readable stays, and the active locks are the same as before; with force every file goes; the number is that of the files gone |
| LockCode.LockGuard.Release | src/repository/lock.rs:54-66 | the first release deletes the lock file, a second one does nothing |
| LockProtocol.StepInv | src/repository/lock.rs:123-221 | every step of any process, crash, heartbeat, foreign file or unlock keeps the protocol invariant |
| LockProtocol.MutualExclusion | src/repository/lock.rs:146-221 | in no run are two conflicting locks held at once, whatever creation times the processes write, if puts land within the settle time and live heartbeats are fresh on every clock |
| LockProtocol.HoldersStayListed | src/repository/lock.rs:123-136 | a live holder's file keeps its id and type, is listed as active by every reader and is never found stale by an unlock; a process that was refused or gave way has no file |
| LockLimits.SlowPut | src/repository/lock.rs:153-221 | a run in which two conflicting locks are held because one put was slow, for any two types of which one is exclusive |
| LockLimits.StaleHolder | src/repository/lock.rs:177-303 | where a live heartbeat can be taken for dead, a run of the code, each lock stamped with one reading, in which two conflicting locks are held: an unlock deletes the file of a live holder |
| LockLimits.ExclusionExactly | src/repository/lock.rs:146-221 | exclusion in every run holds exactly when the put delay is under the settle time and live heartbeats are fresh on every clock; and the same for the runs that stamp creation and heartbeat from one reading |
| LockSharing.BlockedExactly | src/repository/lock.rs:153-175 | in the protocol, reading a file blocks a process exactly if the file is live and one of the two locks is exclusive |
| LockSharing.YieldsExactly | src/repository/lock.rs:192-220 | and at the second listing it yields exactly if besides that lock is older |
| LockSharing.SharedNeverRefused | src/repository/lock.rs:162-170 | in no run of shared locks only is anyone blocked or made to yield, under any timing |
| LockSharing.TwoShared | src/repository/lock.rs:146-221 | a run in which two shared locks are held at once |
| LockSharing.UnlockRefines | src/repository/lock.rs:265-303 | an unforced unlock is a run of the protocol in which each file that goes was found stale |
| LockContention.OldestNeverYields | src/repository/lock.rs:192-220 | from any point of any run on, with any files there, a contender that is older than every contender it conflicts with does not give way, unless a leftover or foreign lock that it conflicts with is older and still active |
| LockContention.SomebodyWins | src/repository/lock.rs:192-220 | in each contention, however many locks came and went before, the oldest contender has acquired, crashed or is still deciding, unless an active leftover or foreign lock that it conflicts with is older |
| Compression.CompressInverse | src/compression/mod.rs:8-45 | decompression under a bound gives back the input exactly when it fits the bound, and stored data is never longer than the input |
| Compression.SmallerStored | src/compression/mod.rs:8-45 | the smaller of input and deflated input is stored, the input when neither is, with the tag that says which, at zstd level 1, 3 or 9 |
| Paths.BlobPathInverse | src/repository/snapshot.rs:34-37 | the last component of a blob path is its hash, for slash-free hashes |
| Paths.PathsApart | src/repository/snapshot.rs:34-41 | blob and snapshot paths never meet, and each lies under its own directory only |
| Paths.SnapshotPathInjective | src/repository/snapshot.rs:39-41 | different snapshot ids have different paths |
| Paths.PathsRead | src/repository/snapshot.rs:34-41 | the paths written out, and that a directory is no bare prefix |
| Engine.SealedOpens | src/repository/engine.rs:70-163 | what put_chunk stores opens to the same bytes, up to the decompression bound and not beyond it |
| Engine.LegacyOpens | src/repository/engine.rs:126-163 | a payload of the older format, its tag before the sealed data, opens to its bytes where it does not itself unseal |
| Engine.Repository.PutChunk | src/repository/engine.rs:70-110 | adds the sealed chunk only if its path is free; the reference says which, with stored size 0 when deduplicated |
| Engine.Repository.CommitSnapshot | src/repository/engine.rs:184-195 | fails and changes nothing exactly if the id is taken, else adds the sealed metadata |
| Engine.Repository.DeleteSnapshot | src/repository/engine.rs:272-275 | removes that snapshot's metadata and nothing else |
| Engine.Repository.ListSnapshots | src/repository/engine.rs:198-222 | succeeds exactly if every listed snapshot is readable, and then gives each of them once, newest first |
| Engine.Repository.Prune | src/repository/engine.rs:278-309 | deletes exactly the listed objects below `blobs/` whose name is no hash of a listed snapshot, counts them, and reports the bytes by which the store shrank; with an unreadable snapshot it deletes nothing |
| Engine.Repository.Check | src/repository/engine.rs:338-364 | counts the listed snapshots, their references without a blob and the orphans |
| Engine.MissingCounts | src/repository/engine.rs:338-364 | each reference without an object counts once |
| Engine.OrphansSpare | src/repository/engine.rs:278-309 | no blob a snapshot mentions and no snapshot is ever an orphan |
| Engine.PruneThenCheck | src/repository/engine.rs:278-364 | after a prune there are no orphans, the same snapshots and missing references as before, and every mentioned blob reads as before |
| Engine.FetchGives | src/main.rs:383-393 | fetching blobs whose paths hold the chunks of their digests gives the concatenation of the chunks |
| RepositoryProtocol.StepInv | src/main.rs:154-285 | every step of any interleaving of backup, forget, prune and lock traffic keeps the repository invariant |
| RepositoryProtocol.RepositorySafe | src/repository/engine.rs:70-309 | in every reachable state every blob a snapshot mentions, or a running backup has collected, is present and opens to bytes of its digest, and whoever deletes blobs was able to read all snapshots |
| RepositoryProtocol.SnapshotsRestore | src/main.rs:369-395 | a snapshot committed in such a run fetches to exactly the bytes its backup cut into chunks |
| RepositoryProtocol.StepKeepsSnapshot | src/main.rs:491-548 | no step touches a committed snapshot except its own forget or a commit under the same id |
| RepositoryProtocol.CommittedStays | src/main.rs:491-548 | through any run without a forget of it or a commit under the same id, a committed snapshot stays as it was |
| RepositoryLimits.PruneRace | src/main.rs:536-548 | with both locks held, a run in which a prune deletes a blob that a backup has deduplicated against, which then commits |
| RepositoryLimits.TwoBackups | src/main.rs:154-285 | two backups hold their locks at the same time and store their chunks side by side |
| RepositoryAlone.BackupAlone | src/main.rs:154-285 | a backup without neighbours runs to its end in the protocol, and leaves what the upload stores and its snapshot |
| RepositoryAlone.ForgetAlone | src/main.rs:491-533 | a forget without neighbours removes its snapshots and, if asked to prune, what is then an orphan |
| RepositoryAlone.PruneAlone | src/main.rs:536-548 | a prune without neighbours removes exactly the orphans |
| RepositoryAlone.BackupsShare | src/main.rs:154-177 | backups take shared locks, forget and prune exclusive ones |
| RepositoryLimits.SafetyExactly | src/repository/engine.rs:278-309 | no dangling reference in any run, exactly when puts land within the settle time and live heartbeats are fresh on every clock; and the same for the runs that stamp each lock from one reading |
| PruneLimits.PruneSparesExactly | src/repository/local.rs:289-314 | prune spares every blob the snapshots mention, in every store of files whose mentioned blobs open to their chunks, exactly when no directory under `snapshots` failed to be read, or no chunk's blob is listed either; in stores whose snapshots lie in `snapshots` itself, exactly when that directory was read, or no blob listed |
| PruneLimits.BlindPrune | src/repository/engine.rs:278-309 | what one backup leaves, with its snapshot not listed and its blob listed: prune deletes the blob the snapshot mentions |
| PruneLimits.AllBlobsTaken | src/repository/local.rs:289-314 | with `snapshots` itself unreadable, the orphans are all blobs |
| StreamFormat.KindByteExact | src/stream/format.rs:43-59 | the byte of a record type is recognised as that type and no other |
| StreamFormat.Le32Inverse | src/stream/encoder.rs:36-78 | reading a little-endian length gives the length written |
| StreamFormat.FrameLayout | src/stream/encoder.rs:36-78 | a frame is type, flags, little-endian length, little-endian CRC-32 and payload, after the magic DMP1 |
| StreamEncoder.Encoder.WriteRawRecord | src/stream/encoder.rs:36-78 | appends exactly one frame and keeps writer, digest and counters in step, or refuses an oversized payload without a trace |
| StreamEncoder.Encoder.Finish | src/stream/encoder.rs:124-134 | appends the trailer of the frames before it; the digest is that of nothing when there are none |
| StreamTheorems.TrailerSpeaks | src/stream/encoder.rs:124-134 | the trailer holds the number of records and of bytes before it, and the digest |
| StreamDecoder.Reader.ReadExact | src/stream/decoder.rs:51-196 | under any fragmentation takes exactly the next bytes, or fails at the end of the input |
| StreamDecoder.Decoder.ReadNextRecord | src/stream/decoder.rs:51-196 | advances as the next-frame specification says, with the same error conditions in the same order |
| StreamDecoder.Drain | src/main.rs:395-406 | reading to the end gives the records and the outcome of the specification |
| StreamTheorems.AcceptsComplete | src/stream/decoder.rs:51-196 | sound frames with a matching trailer are accepted with exactly their records, a verified trailer and exact counts, and what follows is left unread |
| StreamTheorems.AcceptedIsComplete | src/stream/decoder.rs:30-196 | whatever is accepted is exactly the magic and reprinted frames with matching checksums, record count and prefix digest |
| StreamTheorems.PrefixRejected | src/stream/decoder.rs:51-196 | every strict prefix of a complete stream ends in an error |
| StreamTheorems.WrittenCut | src/stream/decoder.rs:51-196 | of an encoder's stream cut anywhere the decoder reads a beginning of the records and then fails; it succeeds exactly on the whole of a non-empty one, with all records and the trailer |
| StreamTheorems.WrittenIsComplete | src/stream/encoder.rs:36-134 | what the encoder writes for one or more records is complete |
| StreamTheorems.RoundTripExactly | src/stream/encoder.rs:36-134 | decoding what was encoded gives exactly the records and a verified trailer, if and only if there was a record |
| StreamTheorems.EmptyRejected | src/stream/encoder.rs:124-134 | a finished stream without records is rejected |
| Chunker.SplitShape | src/chunker/mod.rs:38-79 | the fixed-size split loses nothing, and all chunks are full except possibly the last |
| Chunker.SplitUnique | src/chunker/mod.rs:38-79 | no other list of chunks of that shape has the same bytes: boundaries depend on the bytes alone |
| Chunker.StreamChunker.Write | src/chunker/mod.rs:62-79 | under any split into writes, takes all bytes and hands on only full chunks, or stops where the handler fails with that chunk still in the buffer |
| Chunker.StreamChunker.Finish | src/chunker/mod.rs:42-60 | the chunks handed on are the split of everything taken in, each hashed and counted once, however often the handler failed before; if it fails now, all but the last |
| Pipeline.UploadStream | src/main.rs:178-233 | under any sequence of short reads, the buffer loop stores the fixed-size split of the stream, in order |
| PipelineTheorems.UploadKeepsSound | src/main.rs:178-233 | an upload keeps every stored blob openable and every mentioned blob present |
| PipelineTheorems.AccountingConserved | src/main.rs:188-281 | stream length equals the sum of raw sizes, and deduplicated bytes plus raw sizes of new blobs; stored bytes equal the sum of stored sizes |
| PipelineTheorems.Download | src/main.rs:383-393 | gives the fetched bytes in pieces, none empty, or fails exactly when a blob fails |
| PipelineTheorems.RestoreRecords | src/main.rs:369-412 | a restore succeeds only with the records of the fetched stream, and fails only if a fetch or the decoder does |
| PipelineTheorems.FetchNeverWrong | src/repository/engine.rs:113-163 | from any store, fetching gives the right bytes or an error, and an error exactly when some blob does not open |
| PipelineTheorems.RestoreInvertsBackup | src/main.rs:154-412 | into any sound store, encode, chunk, upload and commit, then fetch and decode: consistent byte counts, exactly the records and a verified trailer, unless there was no record |
| PipelineTheorems.BackupThenRestore | src/main.rs:154-412 | the commands one after the other, through a pipe that cuts anywhere: succeeds exactly if there is a record, all fit and the id is free; then the snapshot stands in the store under its id with the fields given, its blobs fetch to the stream, and the records and the trailer come back; every object of the old store is still there with its bytes in any case, and the store stays sound |
| PipelineTheorems.RepositoryRestoresRecords | src/main.rs:154-412 | the same at the end of any concurrent run that holds the snapshot |
| Retention.EvaluateRetention | src/retention/mod.rs:14-138 | keep and remove partition the list in order, by the declarative rule: outside the filter, among the first N of the group, or the newest of one of its first N buckets |
| Retention.KeepBuckets | src/retention/mod.rs:78-124 | the greedy scan keeps exactly the entries that open one of the first N distinct buckets |
| RetentionTheorems.KeptExactly | src/retention/mod.rs:22-138 | with distinct ids the plan decides each snapshot on its own by that rule |
| RetentionTheorems.KeptInSelection | src/retention/mod.rs:67-125 | a snapshot kept by a rule stays kept by it whatever others leave the list |
| RetentionTheorems.ForgetIdempotent | src/retention/mod.rs:57-140 | the same policy on the kept list, or any part of it, keeps all of it, for any bucket keys |
| RetentionTheorems.ForgetTwice | src/retention/mod.rs:14-138 | the planner run on its own result removes nothing |
| RetentionTheorems.OtherGroupsIrrelevant | src/retention/mod.rs:56-65 | only the snapshot's own group decides about it |
| RetentionTheorems.RaisingKeepsMore | src/retention/mod.rs:69-138 | raising numbers or adding rules to a policy that has a rule never shrinks what is kept |
| RetentionTheorems.RaisingExactly | src/retention/mod.rs:25-138 | raising numbers or adding rules loses nothing of any list in any calendar, exactly when there was a rule before or there is none after |
| RetentionFields.LastKeepsNewest | src/retention/mod.rs:69-80 | for each snapshot that keep-last N removes, N others of its engine, database and tag are kept, none started earlier |
| RetentionFields.BucketsKeepNewest | src/retention/mod.rs:82-124 | for each one that a calendar rule removes, a kept one of its bucket started no earlier, or N of different buckets did; all of its engine, database and tag |
| RetentionFields.NewestKept | src/retention/mod.rs:56-125 | the one that started last among those of its engine, database and tag survives any rule with a number above zero |
| RetentionFields.KeptForAReason | src/retention/mod.rs:22-138 | with rules, what is kept of the selection has fewer than N newer ones beside it, or opens a calendar bucket with fewer than N newer ones |
| RetentionFields.RemovedIsSelected | src/retention/mod.rs:22-50 | nothing outside the database and tag asked for is removed, nor anything without a rule |
| RetentionFields.Forget | src/retention/mod.rs:14-140 | the planner: what it removes has as many newer ones kept as keep-last says, and one at least if any number is above zero |
| ViewOrder.SortViewsTopologically | src/database/postgres.rs:1343-1413 | the incremental algorithm over maps and a ready set returns the greedy order, then the remaining views by name, each once, whatever order the hash map yields |
| ViewOrder.Release | src/database/postgres.rs:1384-1396 | finishing a view leaves pending references and the ready set exactly as recomputed from the visited views |
| ViewOrderTheorems.EveryViewOnce | src/database/postgres.rs:1370-1413 | the result is a permutation of the views |
| ViewOrderTheorems.ReferencedFirst | src/database/postgres.rs:1370-1396 | outside the fallback a view comes after all it refers to, and was the least (schema, name, oid) of those ready |
| ViewOrderTheorems.FallbackIsGreatest | src/database/postgres.rs:1398-1410 | the fallback takes the greatest set of views in which each refers to another member |
| ViewOrderTheorems.FallbackOnlyForCycles | src/database/postgres.rs:1398-1410 | there is a fallback if and only if some views refer to each other in a cycle |
| ViewOrderTheorems.AcyclicInOrder | src/database/postgres.rs:1343-1413 | without cycles every referenced view precedes its users in the whole result |
| ViewOrderTheorems.OneResult | src/database/postgres.rs:1354-1410 | with distinct oids and names the result does not depend on the order of views, dependencies or the hash map, nor on repeated, foreign or self references |
| ViewOrderFields.OrderViews | src/database/postgres.rs:1343-1413 | on the lists themselves: every view once; up to some place each follows all it refers to and is the earliest by schema, name and oid of those that could stand there; from there on each refers to another one there, and they go by name; that rest is empty exactly if no views refer to each other in a circle |
| CopyRestore.BackupTable | src/database/postgres.rs:721-764 | a schema record, numbered non-empty slices of at most 1 MiB that concatenate to the COPY output, and an empty marker |
| CopyRestore.Restorer.Restore | src/database/postgres.rs:1047-1296 | the loop over the decoder, with dropped tables, sequences created ahead and a single transaction as asked for: the calls are those of the step specification for the records read, or a beginning of them and a rollback; success exactly if a trailer or the end is reached, no header is foreign and no call that matters fails; the transaction is committed exactly then |
| CopyTheorems.SessionsInTurn | src/database/postgres.rs:1160-1221 | for any records, never two sessions open, only the open one is fed, each is finished once |
| CopyTheorems.DeliveredExactly | src/database/postgres.rs:1160-1221 | every byte reaches its table in order if and only if no last slice carries data without an open session of its table |
| CopyTheorems.LastSliceLost | src/database/postgres.rs:1179-1221 | one slice, marked last, with one byte: nothing is delivered |
| CopyTheorems.OneSessionPerTable | src/database/postgres.rs:725-1221 | for a stream as backups write it, header included, one session for each table with data, in order, finished before anything else runs |
| RestoreTheorems.RestoreBackup | src/database/postgres.rs:1047-1296 | from the bytes of a backup in any pieces, cut anywhere, whichever calls fail: one session per table with data, in order, or the beginning of that, never two open; each table with data has its bytes, and the statements executed are those to be executed, in order, or the first of them; nothing is dropped or created that is not asked for; success and commit exactly if the stream is whole and not empty, no header is foreign and no call that matters fails |
| CopyTheorems.SessionHoldsTable | src/database/postgres.rs:744-1221 | a table's session is fed exactly the bytes of the table's records |
| CopyTheorems.TablesLoaded | src/database/postgres.rs:725-1221 | over a whole stream, each table with data has a session under its schema and name that is fed exactly its bytes |
| RestoreStatements.WholeExecutes | src/database/postgres.rs:1099-1258 | what a restore executes is, in order, each schema, sequence, constraint, index, view and routine read, and each other statement but the creation of a system schema |
| RestoreStatements.RunsUnlessSystem | src/database/postgres.rs:1099-1108 | a statement that does not begin with CREATE SCHEMA, or whose name has no pg_ in it, is executed |
| RestoreStatements.TempSchemaPassedOver | src/database/postgres.rs:1099-1108 | the creation of pg_temp_1 is not |
| RestoreStatements.PreparedFirst | src/database/postgres.rs:1125-1160 | ahead of a table it is dropped if that is asked for, and the sequences its defaults name are created |
| RestoreStatements.WholeAllowed | src/database/postgres.rs:1047-1296 | nothing else is asked: no drop unless asked for and for a table that is restored, no sequence but for a default, no transaction but a single one |
| MysqlText.EscapeMysqlString | src/database/mysql.rs:49-67 | the loop yields the quoted literal that the reading lemmas are about |
| MysqlText.EscapedCharacters | src/database/mysql.rs:49-67 | the nine characters that are escaped, and how; all others stand for themselves |
| MysqlText.TextEndsExactly | src/database/mysql.rs:49-67 | a literal reads back as its text and ends at its own closing quote, if and only if no quote follows |
| MysqlText.IdentifierEndsExactly | src/database/mysql.rs:70-72 | the same for identifiers in backticks |
| MysqlText.ReadHexBack | src/database/mysql.rs:616-633 | a binary literal reads back as its bytes |
| MysqlText.InsertReadsBack | src/database/mysql.rs:594-635 | a printed INSERT reads back as its table, columns and rows: no name or value changes what the statement means |
| MysqlText.StatementReads | src/database/mysql.rs:594-635 | one statement in full |
| MysqlRows.BackupRows | src/database/mysql.rs:253-345 | rows leave in full slices of 1000, the last possibly shorter, numbered from 1, then an empty marker |
| MysqlRows.RestoreSlice | src/database/mysql.rs:577-655 | a slice is committed as INSERTs of at most 200 rows, all of it or nothing, whichever query fails |
| MysqlRows.RestoreTable | src/database/mysql.rs:577-655 | after any failure, of a query or of parsing, exactly the slices before it are in |
| MysqlRows.RowsComeBack | src/database/mysql.rs:253-655 | through slices, chunks, text and the server's reader the rows are the original ones in order; after a failure, a whole number of slices of them |
| MysqlRows.BackupAndRestore | src/database/mysql.rs:253-655 | backup then restore without failures leaves exactly the rows |
| S3Xml.ReplaceOne | src/repository/s3/client.rs:388-394 | replacing one entity undoes the escaping of one character while the ampersand is still escaped |
| S3Xml.UnescapeUndoes | src/repository/s3/client.rs:388-394 | the ordered replacements undo any escaping of a choice of the five characters that includes the ampersand |
| S3Xml.EntitiesRead | src/repository/s3/client.rs:388-394 | the five entities, each by itself |
| S3Xml.ReadableItems | src/repository/s3/client.rs:396-467 | which elements can be read: any name and attributes without brackets, and no slash at their end |
| S3Xml.ExtractXmlTags | src/repository/s3/client.rs:396-467 | the cursor loop yields the extraction specification, branch by branch |
| S3Documents.DocumentReadsBack | src/repository/s3/client.rs:396-467 | from any well-formed document exactly the texts of the named elements come out, in order, whatever else it holds |
| S3Listing.CleanUndoesFull | src/repository/s3/client.rs:96-103 | stripping the repository prefix undoes full_key, for every prefix and path |
| S3Listing.PrefixesAgree | src/repository/s3/client.rs:96-103 | matching full keys is matching relative paths |
| S3Listing.KeysRead | src/repository/s3/client.rs:96-103 | full and relative keys written out |
| S3Listing.TruthRead | src/repository/s3/client.rs:361-380 | a page counts as truncated only by the word true, in any letters and between white space |
| S3Listing.ListObjects | src/repository/s3/client.rs:324-385 | for any split into pages, the sorted relative keys of all pages; fails only if a request does |
| S3Listing.OnePageServed | src/repository/s3/client.rs:352-380 | any keys can be served by a service as it is taken to be |
| S3Listing.ListsExactly | src/repository/s3/client.rs:324-385 | the listing holds each relative path of the bucket that begins with the wanted text exactly once, in order, and nothing else |
| Names.AtMostMeans | src/repository/s3/client.rs:383 | the order of strings: at the first difference the lower character comes first |
| Names.SortedReads | src/repository/local.rs:313 | a sorted listing is in that order |
| S3Listing.OwnKeysListedAlike | src/repository/s3/client.rs:325-326 | among the repository's own keys, beginning with a directory's name is lying under it |
| TempNames.HostId | src/repository/local.rs:91-125 | a host id is never empty and consists of letters, digits and hyphens; it is the HOSTNAME variable, or else the system's name, with every other character replaced by a hyphen |
| TempNames.NameSplits | src/repository/local.rs:161-166 | a temporary name splits back into exactly its host, pid and random number |
| TempNames.SparedExactly | src/repository/local.rs:362-400 | cleanup spares a recent file exactly if it carries another host's id or the pid of a live process |
| TempNames.OldNamesSpared | src/repository/local.rs:391-398 | a recent file named by an older version is spared for a live pid alone, and one without numbers never |
| TempNames.TmpNameReads | src/repository/local.rs:163-168 | a temporary name written out |
| LocalFiles.StepObjects | src/repository/local.rs:161-230 | a finished rename puts the whole data at its target, a delete removes one object; no other step, crash or cleanup changes an object |
| LocalFiles.TmpBeside | src/repository/local.rs:160-172 | the temporary file lies in the directory of its target |
| LocalFiles.PutStores | src/repository/local.rs:151-230 | a writer left alone, whatever its pauses within the hour, puts its data at its target, new or not, and leaves nothing else behind |
| LocalFiles.ObjectsWhole | src/repository/local.rs:151-230 | in every run, on machines with any host ids, each object holds old or new bytes in full, if no temporary path is drawn twice |
| LocalFiles.RunInv | src/repository/local.rs:151-230 | in every run on machines with distinct host ids, each object is whole, and a live writer's temporary file is there and whole |
| LocalFiles.SharedIdLosesFile | src/repository/local.rs:377-391 | two machines with one host id: a cleanup removes the file of a live writer |
| LocalFiles.DottedNamesCollide | src/repository/local.rs:89-125 | machines called db.1 and db-1 share a host id, so live files are lost |
| LocalFiles.KeptExactly | src/repository/local.rs:344-411 | live writers keep their files in every run, exactly when no two machines share a host id |
| LocalFiles.AnyHosts | src/repository/local.rs:91-125 | the ids of machines of any names are such host ids |
| LocalListing.ListTree | src/repository/local.rs:289-314 | the walk over a stack of directories lists exactly the object files at any depth under readable directories, each once, sorted, and no temporary file |
| LocalListing.PathStringReads | src/repository/local.rs:276-312 | a path is its names with one slash between each two |
| LocalListing.ListObjects | src/repository/local.rs:265-314 | the same for a directory, nothing for a file, and for a missing name the files beside it whose path begins with it; fails exactly if the parent of a missing name is no directory or cannot be read |
| LocalListing.LocalBackend.CleanupTempFiles | src/repository/local.rs:344-411 | removes exactly the files named `.tmp_...` under readable directories that are not in flight, and counts them; all else stays as it was |
| LocalListing.ListedIsWhole | src/repository/local.rs:151-314 | whatever the listing of a directory shows in any reachable state is complete, on machines with any host ids |

## Left out

- RepositoryProtocol.RepositorySafe: does not model failing backend calls, nor writes of a crashed process that land later, because both depend on the backend's own guarantees.
- LockProtocol.MutualExclusion: the put delay is a bound on time, not on retries; how long the S3 client may retry a put is not part of this model.
- MysqlRows.RestoreSlice: a commit whose answer is lost counts as failed without effect.
- LocalFiles.StepObjects: the remove-then-rename fallback is not modelled; it has a window without a target. Directory creation and permissions are not modelled either.
- LocalListing.ListObjects: the normalisation of slashes in paths is not modelled, nor is an error in the middle of reading a directory.
- Counters are unbounded; the source's 64-bit widths are not modelled, its 32-bit frame lengths and process ids are.
- "A locked restore never misses a blob" is not claimed: the snapshot is looked up before the lock is taken (`src/main.rs:369-370`).
- The signal handler, the drop of a lock guard and `unlock --force` against live holders count as crashes or are outside the invariants.
- Bucket keys of the retention planner are abstract. The weekly key pairs the calendar year with the ISO week (`src/retention/mod.rs:106`), so it is not the ISO 8601 week at year boundaries; the theorems hold for any keys.
- The order in which listings come back is not modelled where no code depends on it.
- Conversion of MySQL values to text, including dates and lossy UTF-8; the model starts from rows of text, bytes and NULL.
- Finding a snapshot by the beginning of its id, and verifying one: they would add easy members beside listing and fetching.
- The PostgreSQL quoting functions: they would add easy members beside the MySQL ones.
- Hidden internals: SHA-256, CRC-32, zstd, XChaCha20-Poly1305, Argon2, JSON.
- The text of statements, such as the one that creates a sequence a column default names, is a parameter or a record.
- TLS, HTTP, SigV4 signing, connection strings, catalog queries and DDL text.
- Statistics, command line, progress, exit codes, secret masking and the key envelope.
