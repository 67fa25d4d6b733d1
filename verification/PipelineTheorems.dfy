// What an uploaded stream guarantees, and that restore inverts backup.
module PipelineTheorems {
  import opened Wrappers
  import opened Codecs
  import opened Paths
  import opened Engine
  import opened Chunker
  import opened StreamFormat
  import opened StreamTheorems
  import opened Pipeline
  import D = StreamDecoder
  import E = StreamEncoder
  import R = RepositoryProtocol
  import L = LockProtocol

  // One reference per chunk, in order; each chunk's object is there, and every
  // object that was there before is untouched.
  ghost predicate Represents(c: StoreCodec, store: Store, p: Progress, chunks: seq<bytes>) {
    && |p.blobs| == |chunks|
    && (forall i :: 0 <= i < |chunks| ==>
          && p.blobs[i].hash == c.sha256(chunks[i]) && p.blobs[i].rawSize == |chunks[i]|
          && BlobPath(c.sha256(chunks[i])) in p.store)
    && (forall k :: k in store ==> k in p.store && p.store[k] == store[k])
  }

  lemma PutRepresents(c: StoreCodec, level: Level, store: Store, p: Progress, chunks: seq<bytes>, raw: bytes,
                      nonce: nat)
    requires Represents(c, store, p, chunks)
    ensures Represents(c, store, PutNext(c, level, p, raw, nonce), chunks + [raw])
  {
  }

  lemma {:induction false} UploadRepresents(c: StoreCodec, level: Level, nonces: nat -> nat, store: Store,
                                            chunks: seq<bytes>)
    ensures Represents(c, store, Uploaded(c, level, nonces, store, chunks), chunks)
  {
    if chunks == [] {
    } else {
      var n := |chunks| - 1;
      UploadRepresents(c, level, nonces, store, chunks[..n]);
      PutRepresents(c, level, store, Uploaded(c, level, nonces, store, chunks[..n]), chunks[..n], chunks[n], nonces(n));
      assert chunks[..n] + [chunks[n]] == chunks;
    }
  }

  // A sound store stays sound.
  lemma {:induction false} UploadKeepsSound(c: StoreCodec, level: Level, nonces: nat -> nat, store: Store,
                                            chunks: seq<bytes>)
    requires c.Lawful() && WellFormed(c, store) && R.NoDangling(c, store)
    requires forall i :: 0 <= i < |chunks| ==> |chunks[i]| <= R.CHUNK_SIZE
    ensures var after := Uploaded(c, level, nonces, store, chunks).store;
            WellFormed(c, after) && R.NoDangling(c, after)
  {
    hide WellFormed, R.NoDangling, Seal, BlobPath;
    if chunks == [] {
    } else {
      var n := |chunks| - 1;
      UploadKeepsSound(c, level, nonces, store, chunks[..n]);
      R.UploadStore(c, Uploaded(c, level, nonces, store, chunks[..n]).store, chunks[n], level, nonces(n));
    }
  }

  // ------------------------------------------------------- byte accounting

  function RawTotal(blobs: seq<BlobRef>): nat {
    if blobs == [] then 0 else RawTotal(blobs[..|blobs| - 1]) + blobs[|blobs| - 1].rawSize
  }

  function StoredTotal(blobs: seq<BlobRef>): nat {
    if blobs == [] then 0 else StoredTotal(blobs[..|blobs| - 1]) + blobs[|blobs| - 1].storedSize
  }

  // Raw sizes of the chunks that were stored, not deduplicated.
  function NewTotal(blobs: seq<BlobRef>): nat {
    if blobs == [] then 0
    else NewTotal(blobs[..|blobs| - 1])
         + (if blobs[|blobs| - 1].storedSize > 0 then blobs[|blobs| - 1].rawSize else 0)
  }

  lemma NothingCounts()
    ensures RawTotal([]) == StoredTotal([]) == NewTotal([]) == |Flatten<byte>([])| == 0
  {
  }

  // Nothing is lost in the books: the raw sizes add up to the stream, and
  // split exactly into deduplicated and newly stored bytes.
  lemma {:induction false} AccountingConserved(c: StoreCodec, level: Level, nonces: nat -> nat, store: Store,
                                               chunks: seq<bytes>)
    requires c.Lawful()
    ensures var p := Uploaded(c, level, nonces, store, chunks);
            && RawTotal(p.blobs) == |Flatten(chunks)|
            && p.deduplicatedBytes + NewTotal(p.blobs) == |Flatten(chunks)|
            && p.storedBytes == StoredTotal(p.blobs)
  {
    hide PutNext, RawTotal, StoredTotal, NewTotal, Flatten;
    if chunks == [] {
      NothingCounts();
    } else {
      var n := |chunks| - 1;
      AccountingConserved(c, level, nonces, store, chunks[..n]);
      PutAccounts(c, level, Uploaded(c, level, nonces, store, chunks[..n]), chunks[n], nonces(n));
      assert chunks == chunks[..n] + [chunks[n]];
      FlattenSnoc(chunks[..n], chunks[n]);
    }
  }

  lemma PutAccounts(c: StoreCodec, level: Level, before: Progress, raw: bytes, nonce: nat)
    requires c.Lawful()
    ensures var p := PutNext(c, level, before, raw, nonce);
            && RawTotal(p.blobs) == RawTotal(before.blobs) + |raw|
            && p.deduplicatedBytes + NewTotal(p.blobs) == before.deduplicatedBytes + NewTotal(before.blobs) + |raw|
            && p.storedBytes - before.storedBytes == StoredTotal(p.blobs) - StoredTotal(before.blobs)
  {
    SealNotEmpty(c, raw, level, nonce);
    hide Seal, BlobPath;
    var p := PutNext(c, level, before, raw, nonce);
    assert p.blobs[..|p.blobs| - 1] == before.blobs;
  }

  lemma SealNotEmpty(c: StoreCodec, raw: bytes, level: Level, nonce: nat)
    requires c.Lawful()
    ensures |Seal(c, raw, level, nonce)| > 0
  {
  }

  // ------------------------------------------------------------ the way back

  // The download loop of restore: fetch each chunk and write it to the pipe.
  method Download(repo: Repository, blobs: seq<BlobRef>) returns (r: Result<seq<bytes>, Error>)
    ensures r.Success? ==> Fetch(repo.c, repo.store, blobs) == Success(Flatten(r.value))
    ensures r.Failure? ==> Fetch(repo.c, repo.store, blobs).Failure?
    ensures r.Success? ==> forall i :: 0 <= i < |r.value| ==> r.value[i] != []
  {
    var pieces: seq<bytes> := [];
    assert blobs[0..] == blobs;
    ContinueNothing(Fetch(repo.c, repo.store, blobs));
    for n := 0 to |blobs|
      invariant forall i :: 0 <= i < |pieces| ==> pieces[i] != []
      invariant Fetch(repo.c, repo.store, blobs)
                == Continue(pieces, Fetch(repo.c, repo.store, blobs[n..]))
    {
      var chunk := GetChunk(repo.c, repo.store, blobs[n].hash);
      assert blobs[n..][1..] == blobs[n + 1..];
      if chunk.Failure? {
        return Failure(chunk.error);
      }
      ContinueStep(pieces, chunk.value, Fetch(repo.c, repo.store, blobs[n + 1..]));
      if chunk.value != [] {
        pieces := pieces + [chunk.value];
      }
    }
    assert blobs[|blobs|..] == [];
    assert Flatten(pieces) + [] == Flatten(pieces);
    return Success(pieces);
  }

  ghost function Continue(pieces: seq<bytes>, rest: Result<bytes, Error>): Result<bytes, Error> {
    match rest
    case Failure(e) => Failure(e)
    case Success(more) => Success(Flatten(pieces) + more)
  }

  lemma ContinueNothing(rest: Result<bytes, Error>)
    ensures Continue([], rest) == rest
  {
    if rest.Success? {
      assert Flatten([]) + rest.value == rest.value;
    }
  }

  // Writing one more chunk to the pipe; an empty one changes nothing.
  lemma ContinueStep(pieces: seq<bytes>, raw: bytes, rest: Result<bytes, Error>)
    ensures Continue(if raw == [] then pieces else pieces + [raw], rest)
            == Continue(pieces, if rest.Success? then Success(raw + rest.value) else rest)
  {
    FlattenSnoc(pieces, raw);
    if rest.Success? {
      assert Flatten(pieces) + (raw + rest.value) == Flatten(pieces) + raw + rest.value;
      assert raw == [] ==> raw + rest.value == rest.value;
    }
  }

  // Restore as a command: download, then decode the pieces as they come.
  method RestoreRecords(repo: Repository, codec: StreamCodec, blobs: seq<BlobRef>)
    returns (r: Result<seq<Record>, Error>)
    requires codec.Lawful()
    ensures r.Success? ==>
              && Fetch(repo.c, repo.store, blobs).Success?
              && var (records, end) := D.ReadAll(codec, D.Initial(Fetch(repo.c, repo.store, blobs).value));
                 records == r.value && end.Success?
    ensures r.Failure? ==>
              || Fetch(repo.c, repo.store, blobs).Failure?
              || D.ReadAll(codec, D.Initial(Fetch(repo.c, repo.store, blobs).value)).1.Failure?
  {
    var pieces := Download(repo, blobs);
    if pieces.Failure? {
      return Failure(pieces.error);
    }
    var reader := new D.Reader(pieces.value);
    var decoder := new D.Decoder(codec, reader);
    var records, end := D.Drain(decoder);
    if end.Failure? {
      return Failure(end.error);
    }
    return Success(records);
  }

  lemma ChunkOrError(c: StoreCodec, store: Store, chunk: bytes)
    requires c.CollisionFree()
    ensures var got := GetChunk(c, store, c.sha256(chunk)); got.Failure? || got == Success(chunk)
  {
  }

  // Whatever has happened to the store, a fetch gives the chunks that were
  // backed up or an error, never other bytes.
  lemma {:induction false} FetchNeverWrong(c: StoreCodec, store: Store, blobs: seq<BlobRef>, chunks: seq<bytes>)
    requires c.CollisionFree() && |blobs| == |chunks|
    requires forall i :: 0 <= i < |blobs| ==> blobs[i].hash == c.sha256(chunks[i])
    ensures Fetch(c, store, blobs) == Success(Flatten(chunks))
            || (exists i :: 0 <= i < |blobs| && GetChunk(c, store, blobs[i].hash).Failure?)
    ensures Fetch(c, store, blobs).Failure? <==>
              exists i :: 0 <= i < |blobs| && GetChunk(c, store, blobs[i].hash).Failure?
  {
    hide GetChunk;
    if blobs == [] {
    } else {
      ChunkOrError(c, store, chunks[0]);
      FetchNeverWrong(c, store, blobs[1..], chunks[1..]);
      if i :| 0 <= i < |blobs| && GetChunk(c, store, blobs[i].hash).Failure? {
        if i > 0 {
          assert blobs[1..][i - 1] == blobs[i];
        }
      }
      if Fetch(c, store, blobs[1..]).Failure? {
        var i :| 0 <= i < |blobs[1..]| && GetChunk(c, store, blobs[1..][i].hash).Failure?;
        assert blobs[i + 1] == blobs[1..][i];
      }
    }
  }

  // ------------------------------------------------------------- theorems

  // The snapshot a backup commits after uploading a stream.
  function SnapshotOf(p: Progress, stream: bytes, id: string, engine: string, database: string, tag: Option<string>,
                      startedAt: int): Snapshot {
    Snapshot(id, engine, database, tag, startedAt, |stream|, p.storedBytes, p.deduplicatedBytes, p.blobs)
  }

  ghost function Committed(c: StoreCodec, p: Progress, snapshot: Snapshot, nonce: nat): Store {
    p.store[SnapshotPath(snapshot.id) := c.seal(nonce, c.printSnapshot(snapshot))]
  }

  // Restore inverts backup, on any sound store, at any compression level, for
  // any list of records that fits: the committed snapshot decodes, its books
  // balance, and fetching its blobs and decoding them gives exactly those
  // records and then a verified trailer, unless there was no record.
  lemma RestoreInvertsBackup(c: StoreCodec, codec: StreamCodec, level: Level, nonces: nat -> nat, store: Store,
                             records: seq<Record>, meta: Snapshot, nonce: nat)
    requires c.Lawful() && c.CollisionFree() && codec.Lawful() && codec.sha256([]) != codec.sha256(MAGIC)
    requires WellFormed(c, store) && R.NoDangling(c, store)
    requires forall i :: 0 <= i < |records| ==> !records[i].TrailerRecord?
    requires Encodable(codec, records)
    ensures var stream := Written(codec, records);
            var p := Uploaded(c, level, nonces, store, Split(stream, R.CHUNK_SIZE));
            var snapshot := SnapshotOf(p, stream, meta.id, meta.engine, meta.database, meta.tag, meta.startedAt);
            var after := Committed(c, p, snapshot, nonce);
            && WellFormed(c, after) && R.NoDangling(c, after)
            && DecodeSnapshot(c, after[SnapshotPath(meta.id)]) == Success(snapshot)
            && Fetch(c, after, snapshot.blobs) == Success(stream)
            && (D.ReadAll(codec, D.Initial(stream)).1.Success? <==> records != [])
            && (records != [] ==>
                  && D.ReadAll(codec, D.Initial(stream)).0 == records + [TrailerFor(codec, FramesOf(codec, records))]
                  && D.ReadAll(codec, D.Initial(stream)).1.value.trailerVerified)
            && snapshot.logicalBytes == RawTotal(snapshot.blobs)
            && snapshot.deduplicatedBytes + NewTotal(snapshot.blobs) == snapshot.logicalBytes
            && snapshot.storedBytes == StoredTotal(snapshot.blobs)
  {
    hide D.ReadAll, Split, Uploaded, Fetch, WellFormed, R.NoDangling, PrintAll, Written, DecodeSnapshot, BlobPath;
    var stream := Written(codec, records);
    var chunks := Split(stream, R.CHUNK_SIZE);
    var p := Uploaded(c, level, nonces, store, chunks);
    var snapshot := SnapshotOf(p, stream, meta.id, meta.engine, meta.database, meta.tag, meta.startedAt);
    SplitShape(stream, R.CHUNK_SIZE);
    UploadRepresents(c, level, nonces, store, chunks);
    UploadKeepsSound(c, level, nonces, store, chunks);
    AccountingConserved(c, level, nonces, store, chunks);
    var task := R.Backup(chunks, level, meta.id);
    R.CommitStore(c, p.store, R.Job(task, R.Committing), snapshot, nonce);
    CommittedFetches(c, p, chunks, snapshot, nonce);
    RoundTripExactly(codec, records);
  }

  lemma CommittedFetches(c: StoreCodec, p: Progress, chunks: seq<bytes>, snapshot: Snapshot, nonce: nat)
    requires c.Lawful() && c.CollisionFree() && snapshot.blobs == p.blobs
    requires Represents(c, map[], p, chunks) && WellFormed(c, Committed(c, p, snapshot, nonce))
    ensures Fetch(c, Committed(c, p, snapshot, nonce), snapshot.blobs) == Success(Flatten(chunks))
  {
    var after := Committed(c, p, snapshot, nonce);
    forall i | 0 <= i < |chunks| ensures GetChunk(c, after, snapshot.blobs[i].hash).Success? {
      var hash := c.sha256(chunks[i]);
      assert SlashFree(hash) && BlobPath(hash) in after;
    }
    FetchGives(c, after, snapshot.blobs, chunks);
  }

  // Uploads put nothing under snapshots/.
  lemma {:induction false} UploadLeavesSnapshots(c: StoreCodec, level: Level, nonces: nat -> nat, store: Store,
                                                chunks: seq<bytes>, id: string)
    ensures SnapshotPath(id) in Uploaded(c, level, nonces, store, chunks).store <==> SnapshotPath(id) in store
  {
    hide BlobPath, SnapshotPath, Seal;
    if chunks == [] {
    } else {
      var n := |chunks| - 1;
      UploadLeavesSnapshots(c, level, nonces, store, chunks[..n], id);
      PathsApart(c.sha256(chunks[n]), id);
    }
  }

  // What the pipe between two tasks may do to a stream: cut it anywhere.
  ghost predicate Pipe(pipe: bytes -> seq<bytes>) {
    forall stream :: Flatten(pipe(stream)) == stream && forall i :: 0 <= i < |pipe(stream)| ==> pipe(stream)[i] != []
  }

  // The snapshot is in the store under its id, says what was backed up, and
  // fetches to the stream.
  ghost predicate Stands(c: StoreCodec, store: Store, meta: Snapshot, stream: bytes) {
    && SnapshotPath(meta.id) in store && DecodeSnapshot(c, store[SnapshotPath(meta.id)]).Success?
    && var s := DecodeSnapshot(c, store[SnapshotPath(meta.id)]).value;
       && s.id == meta.id && s.engine == meta.engine && s.database == meta.database && s.tag == meta.tag
       && s.startedAt == meta.startedAt && s.logicalBytes == |stream|
       && Fetch(c, store, s.blobs) == Success(stream)
       && s.logicalBytes == RawTotal(s.blobs) && s.storedBytes == StoredTotal(s.blobs)
       && s.deduplicatedBytes + NewTotal(s.blobs) == s.logicalBytes
  }

  // No object is lost or changed.
  ghost predicate Keeps(before: Store, after: Store) {
    forall k :: k in before ==> k in after && after[k] == before[k]
  }

  lemma UploadStands(c: StoreCodec, codec: StreamCodec, level: Level, nonces: nat -> nat, store: Store,
                     records: seq<Record>, meta: Snapshot, nonce: nat)
    requires c.Lawful() && c.CollisionFree() && codec.Lawful() && codec.sha256([]) != codec.sha256(MAGIC)
    requires WellFormed(c, store) && R.NoDangling(c, store)
    requires (forall i :: 0 <= i < |records| ==> !records[i].TrailerRecord?) && Encodable(codec, records)
    ensures var stream := Written(codec, records);
            var p := Uploaded(c, level, nonces, store, Split(stream, R.CHUNK_SIZE));
            var snapshot := SnapshotOf(p, stream, meta.id, meta.engine, meta.database, meta.tag, meta.startedAt);
            var after := Committed(c, p, snapshot, nonce);
            && WellFormed(c, p.store) && R.NoDangling(c, p.store) && Keeps(store, store) && Keeps(store, p.store)
            && Stands(c, after, meta, stream) && (SnapshotPath(meta.id) !in store ==> Keeps(store, after))
  {
    hide D.ReadAll, Split, Uploaded, Fetch, WellFormed, R.NoDangling, PrintAll, Written, DecodeSnapshot, BlobPath;
    var stream := Written(codec, records);
    var chunks := Split(stream, R.CHUNK_SIZE);
    SplitShape(stream, R.CHUNK_SIZE);
    UploadRepresents(c, level, nonces, store, chunks);
    UploadKeepsSound(c, level, nonces, store, chunks);
    RestoreInvertsBackup(c, codec, level, nonces, store, records, meta, nonce);
  }

  // The commands themselves, one after the other: encode, pipe, chunk, store and
  // commit, then fetch and decode. What comes back is what went in, and the
  // trailer, unless there is no record, one does not fit or the id is taken.
  method BackupThenRestore(repo: Repository, codec: StreamCodec, level: Level, nonces: nat -> nat, nonce: nat,
                           pipe: bytes -> seq<bytes>, records: seq<Record>, meta: Snapshot)
    returns (r: Result<seq<Record>, Error>)
    requires repo.c.Lawful() && repo.c.CollisionFree() && codec.Lawful() && codec.sha256([]) != codec.sha256(MAGIC)
    requires WellFormed(repo.c, repo.store) && R.NoDangling(repo.c, repo.store) && Pipe(pipe)
    requires forall i :: 0 <= i < |records| ==> !records[i].TrailerRecord?
    modifies repo
    ensures r.Success? <==> records != [] && Encodable(codec, records) && SnapshotPath(meta.id) !in old(repo.store)
    ensures r.Success? ==> r.value == records + [TrailerFor(codec, FramesOf(codec, records))]
    ensures WellFormed(repo.c, repo.store) && R.NoDangling(repo.c, repo.store)
    ensures r.Success? ==> Stands(repo.c, repo.store, meta, Written(codec, records))
    ensures Keeps(old(repo.store), repo.store)
  {
    var encoded := E.EncodeAll(codec, records);
    if encoded.Failure? {
      return Failure(encoded.error);
    }
    var stream := encoded.value;
    WrittenAs(codec, records, stream);
    ghost var chunks := Split(stream, R.CHUNK_SIZE);
    ghost var p := Uploaded(repo.c, level, nonces, repo.store, chunks);
    UploadLeavesSnapshots(repo.c, level, nonces, repo.store, chunks, meta.id);
    UploadStands(repo.c, codec, level, nonces, repo.store, records, meta, nonce);
    RestoreInvertsBackup(repo.c, codec, level, nonces, repo.store, records, meta, nonce);
    hide D.ReadAll, Split, Uploaded, Fetch, WellFormed, R.NoDangling, PrintAll, Written, DecodeSnapshot, SnapshotPath,
         Stands, Keeps, Encodable;
    var reader := new D.Reader(pipe(stream));
    var blobs, storedBytes, deduplicatedBytes := UploadStream(repo, reader, level, nonces);
    assert Progress(repo.store, blobs, storedBytes, deduplicatedBytes) == p;
    var snapshot := Snapshot(meta.id, meta.engine, meta.database, meta.tag, meta.startedAt, |stream|,
                             storedBytes, deduplicatedBytes, blobs);
    var committed := repo.CommitSnapshot(snapshot, nonce);
    if committed.Failure? {
      return Failure(committed.error);
    }
    assert repo.store == Committed(repo.c, p, snapshot, nonce);
    r := RestoreRecords(repo, codec, snapshot.blobs);
  }

  lemma WrittenAs(codec: StreamCodec, records: seq<Record>, stream: bytes)
    requires Encodable(codec, records)
    requires stream == MAGIC + PrintAll(codec, FramesOf(codec, records) +
                                [FrameOf(codec, TrailerFor(codec, FramesOf(codec, records)))])
    ensures stream == Written(codec, records)
  {
  }

  // And it still does after any further run of backups, forgets, prunes and
  // crashes, for as long as the snapshot has not been forgotten.
  lemma RepositoryRestoresRecords(c: StoreCodec, codec: StreamCodec, t: L.Timing, s: R.State, run: seq<R.Action>,
                                  records: seq<Record>, level: Level, snapshot: Snapshot)
    requires c.Lawful() && c.CollisionFree() && codec.Lawful() && codec.sha256([]) != codec.sha256(MAGIC)
    requires t.Valid() && t.putDelay < L.SETTLE && R.Init(c, s) && R.IsRun(c, t, s, run)
    requires forall i :: 0 <= i < |records| ==> !records[i].TrailerRecord?
    requires Encodable(codec, records)
    requires R.Describes(c, snapshot, R.Backup(Split(Written(codec, records), R.CHUNK_SIZE), level, snapshot.id))
    requires var store := R.After(c, t, s, run).store;
             SnapshotPath(snapshot.id) in store
             && DecodeSnapshot(c, store[SnapshotPath(snapshot.id)]) == Success(snapshot)
    ensures var fetched := Fetch(c, R.After(c, t, s, run).store, snapshot.blobs);
            && fetched.Success?
            && (D.ReadAll(codec, D.Initial(fetched.value)).1.Success? <==> records != [])
            && (records != [] ==>
                  D.ReadAll(codec, D.Initial(fetched.value)).0
                  == records + [TrailerFor(codec, FramesOf(codec, records))])
  {
    hide D.ReadAll, Split, Fetch, PrintAll, Written, R.After, R.IsRun, DecodeSnapshot;
    var stream := Written(codec, records);
    SplitShape(stream, R.CHUNK_SIZE);
    R.SnapshotsRestore(c, t, s, run, R.Backup(Split(stream, R.CHUNK_SIZE), level, snapshot.id), snapshot);
    RoundTripExactly(codec, records);
  }
}
