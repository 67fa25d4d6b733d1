// A whole backup and a whole restore: encoder, chunk loop, store, fetch,
// decoder.
module Pipeline {
  import opened Codecs
  import opened Compression
  import opened Paths
  import opened Engine
  import opened Chunker
  import opened RepositoryProtocol
  import D = StreamDecoder

  // What has been uploaded after some chunks.
  datatype Progress = Progress(store: Store, blobs: seq<BlobRef>, storedBytes: nat, deduplicatedBytes: nat)

  function PutNext(c: StoreCodec, level: Level, p: Progress, raw: bytes, nonce: nat): Progress {
    var hash := c.sha256(raw);
    if BlobPath(hash) in p.store then
      Progress(p.store, p.blobs + [BlobRef(hash, |raw|, 0, 0)], p.storedBytes, p.deduplicatedBytes + |raw|)
    else
      var sealed := Seal(c, raw, level, nonce);
      Progress(p.store[BlobPath(hash) := sealed],
               p.blobs + [BlobRef(hash, |raw|, |sealed|, Compress(c, level, raw).0)],
               p.storedBytes + |sealed|, p.deduplicatedBytes)
  }

  // The n-th sealing draws the n-th nonce.
  function Uploaded(c: StoreCodec, level: Level, nonces: nat -> nat, store: Store, chunks: seq<bytes>): Progress {
    if chunks == [] then Progress(store, [], 0, 0)
    else
      var n := |chunks| - 1;
      PutNext(c, level, Uploaded(c, level, nonces, store, chunks[..n]), chunks[n], nonces(n))
  }

  // Where the backup loop stands: `full` chunks are stored as `p` says, `held`
  // is in the buffer, and `rest` of the stream is still to be read.
  ghost predicate Loaded(c: StoreCodec, level: Level, nonces: nat -> nat, start: Store, p: Progress,
                         full: seq<bytes>, held: bytes, rest: bytes, stream: bytes)
  {
    && AllFull(full, CHUNK_SIZE) && |p.blobs| == |full|
    && stream == Flatten(full) + (held + rest)
    && p == Uploaded(c, level, nonces, start, full)
  }

  // The loop of the backup command: fill the buffer with whatever each read
  // delivers, store it when it is full, and store the rest at the end.
  method UploadStream(repo: Repository, reader: D.Reader, level: Level, nonces: nat -> nat)
    returns (blobs: seq<BlobRef>, storedBytes: nat, deduplicatedBytes: nat)
    requires reader.Valid()
    modifies repo, reader
    ensures Progress(repo.store, blobs, storedBytes, deduplicatedBytes)
            == Uploaded(repo.c, level, nonces, old(repo.store), Split(old(reader.Rest()), 2 * 1024 * 1024))
  {
    hide PutNext, Flatten, Split, Uploaded, AllFull, Loaded, D.Reader.Valid, D.Reader.Rest;
    blobs, storedBytes, deduplicatedBytes := [], 0, 0;
    var buffer := new byte[CHUNK_SIZE];
    var filled: nat := 0;
    ghost var start := repo.store;
    ghost var full: seq<bytes> := [];
    ghost var stream := reader.Rest();
    LoadedStart(repo.c, level, nonces, start, buffer[..0], stream);
    while true
      invariant reader.Valid() && fresh(buffer) && buffer.Length == CHUNK_SIZE && filled <= CHUNK_SIZE
      invariant Loaded(repo.c, level, nonces, start, Progress(repo.store, blobs, storedBytes, deduplicatedBytes),
                       full, buffer[..filled], reader.Rest(), stream)
      decreases |reader.Rest()|
    {
      ghost var before := Progress(repo.store, blobs, storedBytes, deduplicatedBytes);
      if CHUNK_SIZE - filled == 0 {
        ghost var chunk := buffer[..filled];
        LoadedCounts(repo.c, level, nonces, start, before, full, chunk, reader.Rest(), stream);
        blobs, storedBytes, deduplicatedBytes :=
          UploadChunk(repo, level, nonces, start, full, buffer[..filled], blobs, storedBytes, deduplicatedBytes);
        filled := 0;
        LoadedFull(repo.c, level, nonces, start, before, Progress(repo.store, blobs, storedBytes, deduplicatedBytes),
                   full, chunk, buffer[..filled], reader.Rest(), stream);
        full := full + [chunk];
        before := Progress(repo.store, blobs, storedBytes, deduplicatedBytes);
      }
      ghost var held, rest := buffer[..filled], reader.Rest();
      var n := ReadInto(reader, buffer, filled);
      if n == 0 {
        LoadedEnd(repo.c, level, nonces, start, before, full, held, stream);
        if filled > 0 {
          blobs, storedBytes, deduplicatedBytes :=
            UploadChunk(repo, level, nonces, start, full, buffer[..filled], blobs, storedBytes, deduplicatedBytes);
        }
        break;
      }
      filled := filled + n;
      LoadedMore(repo.c, level, nonces, start, before, full, held, rest, buffer[..filled], reader.Rest(), stream);
    }
  }

  lemma LoadedStart(c: StoreCodec, level: Level, nonces: nat -> nat, start: Store, empty: bytes, stream: bytes)
    requires empty == []
    ensures Loaded(c, level, nonces, start, Progress(start, [], 0, 0), [], empty, stream, stream)
  {
  }

  lemma LoadedCounts(c: StoreCodec, level: Level, nonces: nat -> nat, start: Store, p: Progress, full: seq<bytes>,
                     held: bytes, rest: bytes, stream: bytes)
    requires Loaded(c, level, nonces, start, p, full, held, rest, stream)
    ensures |p.blobs| == |full| && p == Uploaded(c, level, nonces, start, full)
  {
  }

  lemma LoadedFull(c: StoreCodec, level: Level, nonces: nat -> nat, start: Store, p: Progress, p': Progress,
                   full: seq<bytes>, held: bytes, empty: bytes, rest: bytes, stream: bytes)
    requires Loaded(c, level, nonces, start, p, full, held, rest, stream) && |held| == CHUNK_SIZE && empty == []
    requires |p'.blobs| == |full| + 1 && p' == Uploaded(c, level, nonces, start, full + [held])
    ensures Loaded(c, level, nonces, start, p', full + [held], empty, rest, stream)
  {
    hide Uploaded;
    FlattenSnoc(full, held);
    Regroup(Flatten(full), held, rest);
    assert empty + rest == rest;
  }

  lemma LoadedMore(c: StoreCodec, level: Level, nonces: nat -> nat, start: Store, p: Progress, full: seq<bytes>,
                   held: bytes, rest: bytes, more: bytes, left: bytes, stream: bytes)
    requires Loaded(c, level, nonces, start, p, full, held, rest, stream) && more + left == held + rest
    ensures Loaded(c, level, nonces, start, p, full, more, left, stream)
  {
  }

  lemma LoadedEnd(c: StoreCodec, level: Level, nonces: nat -> nat, start: Store, p: Progress, full: seq<bytes>,
                  held: bytes, stream: bytes)
    requires Loaded(c, level, nonces, start, p, full, held, [], stream) && |held| <= CHUNK_SIZE
    ensures |p.blobs| == |full| && p == Uploaded(c, level, nonces, start, full)
    ensures Split(stream, CHUNK_SIZE) == if held == [] then full else full + [held]
  {
    assert held + [] == held;
    FullThenRest(full, held, CHUNK_SIZE);
  }

  // read(&mut buffer[at..]): zero only at the end of the stream.
  method ReadInto(reader: D.Reader, buffer: array<byte>, at: nat) returns (n: nat)
    requires reader.Valid() && at < buffer.Length
    modifies reader, buffer
    ensures reader.Valid() && at + n <= buffer.Length
    ensures buffer[..at + n] + reader.Rest() == old(buffer[..at]) + old(reader.Rest())
    ensures n == 0 ==> old(reader.Rest()) == [] && reader.Rest() == []
    ensures n > 0 ==> |reader.Rest()| < |old(reader.Rest())|
    ensures n == 0 ==> buffer[..at] == old(buffer[..at])
  {
    var got := reader.Read(buffer.Length - at);
    forall i | 0 <= i < |got| {
      buffer[at + i] := got[i];
    }
    n := |got|;
    assert buffer[..at + n] == old(buffer[..at]) + got;
    assert old(buffer[..at]) + got + reader.Rest() == old(buffer[..at]) + (got + reader.Rest());
  }

  lemma UploadedSnoc(c: StoreCodec, level: Level, nonces: nat -> nat, store: Store, done: seq<bytes>, raw: bytes)
    ensures Uploaded(c, level, nonces, store, done + [raw])
            == PutNext(c, level, Uploaded(c, level, nonces, store, done), raw, nonces(|done|))
  {
    hide PutNext;
    assert (done + [raw])[..|done|] == done;
  }

  // Hash one chunk, put it, and add up what it cost.
  method UploadChunk(repo: Repository, level: Level, nonces: nat -> nat, ghost start: Store, ghost done: seq<bytes>,
                     raw: bytes, blobs: seq<BlobRef>, storedBytes: nat, deduplicatedBytes: nat)
    returns (blobs': seq<BlobRef>, storedBytes': nat, deduplicatedBytes': nat)
    requires |blobs| == |done|
    requires Progress(repo.store, blobs, storedBytes, deduplicatedBytes) == Uploaded(repo.c, level, nonces, start, done)
    modifies repo
    ensures |blobs'| == |done| + 1
    ensures Progress(repo.store, blobs', storedBytes', deduplicatedBytes')
            == Uploaded(repo.c, level, nonces, start, done + [raw])
  {
    UploadedSnoc(repo.c, level, nonces, start, done, raw);
    hide Uploaded, Seal, BlobPath, Compress;
    var ref, deduplicated := repo.PutChunk(raw, repo.c.sha256(raw), level, nonces(|blobs|));
    storedBytes', deduplicatedBytes' := storedBytes, deduplicatedBytes;
    if deduplicated {
      deduplicatedBytes' := deduplicatedBytes + ref.rawSize;
    } else {
      storedBytes' := storedBytes + ref.storedSize;
    }
    blobs' := blobs + [ref];
  }
}
