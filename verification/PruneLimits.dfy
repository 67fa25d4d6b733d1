// How far prune may be trusted when a listing passes over directories that
// cannot be read.
module PruneLimits {
  import opened Wrappers
  import opened Codecs
  import opened Paths
  import opened Engine
  import Protocol = RepositoryProtocol

  ghost function Pruned(c: StoreCodec, store: Store, unreadable: set<string>): Store {
    store - Orphans(c, Listed(store, unreadable))
  }

  // Every blob a snapshot mentions is still there.
  ghost predicate Spares(c: StoreCodec, store: Store, unreadable: set<string>) {
    forall h :: Referenced(c, store, h) && BlobPath(h) in store ==> BlobPath(h) in Pruned(c, store, unreadable)
  }

  // A path a file can have: names, none empty, with single slashes between.
  predicate FilePath(p: string) {
    && p != [] && p[0] != '/' && p[|p| - 1] != '/'
    && forall i :: 0 <= i < |p| - 1 ==> p[i] != '/' || p[i + 1] != '/'
  }

  predicate IsChunk(raw: bytes) {
    0 < |raw| <= Protocol.CHUNK_SIZE
  }

  // Objects are files, and every blob a snapshot mentions opens to its chunk.
  ghost predicate BackedUp(c: StoreCodec, store: Store) {
    && (forall k :: k in store ==> FilePath(k))
    && (forall h :: Referenced(c, store, h) ==> exists raw :: IsChunk(raw) && ChunkAt(c, store, h, raw))
  }

  ghost predicate ChunkAt(c: StoreCodec, store: Store, h: string, raw: bytes) {
    h == c.sha256(raw) && GetChunk(c, store, h) == Success(raw)
  }

  // Snapshots lie in snapshots/ itself, as ids without a slash put them.
  ghost predicate Flat(store: Store) {
    forall k :: SnapshotKey(store, k) ==> SlashFree(k[|"snapshots/"|..])
  }

  ghost predicate SparesInEveryStore(c: StoreCodec, unreadable: set<string>) {
    forall store :: BackedUp(c, store) ==> Spares(c, store, unreadable)
  }

  ghost predicate SparesInEveryFlatStore(c: StoreCodec, unreadable: set<string>) {
    forall store :: BackedUp(c, store) && Flat(store) ==> Spares(c, store, unreadable)
  }

  // No directory that could hold a snapshot failed to be read.
  predicate SnapshotsRead(unreadable: set<string>) {
    forall dir :: dir in unreadable && FilePath(dir) ==> dir != "snapshots" && !Under("snapshots", dir)
  }

  // No chunk's blob is listed.
  ghost predicate BlobsUnlisted(c: StoreCodec, unreadable: set<string>) {
    forall raw :: IsChunk(raw) ==> Unlisted(unreadable, BlobPath(c.sha256(raw)))
  }

  // ------------------------------------------------------- enough is listed

  lemma AboveFile(dir: string, k: string)
    requires Under(dir, k) && FilePath(k)
    ensures FilePath(dir)
  {
    var n := |dir|;
    assert dir + "/" == k[..n + 1];
    assert k[n] == '/' && dir == k[..n];
    forall i | 0 <= i < n - 1 ensures dir[i] != '/' || dir[i + 1] != '/' {
      assert dir[i] == k[i] && dir[i + 1] == k[i + 1];
    }
  }

  lemma AboveSnapshots(dir: string, k: string)
    requires Under(dir, k) && Under("snapshots", k)
    ensures dir == "snapshots" || (Under("snapshots", dir) && !SlashFree(k[|"snapshots/"|..]))
  {
    var n := |"snapshots"|;
    assert dir + "/" == k[..|dir| + 1] && "snapshots" + "/" == k[..n + 1];
    assert k[|dir|] == '/' && k[n] == '/' && dir == k[..|dir|] && "snapshots" == k[..n];
    if |dir| < n {
      assert k[|dir|] == "snapshots"[|dir|];
      NoSlashInside(|dir|);
    } else if |dir| > n {
      assert dir[..n + 1] == "snapshots" + "/";
      assert k[n + 1..][|dir| - n - 1] == '/';
    }
  }

  lemma NoSlashInside(i: nat)
    requires i < |"snapshots"|
    ensures "snapshots"[i] != '/'
  {
  }

  // Where every snapshot is listed, prune spares what the snapshots mention.
  lemma ListedSnapshotsSpare(c: StoreCodec, store: Store, unreadable: set<string>)
    requires ProperHashes(c, store)
    requires forall k :: SnapshotKey(store, k) ==> !Unlisted(unreadable, k)
    ensures Spares(c, store, unreadable)
  {
    var seen := Listed(store, unreadable);
    hide DecodeSnapshot, Under, BlobPath;
    forall h | Referenced(c, store, h) && BlobPath(h) in store ensures BlobPath(h) in Pruned(c, store, unreadable) {
      var k :| k in store && SnapshotKey(store, k)
               && DecodeSnapshot(c, store[k]).Success? && References(DecodeSnapshot(c, store[k]).value, h);
      assert k in seen && SnapshotKey(seen, k);
      assert Referenced(c, seen, h);
      OrphansSpare(c, seen, h, "");
    }
  }

  lemma UnlistedBlobsSpare(c: StoreCodec, store: Store, unreadable: set<string>)
    requires BlobsUnlisted(c, unreadable) && BackedUp(c, store)
    ensures Spares(c, store, unreadable)
  {
    hide Referenced, Under, BlobPath, GetChunk, FilePath;
    forall h | Referenced(c, store, h) && BlobPath(h) in store ensures BlobPath(h) in Pruned(c, store, unreadable) {
      var raw :| IsChunk(raw) && ChunkAt(c, store, h, raw);
      assert BlobPath(h) !in Listed(store, unreadable);
    }
  }

  lemma ChunkHashesProper(c: StoreCodec, store: Store)
    requires c.Lawful() && BackedUp(c, store)
    ensures ProperHashes(c, store)
  {
    hide Referenced, GetChunk, FilePath;
  }

  lemma EnoughIsListed(c: StoreCodec, store: Store, unreadable: set<string>)
    requires c.Lawful() && BackedUp(c, store)
    requires SnapshotsRead(unreadable) || BlobsUnlisted(c, unreadable) || (Flat(store) && "snapshots" !in unreadable)
    ensures Spares(c, store, unreadable)
  {
    if BlobsUnlisted(c, unreadable) {
      UnlistedBlobsSpare(c, store, unreadable);
    } else {
      ChunkHashesProper(c, store);
      forall k | SnapshotKey(store, k) ensures !Unlisted(unreadable, k) {
        if dir :| dir in unreadable && Under(dir, k) {
          AboveFile(dir, k);
          AboveSnapshots(dir, k);
        }
      }
      ListedSnapshotsSpare(c, store, unreadable);
    }
  }

  // ------------------------------------------------------------ a blind prune

  // What one backup of one chunk leaves.
  ghost function TwoObjects(c: StoreCodec, id: string, raw: bytes): Store {
    map[SnapshotPath(id) := c.seal(1, c.printSnapshot(Mention(id, c.sha256(raw), |raw|))),
        BlobPath(c.sha256(raw)) := Seal(c, raw, NoCompression, 0)]
  }

  function Mention(id: string, hash: string, size: nat): Snapshot {
    Snapshot(id, "mysql", "db", None, 0, size, 0, size, [BlobRef(hash, size, 0, 0)])
  }

  lemma OnlyMention(c: StoreCodec, id: string, raw: bytes, h: string)
    requires c.Lawful()
    ensures Referenced(c, TwoObjects(c, id, raw), h) <==> h == c.sha256(raw)
  {
    var hash, size := c.sha256(raw), |raw|;
    var store := TwoObjects(c, id, raw);
    var k := SnapshotPath(id);
    PathsApart(hash, id);
    assert c.unseal(store[k]) == Some(c.printSnapshot(Mention(id, hash, size)));
    assert DecodeSnapshot(c, store[k]) == Success(Mention(id, hash, size));
    assert SnapshotKey(store, k) && !SnapshotKey(store, BlobPath(hash));
    hide DecodeSnapshot, SnapshotPath, BlobPath, Under;
    assert Mention(id, hash, size).blobs[0].hash == hash;
    assert References(Mention(id, hash, size), h) <==> h == hash;
  }

  lemma TwoObjectsBackedUp(c: StoreCodec, id: string, raw: bytes)
    requires c.Lawful() && IsChunk(raw) && FilePath(SnapshotPath(id))
    ensures BackedUp(c, TwoObjects(c, id, raw))
    ensures SlashFree(id) ==> Flat(TwoObjects(c, id, raw))
  {
    var store, hash := TwoObjects(c, id, raw), c.sha256(raw);
    PathsApart(hash, id);
    BlobIsFile(hash);
    SealedOpens(c, raw, NoCompression, 0);
    assert store[BlobPath(hash)] == Seal(c, raw, NoCompression, 0);
    assert ChunkAt(c, store, hash, raw);
    assert SnapshotPath(id)[|"snapshots/"|..] == id;
    forall h | Referenced(c, store, h) ensures IsChunk(raw) && ChunkAt(c, store, h, raw) {
      OnlyMention(c, id, raw, h);
    }
  }

  lemma BlobIsFile(hash: string)
    requires SlashFree(hash) && hash != []
    ensures FilePath(BlobPath(hash))
  {
    var middle := if |hash| >= 2 then hash[..2] else "xx";
    var p := BlobPath(hash);
    assert "blobs/"[5] == '/';
    forall i | 0 <= i < |p| && i != 5 && i != 8 ensures p[i] != '/' {
      assert p[i] == if i < 6 then "blobs/"[i] else if i < 8 then middle[i - 6] else hash[i - 9];
    }
  }

  // A snapshot that is not listed does not protect a blob that is.
  lemma BlindPrune(c: StoreCodec, unreadable: set<string>, id: string, raw: bytes)
    requires c.Lawful() && IsChunk(raw) && FilePath(SnapshotPath(id))
    requires Unlisted(unreadable, SnapshotPath(id)) && !Unlisted(unreadable, BlobPath(c.sha256(raw)))
    ensures var store := TwoObjects(c, id, raw);
            && BackedUp(c, store) && (SlashFree(id) ==> Flat(store))
            && !Spares(c, store, unreadable)
  {
    hide DecodeSnapshot, SnapshotPath, BlobPath, Unlisted, BackedUp, Flat, FilePath, Seal, Referenced, Spares;
    TwoObjectsBackedUp(c, id, raw);
    OnlyMention(c, id, raw, c.sha256(raw));
    PathsApart(c.sha256(raw), id);
    MentionedLost(c, TwoObjects(c, id, raw), unreadable, c.sha256(raw));
  }

  // Where no snapshot is listed, prune takes every listed blob.
  lemma MentionedLost(c: StoreCodec, store: Store, unreadable: set<string>, hash: string)
    requires SlashFree(hash) && Referenced(c, store, hash)
    requires BlobPath(hash) in store && !Unlisted(unreadable, BlobPath(hash))
    requires forall k :: k in store && SnapshotKey(store, k) ==> Unlisted(unreadable, k)
    ensures !Spares(c, store, unreadable)
  {
    hide DecodeSnapshot, Unlisted;
    BlobPathInverse(hash);
    PathsApart(hash, "");
    hide BlobPath, SnapshotPath, Under;
    var seen, blob := Listed(store, unreadable), BlobPath(hash);
    assert blob in seen && BlobKey(seen, blob) && !Referenced(c, seen, LastComponent(blob));
    assert blob in Orphans(c, seen);
  }

  lemma UnreadSnapshot(unreadable: set<string>) returns (id: string)
    requires !SnapshotsRead(unreadable)
    ensures Unlisted(unreadable, SnapshotPath(id)) && FilePath(SnapshotPath(id))
    ensures "snapshots" in unreadable ==> SlashFree(id)
  {
    if "snapshots" in unreadable {
      id := "s";
      assert Under("snapshots", SnapshotPath(id));
      NoDoubleSlash("snapshots");
    } else {
      var dir :| dir in unreadable && FilePath(dir) && (dir == "snapshots" || Under("snapshots", dir));
      var n := |"snapshots"| + 1;
      id := dir[n..] + "/s";
      assert dir == "snapshots" + "/" + dir[n..];
      assert SnapshotPath(id) == dir + "/s" && (dir + "/s")[..|dir| + 1] == dir + "/";
      assert Under(dir, SnapshotPath(id));
      NoDoubleSlash(dir);
    }
  }

  lemma NoDoubleSlash(dir: string)
    requires FilePath(dir)
    ensures FilePath(dir + "/s")
  {
    var p := dir + "/s";
    assert p[|p| - 1] == 's' && p[|p| - 2] == '/' && p[0] == dir[0];
    forall i | 0 <= i < |p| - 1 ensures p[i] != '/' || p[i + 1] != '/' {
      if i < |dir| - 1 {
        assert p[i] == dir[i] && p[i + 1] == dir[i + 1];
      }
    }
  }

  // Whatever is in the repository, prune spares all that snapshots mention if
  // and only if no directory under snapshots/ failed to be read, or no blob is
  // listed either. In stores whose snapshots lie in snapshots/ itself, only that
  // one directory matters.
  lemma PruneSparesExactly(c: StoreCodec, unreadable: set<string>)
    requires c.Lawful()
    ensures SparesInEveryStore(c, unreadable) <==> SnapshotsRead(unreadable) || BlobsUnlisted(c, unreadable)
    ensures SparesInEveryFlatStore(c, unreadable) <==> "snapshots" !in unreadable || BlobsUnlisted(c, unreadable)
  {
    assert SnapshotsRead(unreadable) ==> "snapshots" !in unreadable by {
      assert FilePath("snapshots");
    }
    hide Spares, BackedUp, Flat, Unlisted, Under, BlobPath, SnapshotPath, FilePath, SnapshotsRead;
    forall store | BackedUp(c, store) && (SnapshotsRead(unreadable) || BlobsUnlisted(c, unreadable)
                                          || (Flat(store) && "snapshots" !in unreadable))
      ensures Spares(c, store, unreadable)
    {
      EnoughIsListed(c, store, unreadable);
    }
    if !SnapshotsRead(unreadable) && !BlobsUnlisted(c, unreadable) {
      var id := UnreadSnapshot(unreadable);
      var raw :| IsChunk(raw) && !Unlisted(unreadable, BlobPath(c.sha256(raw)));
      BlindPrune(c, unreadable, id, raw);
    }
  }

  // With snapshots/ itself unreadable, prune takes every listed blob.
  lemma AllBlobsTaken(c: StoreCodec, store: Store)
    ensures Orphans(c, Listed(store, {"snapshots"})) == set k | k in store && BlobKey(store, k)
  {
    var seen := Listed(store, {"snapshots"});
    forall k | k in store && BlobKey(store, k) ensures k in seen {
      DirectoriesApart(k);
    }
    assert !exists k :: k in seen && SnapshotKey(seen, k) by {
      assert forall k :: Under("snapshots", k) ==> Unlisted({"snapshots"}, k);
    }
  }
}
