// Left alone, the interleaved steps of a backup, a forget and a prune add up to
// what the code does in one go.
module RepositoryAlone {
  import opened Wrappers
  import opened Codecs
  import opened Paths
  import opened Engine
  import opened LockRules
  import opened RepositoryProtocol
  import L = LockProtocol
  import P = Pipeline

  lemma Before(c: StoreCodec, t: L.Timing, s: State, a: Action, rest: seq<Action>) returns (run: seq<Action>)
    requires Enabled(c, t, s, a) && IsRun(c, t, Apply(c, t, s, a), rest)
    ensures IsRun(c, t, s, run) && After(c, t, s, run) == After(c, t, Apply(c, t, s, a), rest)
  {
    hide Enabled, Apply;
    run := [a] + rest;
    assert run[1..] == rest;
  }

  function With(s: State, p: LockId, job: Job, store: Store): State {
    s.(jobs := s.jobs[p := job], store := store)
  }

  lemma WithTwice(s: State, p: LockId, job: Job, store: Store, last: Job, end: Store)
    ensures With(With(s, p, job, store), p, last, end) == With(s, p, last, end)
  {
    assert s.jobs[p := job][p := last] == s.jobs[p := last];
  }

  // ------------------------------------------------------------------ backup

  lemma StoreNext(c: StoreCodec, level: Level, nonces: nat -> nat, start: Store, chunks: seq<bytes>, n: nat)
    requires n < |chunks|
    ensures var before := P.Uploaded(c, level, nonces, start, chunks[..n]).store;
            var path := BlobPath(c.sha256(chunks[n]));
            P.Uploaded(c, level, nonces, start, chunks[..n + 1]).store
            == if path in before then before else before[path := Seal(c, chunks[n], level, nonces(n))]
  {
    assert chunks[..n + 1] == chunks[..n] + [chunks[n]];
    P.UploadedSnoc(c, level, nonces, start, chunks[..n], chunks[n]);
    hide P.Uploaded, Seal, BlobPath;
  }

  // One chunk: looked up, and stored if it is not there.
  lemma OneChunk(c: StoreCodec, t: L.Timing, s: State, p: LockId, nonce: nat, n: nat) returns (run: seq<Action>)
    requires At(s, p, Storing(n)) && s.jobs[p].task.Backup? && n < |s.jobs[p].task.chunks|
    ensures var task := s.jobs[p].task;
            var path := BlobPath(c.sha256(task.chunks[n]));
            && IsRun(c, t, s, run)
            && After(c, t, s, run)
               == With(s, p, Job(task, Storing(n + 1)),
                       if path in s.store then s.store else s.store[path := Seal(c, task.chunks[n], task.level, nonce)])
  {
    var task := s.jobs[p].task;
    hide Seal, BlobPath;
    var s1 := Apply(c, t, s, LookUp(p));
    if BlobPath(c.sha256(task.chunks[n])) in s.store {
      run := Before(c, t, s, LookUp(p), []);
    } else {
      var s2 := Apply(c, t, s1, Upload(p, nonce));
      assert s2.jobs == s.jobs[p := Job(task, Storing(n + 1))];
      run := Before(c, t, s1, Upload(p, nonce), []);
      run := Before(c, t, s, LookUp(p), run);
    }
  }

  lemma StillWorking(s: State, p: LockId, job: Job, store: Store)
    requires Working(s, p)
    ensures At(With(s, p, job, store), p, job.progress)
    ensures p in With(s, p, job, store).jobs && With(s, p, job, store).jobs[p] == job
    ensures With(s, p, job, store).store == store
  {
  }

  lemma AsItIs(c: StoreCodec, t: L.Timing, s: State, p: LockId)
    requires p in s.jobs
    ensures IsRun(c, t, s, []) && After(c, t, s, []) == s
    ensures With(s, p, Job(s.jobs[p].task, s.jobs[p].progress), s.store) == s
  {
    assert s.jobs[p := s.jobs[p]] == s.jobs;
  }

  lemma {:induction false} AllChunks(c: StoreCodec, t: L.Timing, s: State, p: LockId, nonces: nat -> nat, start: Store,
                                     n: nat)
    returns (run: seq<Action>)
    requires At(s, p, Storing(n)) && s.jobs[p].task.Backup? && n <= |s.jobs[p].task.chunks|
    requires var task := s.jobs[p].task;
             s.store == P.Uploaded(c, task.level, nonces, start, task.chunks[..n]).store
    ensures var task := s.jobs[p].task;
            && IsRun(c, t, s, run)
            && After(c, t, s, run)
               == With(s, p, Job(task, Storing(|task.chunks|)),
                       P.Uploaded(c, task.level, nonces, start, task.chunks).store)
    decreases |s.jobs[p].task.chunks| - n
  {
    var task := s.jobs[p].task;
    assert Working(s, p);
    hide *;
    if n == |task.chunks| {
      run := [];
      AsItIs(c, t, s, p);
      assert task.chunks[..n] == task.chunks;
    } else {
      var first := OneChunk(c, t, s, p, nonces(n), n);
      var s1 := After(c, t, s, first);
      StoreNext(c, task.level, nonces, start, task.chunks, n);
      StillWorking(s, p, Job(task, Storing(n + 1)), s1.store);
      var rest := AllChunks(c, t, s1, p, nonces, start, n + 1);
      run := first + rest;
      Joined(c, t, s, first, rest);
      WithTwice(s, p, Job(task, Storing(n + 1)), s1.store, Job(task, Storing(|task.chunks|)),
                P.Uploaded(c, task.level, nonces, start, task.chunks).store);
    }
  }

  // Under its shared lock a backup, left alone, stores what the upload loop
  // stores and then its snapshot, unless the id is taken: then it fails.
  lemma BackupAlone(c: StoreCodec, t: L.Timing, s: State, p: LockId, task: Task, nonces: nat -> nat, snapshot: Snapshot,
                    nonce: nat)
    returns (run: seq<Action>)
    requires task.Backup? && ValidTask(c, task) && Describes(c, snapshot, task)
    requires L.Holds(s.lock, p) && s.lock.procs[p].kind == Shared && p !in s.jobs
    ensures IsRun(c, t, s, run)
    ensures var e := After(c, t, s, run);
            var uploaded := P.Uploaded(c, task.level, nonces, s.store, task.chunks).store;
            e == if SnapshotPath(task.id) in uploaded then With(s, p, Job(task, Failed), uploaded)
                 else With(s, p, Job(task, Finished),
                           uploaded[SnapshotPath(task.id) := c.seal(nonce, c.printSnapshot(snapshot))])
  {
    var s1 := Apply(c, t, s, Begin(p, task));
    assert P.Uploaded(c, task.level, nonces, s.store, task.chunks[..0]).store == s.store;
    var upload := AllChunks(c, t, s1, p, nonces, s.store, 0);
    hide P.Uploaded;
    var s2 := After(c, t, s1, upload);
    var last := CommitOrFail(c, t, s2, p, snapshot, nonce);
    Joined(c, t, s1, upload, last);
    run := Before(c, t, s, Begin(p, task), upload + last);
    WithTwice(s, p, s1.jobs[p], s1.store, s2.jobs[p], s2.store);
    WithTwice(s, p, s2.jobs[p], s2.store, After(c, t, s2, last).jobs[p], After(c, t, s2, last).store);
  }

  lemma CommitOrFail(c: StoreCodec, t: L.Timing, s: State, p: LockId, snapshot: Snapshot, nonce: nat)
    returns (run: seq<Action>)
    requires Working(s, p) && s.jobs[p].task.Backup? && s.jobs[p].progress == Storing(|s.jobs[p].task.chunks|)
    requires Describes(c, snapshot, s.jobs[p].task)
    ensures IsRun(c, t, s, run)
    ensures var task := s.jobs[p].task;
            After(c, t, s, run)
            == if SnapshotPath(task.id) in s.store then With(s, p, Job(task, Failed), s.store)
               else With(s, p, Job(task, Finished),
                         s.store[SnapshotPath(task.id) := c.seal(nonce, c.printSnapshot(snapshot))])
  {
    var s1 := Apply(c, t, s, LookUpSnapshot(p));
    if SnapshotPath(s.jobs[p].task.id) in s.store {
      run := Before(c, t, s, LookUpSnapshot(p), []);
    } else {
      var s2 := Apply(c, t, s1, Commit(p, snapshot, nonce));
      assert s2.jobs == s.jobs[p := Job(s.jobs[p].task, Finished)];
      run := Before(c, t, s1, Commit(p, snapshot, nonce), []);
      run := Before(c, t, s, LookUpSnapshot(p), run);
    }
  }

  // ------------------------------------------------------------------ forget

  ghost function SnapshotPaths(ids: set<string>): set<string> {
    set id | id in ids :: SnapshotPath(id)
  }

  lemma {:induction false} DeleteAll(c: StoreCodec, t: L.Timing, s: State, p: LockId, ids: set<string>)
    returns (run: seq<Action>)
    requires At(s, p, Deleting(ids))
    ensures IsRun(c, t, s, run)
    ensures After(c, t, s, run) == With(s, p, Job(s.jobs[p].task, Deleting({})), s.store - SnapshotPaths(ids))
    decreases |ids|
  {
    if ids == {} {
      run := [];
      assert s.store - SnapshotPaths({}) == s.store && s.jobs[p := s.jobs[p]] == s.jobs;
    } else {
      var id :| id in ids;
      var s1 := Apply(c, t, s, DeleteNext(p, id));
      var rest := DeleteAll(c, t, s1, p, ids - {id});
      run := Before(c, t, s, DeleteNext(p, id), rest);
      assert SnapshotPaths(ids) == SnapshotPaths(ids - {id}) + {SnapshotPath(id)};
      assert s.store - {SnapshotPath(id)} - SnapshotPaths(ids - {id}) == s.store - SnapshotPaths(ids);
      WithTwice(s, p, s1.jobs[p], s1.store, Job(s.jobs[p].task, Deleting({})), s.store - SnapshotPaths(ids));
    }
  }

  // Under its exclusive lock a forget removes exactly these snapshots.
  lemma ForgetAlone(c: StoreCodec, t: L.Timing, s: State, p: LockId, ids: set<string>) returns (run: seq<Action>)
    requires L.Holds(s.lock, p) && s.lock.procs[p].kind == Exclusive && p !in s.jobs
    ensures IsRun(c, t, s, run)
    ensures After(c, t, s, run) == With(s, p, Job(Forget(ids, false), Finished), s.store - SnapshotPaths(ids))
  {
    var s1 := Apply(c, t, s, Begin(p, Forget(ids, false)));
    var delete := DeleteAll(c, t, s1, p, ids);
    var s2 := After(c, t, s1, delete);
    var s3 := Apply(c, t, s2, Finish(p));
    var last := Before(c, t, s2, Finish(p), []);
    Joined(c, t, s1, delete, last);
    run := Before(c, t, s, Begin(p, Forget(ids, false)), delete + last);
    WithTwice(s, p, s1.jobs[p], s1.store, s2.jobs[p], s2.store);
    WithTwice(s, p, s2.jobs[p], s2.store, s3.jobs[p], s3.store);
  }

  // ------------------------------------------------------------------- prune

  // What reading these snapshots adds.
  ghost predicate Gathers(c: StoreCodec, store: Store, keys: set<string>, before: set<string>, after: set<string>) {
    forall h :: h in after <==>
      h in before
      || exists k :: k in keys && k in store && DecodeSnapshot(c, store[k]).Success?
                     && References(DecodeSnapshot(c, store[k]).value, h)
  }

  lemma GathersOne(c: StoreCodec, store: Store, keys: set<string>, k: string, before: set<string>, after: set<string>)
    requires k in keys && k in store && DecodeSnapshot(c, store[k]).Success?
    requires Gathers(c, store, keys - {k}, before + Mentioned(DecodeSnapshot(c, store[k]).value), after)
    ensures Gathers(c, store, keys, before, after)
  {
    hide DecodeSnapshot;
    var s := DecodeSnapshot(c, store[k]).value;
    assert forall h :: h in Mentioned(s) <==> References(s, h);
  }

  lemma {:induction false} ScanAll(c: StoreCodec, t: L.Timing, s: State, p: LockId, unread: set<string>,
                                   mentioned: set<string>)
    returns (run: seq<Action>, all: set<string>)
    requires At(s, p, Scanning(unread, mentioned))
    requires forall k :: k in unread ==> k in s.store && DecodeSnapshot(c, s.store[k]).Success?
    ensures IsRun(c, t, s, run) && Gathers(c, s.store, unread, mentioned, all)
    ensures After(c, t, s, run) == With(s, p, Job(s.jobs[p].task, Scanning({}, all)), s.store)
    decreases |unread|
  {
    if unread == {} {
      run, all := [], mentioned;
      assert s.jobs[p := s.jobs[p]] == s.jobs;
    } else {
      var k :| k in unread;
      var s1 := Apply(c, t, s, ReadSnapshot(p, k));
      var more := mentioned + Mentioned(DecodeSnapshot(c, s.store[k]).value);
      assert At(s1, p, Scanning(unread - {k}, more)) && s1.store == s.store;
      var rest;
      rest, all := ScanAll(c, t, s1, p, unread - {k}, more);
      GathersOne(c, s.store, unread, k, mentioned, all);
      run := Before(c, t, s, ReadSnapshot(p, k), rest);
      WithTwice(s, p, s1.jobs[p], s1.store, Job(s.jobs[p].task, Scanning({}, all)), s.store);
    }
  }

  ghost function Swept(keys: set<string>, mentioned: set<string>): set<string> {
    set k | k in keys && LastComponent(k) !in mentioned
  }

  lemma {:induction false} SweepAll(c: StoreCodec, t: L.Timing, s: State, p: LockId, keys: set<string>,
                                    mentioned: set<string>)
    returns (run: seq<Action>)
    requires At(s, p, Sweeping(keys, mentioned))
    ensures IsRun(c, t, s, run)
    ensures After(c, t, s, run) == With(s, p, Job(s.jobs[p].task, Finished), s.store - Swept(keys, mentioned))
    decreases |keys|
  {
    if keys == {} {
      run := Before(c, t, s, Finish(p), []);
      assert s.store - Swept({}, mentioned) == s.store;
    } else {
      var k :| k in keys;
      var s1 := Apply(c, t, s, SweepNext(p, k));
      assert At(s1, p, Sweeping(keys - {k}, mentioned));
      var rest := SweepAll(c, t, s1, p, keys - {k}, mentioned);
      run := Before(c, t, s, SweepNext(p, k), rest);
      assert s1.store - Swept(keys - {k}, mentioned) == s.store - Swept(keys, mentioned);
      WithTwice(s, p, s1.jobs[p], s1.store, Job(s.jobs[p].task, Finished), s.store - Swept(keys, mentioned));
    }
  }

  // Under its exclusive lock a prune, with all snapshots readable, removes
  // exactly the orphans.
  lemma PruneAlone(c: StoreCodec, t: L.Timing, s: State, p: LockId) returns (run: seq<Action>)
    requires L.Holds(s.lock, p) && s.lock.procs[p].kind == Exclusive && p !in s.jobs && AllReadable(c, s.store)
    ensures IsRun(c, t, s, run)
    ensures After(c, t, s, run) == With(s, p, Job(Prune, Finished), s.store - Orphans(c, s.store))
  {
    var s1 := Apply(c, t, s, Begin(p, Prune));
    var s2 := Apply(c, t, s1, ListSnapshots(p));
    var scan, all := ScanAll(c, t, s2, p, SnapshotKeys(s.store), {});
    var s3 := After(c, t, s2, scan);
    var s4 := Apply(c, t, s3, ListBlobs(p));
    var sweep := SweepAll(c, t, s4, p, BlobKeys(s.store), all);
    SweptAreOrphans(c, s.store, all);
    var last := Before(c, t, s3, ListBlobs(p), sweep);
    Joined(c, t, s2, scan, last);
    run := Before(c, t, s1, ListSnapshots(p), scan + last);
    run := Before(c, t, s, Begin(p, Prune), run);
    WithTwice(s, p, s1.jobs[p], s1.store, s2.jobs[p], s2.store);
    WithTwice(s, p, s2.jobs[p], s2.store, s3.jobs[p], s3.store);
    WithTwice(s, p, s3.jobs[p], s3.store, s4.jobs[p], s4.store);
    WithTwice(s, p, s4.jobs[p], s4.store, Job(Prune, Finished), s.store - Orphans(c, s.store));
  }

  lemma SweptAreOrphans(c: StoreCodec, store: Store, all: set<string>)
    requires Gathers(c, store, SnapshotKeys(store), {}, all)
    ensures Swept(BlobKeys(store), all) == Orphans(c, store)
  {
    hide DecodeSnapshot, LastComponent;
    forall h ensures h in all <==> Referenced(c, store, h) {
    }
  }

  // -------------------------------------------------------- backups together

  // Backups and restores share, what deletes excludes.
  lemma BackupsShare(a: Task, b: Task)
    ensures Conflicts(KindOf(a), KindOf(b)) <==> a.Forget? || a.Prune? || b.Forget? || b.Prune?
  {
  }
}
