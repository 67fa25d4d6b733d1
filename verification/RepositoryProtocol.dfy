// Backups, forgets and prunes of any number of processes, interleaved one
// backend call at a time under the lock protocol, with crashes at any point.
module RepositoryProtocol {
  import opened Wrappers
  import opened Codecs
  import opened Paths
  import opened Engine
  import opened LockRules
  import L = LockProtocol

  const CHUNK_SIZE := 2 * 1024 * 1024

  // What a process does once it holds its lock.
  datatype Task =
    | Backup(chunks: seq<bytes>, level: Level, id: string)
    | Restore
    | Forget(ids: set<string>, thenPrune: bool)
    | Prune

  datatype Progress =
    | Storing(done: nat)                        // chunks[..done] are stored
    | Uploading(done: nat)                      // chunk `done` was not there
    | Committing                                // all stored, snapshot id free
    | Deleting(ids: set<string>)
    | Scanning(unread: set<string>, mentioned: set<string>)  // snapshots listed
    | Sweeping(keys: set<string>, mentioned: set<string>)    // blobs listed
    | Finished
    | Failed

  datatype Job = Job(task: Task, progress: Progress)

  datatype State = State(lock: L.State, store: Store, jobs: map<LockId, Job>)

  function KindOf(task: Task): LockType {
    if task.Backup? || task.Restore? then Shared else Exclusive
  }

  datatype Action =
    | LockStep(a: L.Action)
    | Begin(p: LockId, task: Task)
    | LookUp(p: LockId)                         // object_exists on the next chunk
    | Upload(p: LockId, nonce: nat)
    | LookUpSnapshot(p: LockId)
    | Commit(p: LockId, snapshot: Snapshot, nonce: nat)
    | DeleteNext(p: LockId, id: string)
    | ListSnapshots(p: LockId)
    | ReadSnapshot(p: LockId, key: string)
    | ListBlobs(p: LockId)
    | SweepNext(p: LockId, key: string)
    | Finish(p: LockId)

  predicate ValidTask(c: StoreCodec, task: Task) {
    task.Backup? ==> forall i :: 0 <= i < |task.chunks| ==> |task.chunks[i]| <= CHUNK_SIZE
  }

  predicate Working(s: State, p: LockId) {
    p in s.jobs && L.Holds(s.lock, p)
  }

  predicate At(s: State, p: LockId, progress: Progress) {
    Working(s, p) && s.jobs[p].progress == progress
  }

  // The snapshot lists its chunks' digests in order.
  ghost predicate Describes(c: StoreCodec, snapshot: Snapshot, task: Task)
    requires task.Backup?
  {
    && snapshot.id == task.id
    && |snapshot.blobs| == |task.chunks|
    && forall i :: 0 <= i < |task.chunks| ==> snapshot.blobs[i].hash == c.sha256(task.chunks[i])
  }

  ghost predicate Enabled(c: StoreCodec, t: L.Timing, s: State, a: Action) {
    match a
    case LockStep(b) => L.Enabled(t, s.lock, b)
    case Begin(p, task) =>
      && L.Holds(s.lock, p) && p !in s.jobs
      && s.lock.procs[p].kind == KindOf(task) && ValidTask(c, task)
    case LookUp(p) =>
      && Working(s, p) && s.jobs[p].task.Backup? && s.jobs[p].progress.Storing?
      && s.jobs[p].progress.done < |s.jobs[p].task.chunks|
    case Upload(p, _) => Working(s, p) && s.jobs[p].task.Backup? && s.jobs[p].progress.Uploading?
                         && s.jobs[p].progress.done < |s.jobs[p].task.chunks|
    case LookUpSnapshot(p) =>
      Working(s, p) && s.jobs[p].task.Backup? && s.jobs[p].progress == Storing(|s.jobs[p].task.chunks|)
    case Commit(p, snapshot, _) =>
      && Working(s, p) && s.jobs[p].task.Backup? && s.jobs[p].progress == Committing
      && Describes(c, snapshot, s.jobs[p].task)
    case DeleteNext(p, id) => Working(s, p) && s.jobs[p].progress.Deleting? && id in s.jobs[p].progress.ids
    case ListSnapshots(p) =>
      && Working(s, p) && s.jobs[p].progress == Deleting({})
      && (s.jobs[p].task.Prune? || (s.jobs[p].task.Forget? && s.jobs[p].task.thenPrune))
    case ReadSnapshot(p, key) => Working(s, p) && s.jobs[p].progress.Scanning? && key in s.jobs[p].progress.unread
    case ListBlobs(p) => Working(s, p) && s.jobs[p].progress.Scanning? && s.jobs[p].progress.unread == {}
    case SweepNext(p, key) => Working(s, p) && s.jobs[p].progress.Sweeping? && key in s.jobs[p].progress.keys
    case Finish(p) =>
      && Working(s, p)
      && ((s.jobs[p].progress == Deleting({}) && s.jobs[p].task.Forget? && !s.jobs[p].task.thenPrune)
          || (s.jobs[p].progress.Sweeping? && s.jobs[p].progress.keys == {}))
  }

  function SnapshotKeys(store: Store): set<string> {
    set k | k in store && SnapshotKey(store, k)
  }

  function BlobKeys(store: Store): set<string> {
    set k | k in store && BlobKey(store, k)
  }

  function Started(task: Task): Progress {
    match task
    case Backup(_, _, _) => Storing(0)
    case Restore => Finished
    case Forget(ids, _) => Deleting(ids)
    case Prune => Deleting({})
  }

  function Advance(s: State, p: LockId, progress: Progress): State
    requires p in s.jobs
  {
    s.(jobs := s.jobs[p := s.jobs[p].(progress := progress)])
  }

  function Mentioned(snapshot: Snapshot): set<string> {
    set i | 0 <= i < |snapshot.blobs| :: snapshot.blobs[i].hash
  }

  ghost function Apply(c: StoreCodec, t: L.Timing, s: State, a: Action): State
    requires Enabled(c, t, s, a)
  {
    match a
    case LockStep(b) => s.(lock := L.Apply(t, s.lock, b))
    case Begin(p, task) => s.(jobs := s.jobs[p := Job(task, Started(task))])
    case LookUp(p) =>
      var n := s.jobs[p].progress.done;
      if BlobPath(c.sha256(s.jobs[p].task.chunks[n])) in s.store then Advance(s, p, Storing(n + 1))
      else Advance(s, p, Uploading(n))
    case Upload(p, nonce) =>
      var n := s.jobs[p].progress.done;
      var raw := s.jobs[p].task.chunks[n];
      Advance(s, p, Storing(n + 1))
      .(store := s.store[BlobPath(c.sha256(raw)) := Seal(c, raw, s.jobs[p].task.level, nonce)])
    case LookUpSnapshot(p) =>
      Advance(s, p, if SnapshotPath(s.jobs[p].task.id) in s.store then Failed else Committing)
    case Commit(p, snapshot, nonce) =>
      Advance(s, p, Finished).(store := s.store[SnapshotPath(snapshot.id) := c.seal(nonce, c.printSnapshot(snapshot))])
    case DeleteNext(p, id) =>
      Advance(s, p, Deleting(s.jobs[p].progress.ids - {id})).(store := s.store - {SnapshotPath(id)})
    case ListSnapshots(p) =>
      Advance(s, p, Scanning(SnapshotKeys(s.store), {}))
    case ReadSnapshot(p, key) =>
      if key in s.store && DecodeSnapshot(c, s.store[key]).Success? then
        var found := DecodeSnapshot(c, s.store[key]).value;
        Advance(s, p, Scanning(s.jobs[p].progress.unread - {key}, s.jobs[p].progress.mentioned + Mentioned(found)))
      else Advance(s, p, Failed)
    case ListBlobs(p) =>
      Advance(s, p, Sweeping(BlobKeys(s.store), s.jobs[p].progress.mentioned))
    case SweepNext(p, key) =>
      var next := Advance(s, p, s.jobs[p].progress.(keys := s.jobs[p].progress.keys - {key}));
      if LastComponent(key) in s.jobs[p].progress.mentioned then next
      else next.(store := s.store - {key})
    case Finish(p) => Advance(s, p, Finished)
  }

  ghost predicate Init(c: StoreCodec, s: State) {
    && L.Init(s.lock) && s.jobs == map[]
    && WellFormed(c, s.store) && NoDangling(c, s.store)
  }

  ghost predicate IsRun(c: StoreCodec, t: L.Timing, s: State, run: seq<Action>)
    decreases |run|
  {
    run == [] || (Enabled(c, t, s, run[0]) && IsRun(c, t, Apply(c, t, s, run[0]), run[1..]))
  }

  ghost function After(c: StoreCodec, t: L.Timing, s: State, run: seq<Action>): State
    requires IsRun(c, t, s, run)
    decreases |run|
  {
    if run == [] then s else After(c, t, Apply(c, t, s, run[0]), run[1..])
  }

  lemma {:induction false} Joined(c: StoreCodec, t: L.Timing, s: State, first: seq<Action>, second: seq<Action>)
    requires IsRun(c, t, s, first) && IsRun(c, t, After(c, t, s, first), second)
    ensures IsRun(c, t, s, first + second)
    ensures After(c, t, s, first + second) == After(c, t, After(c, t, s, first), second)
    decreases |first|
  {
    hide Enabled, Apply;
    if first == [] {
      assert first + second == second;
    } else {
      Joined(c, t, Apply(c, t, s, first[0]), first[1..], second);
      assert (first + second)[1..] == first[1..] + second;
    }
  }

  // ---------------------------------------------------------------- invariant

  // Every blob a readable snapshot mentions is there.
  ghost predicate NoDangling(c: StoreCodec, store: Store) {
    forall h :: Referenced(c, store, h) ==> SlashFree(h) && BlobPath(h) in store
  }

  // How many of its chunks a backup has collected.
  function Collected(job: Job): nat {
    if !job.task.Backup? then 0
    else match job.progress
      case Storing(n) => n
      case Uploading(n) => n
      case Committing => |job.task.chunks|
      case _ => 0
  }

  ghost predicate ChunksThere(c: StoreCodec, store: Store, job: Job) {
    && ValidTask(c, job.task)
    && (job.task.Backup? ==>
          && Collected(job) <= |job.task.chunks|
          && forall i :: 0 <= i < Collected(job) ==> BlobPath(c.sha256(job.task.chunks[i])) in store)
  }

  ghost predicate ScanSound(c: StoreCodec, store: Store, unread: set<string>, mentioned: set<string>) {
    forall k :: k in store && SnapshotKey(store, k) && k !in unread ==>
      DecodeSnapshot(c, store[k]).Success? && Mentioned(DecodeSnapshot(c, store[k]).value) <= mentioned
  }

  ghost predicate JobInv(c: StoreCodec, s: State, p: LockId)
    requires p in s.jobs && p in s.lock.procs
  {
    var job := s.jobs[p];
    && s.lock.procs[p].kind == KindOf(job.task)
    && ChunksThere(c, s.store, job)
    && (job.progress.Deleting? || job.progress.Scanning? || job.progress.Sweeping? ==> KindOf(job.task) == Exclusive)
    && (job.progress.Scanning? ==> ScanSound(c, s.store, job.progress.unread, job.progress.mentioned))
    && (job.progress.Sweeping? ==>
          && ScanSound(c, s.store, {}, job.progress.mentioned)
          && forall k :: k in job.progress.keys ==> Under("blobs", k))
  }

  ghost predicate Inv(c: StoreCodec, t: L.Timing, s: State) {
    && L.Inv(t, s.lock)
    && WellFormed(c, s.store) && NoDangling(c, s.store)
    && (forall p :: p in s.jobs ==> p in s.lock.procs && (s.lock.procs[p].phase.Held? || s.lock.procs[p].phase.Closed?))
    && (forall p :: p in s.jobs && Working(s, p) ==> JobInv(c, s, p))
  }

  // ------------------------------------------------------------- the steps

  function Actor(a: Action): LockId
    requires !a.LockStep?
  {
    match a
    case Begin(p, _) => p
    case LookUp(p) => p
    case Upload(p, _) => p
    case LookUpSnapshot(p) => p
    case Commit(p, _, _) => p
    case DeleteNext(p, _) => p
    case ListSnapshots(p) => p
    case ReadSnapshot(p, _) => p
    case ListBlobs(p) => p
    case SweepNext(p, _) => p
    case Finish(p) => p
  }

  // A working process moves no lock and no job but its own.
  lemma StepShape(c: StoreCodec, t: L.Timing, s: State, a: Action)
    requires Enabled(c, t, s, a) && !a.LockStep?
    ensures var s' := Apply(c, t, s, a);
            && s'.lock == s.lock && L.Holds(s.lock, Actor(a))
            && s'.jobs.Keys == s.jobs.Keys + {Actor(a)}
            && (a.Begin? || Actor(a) in s.jobs)
            && (forall q :: q in s.jobs && q != Actor(a) ==> s'.jobs[q] == s.jobs[q])
  {
  }

  // Two working processes never have conflicting locks.
  lemma WorkersAgree(c: StoreCodec, t: L.Timing, s: State, p: LockId, q: LockId)
    requires t.Valid() && t.putDelay < L.SETTLE && Inv(c, t, s)
    requires L.Holds(s.lock, p) && L.Holds(s.lock, q) && p != q
    ensures s.lock.procs[p].kind == Shared && s.lock.procs[q].kind == Shared
  {
  }

  lemma LockStepKeeps(c: StoreCodec, t: L.Timing, s: State, b: L.Action)
    requires t.Valid() && Inv(c, t, s) && Enabled(c, t, s, LockStep(b))
    ensures Inv(c, t, Apply(c, t, s, LockStep(b)))
  {
    L.StepInv(t, s.lock, b);
    L.StepFrame(t, s.lock, b);
    var s' := Apply(c, t, s, LockStep(b));
    forall p | p in s'.jobs
      ensures p in s'.lock.procs && (s'.lock.procs[p].phase.Held? || s'.lock.procs[p].phase.Closed?)
      ensures Working(s', p) ==> Working(s, p) && s'.lock.procs[p].kind == s.lock.procs[p].kind
    {
      JobProcess(t, s.lock, b, p);
    }
    forall p | p in s'.jobs && Working(s', p) ensures JobInv(c, s', p) {
      assert JobInv(c, s, p);
    }
  }

  // A process that holds or is done stays so, under the same kind of lock.
  lemma JobProcess(t: L.Timing, k: L.State, b: L.Action, p: LockId)
    requires L.IdsInv(k) && L.Enabled(t, k, b) && p in k.procs && (k.procs[p].phase.Held? || k.procs[p].phase.Closed?)
    ensures var x := L.Apply(t, k, b).procs;
            && p in x && (x[p].phase.Held? || x[p].phase.Closed?) && x[p].kind == k.procs[p].kind
            && (x[p].phase.Held? ==> k.procs[p].phase.Held?)
  {
    assert !(b.Start? && b.p == p);
    hide L.IdsInv, L.Enabled;
    L.StepFrame(t, k, b);
    if L.Mover(b) == Some(p) {
      HolderMoves(t, k, b);
    }
  }

  lemma HolderMoves(t: L.Timing, k: L.State, b: L.Action)
    requires L.Enabled(t, k, b) && L.Mover(b).Some? && !b.Start?
    requires var p := L.Mover(b).value; p in k.procs && (k.procs[p].phase.Held? || k.procs[p].phase.Closed?)
    ensures var p, x := L.Mover(b).value, L.Apply(t, k, b).procs;
            && p in x && (x[p].phase.Held? || x[p].phase.Closed?) && x[p].kind == k.procs[p].kind
            && k.procs[p].phase.Held?
  {
  }

  // What the other processes see of a step: while someone holds an exclusive
  // lock nobody else works, and a backup only adds objects.
  lemma OthersKeep(c: StoreCodec, t: L.Timing, s: State, a: Action, q: LockId)
    requires t.Valid() && t.putDelay < L.SETTLE && Inv(c, t, s) && Enabled(c, t, s, a) && !a.LockStep?
    requires q in s.jobs && Working(s, q) && q != Actor(a)
    ensures var s' := Apply(c, t, s, a); q in s'.jobs && q in s'.lock.procs && JobInv(c, s', q)
  {
    hide Apply, Enabled, WellFormed, NoDangling;
    StepShape(c, t, s, a);
    WorkersAgree(c, t, s, Actor(a), q);
    assert JobInv(c, s, q);
    if !a.Begin? {
      assert JobInv(c, s, Actor(a));
    }
    SharedOnlyAdds(c, t, s, a);
  }

  lemma SharedOnlyAdds(c: StoreCodec, t: L.Timing, s: State, a: Action)
    requires Enabled(c, t, s, a) && !a.LockStep?
    requires s.lock.procs[Actor(a)].kind == Shared && (a.Begin? || JobInv(c, s, Actor(a)))
    ensures s.store.Keys <= Apply(c, t, s, a).store.Keys
  {
  }

  // --------------------------------------------- the store, action by action

  lemma UploadStore(c: StoreCodec, store: Store, raw: bytes, level: Level, nonce: nat)
    requires c.Lawful() && |raw| <= CHUNK_SIZE && WellFormed(c, store) && NoDangling(c, store)
    ensures var after := store[BlobPath(c.sha256(raw)) := Seal(c, raw, level, nonce)];
            WellFormed(c, after) && NoDangling(c, after)
  {
    var name := c.sha256(raw);
    var after := store[BlobPath(name) := Seal(c, raw, level, nonce)];
    forall h | SlashFree(h) && BlobPath(h) in after ensures GetChunk(c, after, h).Success? {
      BlobPathInverse(h);
      BlobPathInverse(name);
      SealedOpens(c, raw, level, nonce);
      if h != name {
        assert BlobPath(h) != BlobPath(name);
        assert GetChunk(c, store, h).Success?;
      }
    }
    forall h | Referenced(c, after, h) ensures SlashFree(h) && BlobPath(h) in after {
      var k :| k in after && SnapshotKey(after, k)
               && DecodeSnapshot(c, after[k]).Success? && References(DecodeSnapshot(c, after[k]).value, h);
      PathsApart(name, "");
      assert k != BlobPath(name);
      assert SnapshotKey(store, k);
      assert Referenced(c, store, h);
    }
  }

  lemma CommitStore(c: StoreCodec, store: Store, job: Job, snapshot: Snapshot, nonce: nat)
    requires c.Lawful() && WellFormed(c, store) && NoDangling(c, store)
    requires job.task.Backup? && job.progress == Committing && ChunksThere(c, store, job)
    requires Describes(c, snapshot, job.task)
    ensures var after := store[SnapshotPath(snapshot.id) := c.seal(nonce, c.printSnapshot(snapshot))];
            && WellFormed(c, after) && NoDangling(c, after)
            && DecodeSnapshot(c, after[SnapshotPath(snapshot.id)]) == Success(snapshot)
  {
    var path := SnapshotPath(snapshot.id);
    var sealed := c.seal(nonce, c.printSnapshot(snapshot));
    var after := store[path := sealed];
    assert c.unseal(sealed) == Some(c.printSnapshot(snapshot));
    forall h | SlashFree(h) && BlobPath(h) in after ensures GetChunk(c, after, h).Success? {
      PathsApart(h, snapshot.id);
      assert GetChunk(c, store, h).Success?;
    }
    forall h | Referenced(c, after, h) ensures SlashFree(h) && BlobPath(h) in after {
      var k :| k in after && SnapshotKey(after, k)
               && DecodeSnapshot(c, after[k]).Success? && References(DecodeSnapshot(c, after[k]).value, h);
      if k == path {
        var i :| 0 <= i < |snapshot.blobs| && snapshot.blobs[i].hash == h;
        assert h == c.sha256(job.task.chunks[i]);
      } else {
        assert SnapshotKey(store, k) && Referenced(c, store, h);
      }
    }
  }

  // Removing objects no readable snapshot needs keeps the store sound.
  lemma RemoveStore(c: StoreCodec, store: Store, key: string)
    requires WellFormed(c, store) && NoDangling(c, store)
    requires forall h :: Referenced(c, store, h) ==> BlobPath(h) != key
    ensures WellFormed(c, store - {key}) && NoDangling(c, store - {key})
  {
  }

  lemma ForgetStore(c: StoreCodec, store: Store, id: string)
    requires WellFormed(c, store) && NoDangling(c, store)
    ensures WellFormed(c, store - {SnapshotPath(id)}) && NoDangling(c, store - {SnapshotPath(id)})
  {
    forall h | Referenced(c, store, h) ensures BlobPath(h) != SnapshotPath(id) {
      PathsApart(h, id);
    }
    RemoveStore(c, store, SnapshotPath(id));
  }

  // A finished scan has seen every hash any snapshot mentions.
  lemma ScanCovers(c: StoreCodec, store: Store, mentioned: set<string>, h: string)
    requires ScanSound(c, store, {}, mentioned) && Referenced(c, store, h)
    ensures h in mentioned
  {
  }

  lemma SweepStore(c: StoreCodec, store: Store, key: string, mentioned: set<string>)
    requires WellFormed(c, store) && NoDangling(c, store)
    requires ScanSound(c, store, {}, mentioned) && LastComponent(key) !in mentioned && Under("blobs", key)
    ensures var after := store - {key};
            WellFormed(c, after) && NoDangling(c, after) && ScanSound(c, after, {}, mentioned)
  {
    forall h | Referenced(c, store, h) ensures BlobPath(h) != key {
      ScanCovers(c, store, mentioned, h);
      BlobPathInverse(h);
    }
    RemoveStore(c, store, key);
    DirectoriesApart(key);
    forall k | k in store - {key} && SnapshotKey(store - {key}, k)
      ensures DecodeSnapshot(c, (store - {key})[k]).Success?
              && Mentioned(DecodeSnapshot(c, (store - {key})[k]).value) <= mentioned
    {
      assert SnapshotKey(store, k);
    }
  }

  // Which steps touch the store, and how.
  predicate Quiet(a: Action) {
    !a.LockStep? && !a.Upload? && !a.Commit? && !a.DeleteNext? && !a.SweepNext?
  }

  lemma QuietStore(c: StoreCodec, t: L.Timing, s: State, a: Action)
    requires Enabled(c, t, s, a) && Quiet(a)
    ensures Apply(c, t, s, a).store == s.store
  {
  }

  ghost predicate SoundStore(c: StoreCodec, store: Store) {
    WellFormed(c, store) && NoDangling(c, store)
  }

  lemma AddingKeeps(c: StoreCodec, t: L.Timing, s: State, a: Action)
    requires c.Lawful() && SoundStore(c, s.store) && Enabled(c, t, s, a) && (a.Upload? || a.Commit?)
    requires ChunksThere(c, s.store, s.jobs[a.p])
    ensures SoundStore(c, Apply(c, t, s, a).store)
  {
    hide WellFormed, NoDangling, Seal, BlobPath, SnapshotPath;
    if a.Upload? {
      var job := s.jobs[a.p];
      UploadStore(c, s.store, job.task.chunks[job.progress.done], job.task.level, a.nonce);
    } else {
      CommitStore(c, s.store, s.jobs[a.p], a.snapshot, a.nonce);
    }
  }

  lemma RemovingKeeps(c: StoreCodec, t: L.Timing, s: State, a: Action)
    requires SoundStore(c, s.store) && Enabled(c, t, s, a) && (a.DeleteNext? || a.SweepNext?)
    requires a.p in s.lock.procs && JobInv(c, s, a.p)
    ensures SoundStore(c, Apply(c, t, s, a).store)
  {
    hide WellFormed, NoDangling, Seal, BlobPath, SnapshotPath, ScanSound, ChunksThere;
    if a.DeleteNext? {
      ForgetStore(c, s.store, a.id);
    } else if LastComponent(a.key) !in s.jobs[a.p].progress.mentioned {
      SweepStore(c, s.store, a.key, s.jobs[a.p].progress.mentioned);
    }
  }

  lemma StoreKeeps(c: StoreCodec, t: L.Timing, s: State, a: Action)
    requires c.Lawful() && Inv(c, t, s) && Enabled(c, t, s, a) && !a.LockStep?
    ensures SoundStore(c, Apply(c, t, s, a).store)
  {
    StepShape(c, t, s, a);
    assert !a.Begin? ==> JobInv(c, s, Actor(a));
    assert SoundStore(c, s.store);
    hide Apply, Inv, SoundStore, Enabled;
    if Quiet(a) {
      QuietStore(c, t, s, a);
    } else if a.Upload? || a.Commit? {
      AddingKeeps(c, t, s, a);
    } else {
      RemovingKeeps(c, t, s, a);
    }
  }

  predicate ByBackup(a: Action) {
    a.Begin? || a.LookUp? || a.Upload? || a.LookUpSnapshot? || a.Commit?
  }

  lemma BackupKeeps(c: StoreCodec, t: L.Timing, s: State, a: Action)
    requires Enabled(c, t, s, a) && ByBackup(a) && Actor(a) in s.lock.procs
    requires a.Begin? || JobInv(c, s, Actor(a))
    ensures var s' := Apply(c, t, s, a); Actor(a) in s'.jobs && Actor(a) in s'.lock.procs && JobInv(c, s', Actor(a))
  {
    hide Seal, BlobPath, SnapshotPath, ScanSound;
  }

  lemma ScannerKeeps(c: StoreCodec, t: L.Timing, s: State, a: Action)
    requires Enabled(c, t, s, a) && (a.ListSnapshots? || a.ReadSnapshot? || a.ListBlobs?)
    requires Actor(a) in s.lock.procs && JobInv(c, s, Actor(a))
    ensures var s' := Apply(c, t, s, a); Actor(a) in s'.jobs && Actor(a) in s'.lock.procs && JobInv(c, s', Actor(a))
  {
    hide ChunksThere, BlobPath, SnapshotPath;
    if a.ReadSnapshot? {
      var scan := s.jobs[a.p].progress;
      ReadScan(c, s.store, scan.unread, scan.mentioned, a.key);
    }
    assert ChunksThere(c, s.store, Apply(c, t, s, a).jobs[Actor(a)]) by {
      CollectorHasNoChunks(c, s.store, s.jobs[Actor(a)], Apply(c, t, s, a).jobs[Actor(a)]);
    }
  }

  lemma RemoverKeeps(c: StoreCodec, t: L.Timing, s: State, a: Action)
    requires Enabled(c, t, s, a) && (a.DeleteNext? || a.SweepNext? || a.Finish?) && SoundStore(c, s.store)
    requires Actor(a) in s.lock.procs && JobInv(c, s, Actor(a))
    ensures var s' := Apply(c, t, s, a); Actor(a) in s'.jobs && Actor(a) in s'.lock.procs && JobInv(c, s', Actor(a))
  {
    hide ChunksThere, BlobPath, SnapshotPath, ScanSound, WellFormed, NoDangling;
    if a.SweepNext? && LastComponent(a.key) !in s.jobs[a.p].progress.mentioned {
      SweepStore(c, s.store, a.key, s.jobs[a.p].progress.mentioned);
    }
    CollectorHasNoChunks(c, Apply(c, t, s, a).store, s.jobs[Actor(a)], Apply(c, t, s, a).jobs[Actor(a)]);
  }

  lemma CollectorHasNoChunks(c: StoreCodec, store: Store, job: Job, after: Job)
    requires ValidTask(c, job.task) && KindOf(job.task) == Exclusive && after.task == job.task
    ensures ChunksThere(c, store, after)
  {
  }

  lemma CollectorKeeps(c: StoreCodec, t: L.Timing, s: State, a: Action)
    requires c.Lawful() && Inv(c, t, s) && Enabled(c, t, s, a) && !a.LockStep? && !ByBackup(a)
    ensures var s' := Apply(c, t, s, a); Actor(a) in s'.jobs && Actor(a) in s'.lock.procs && JobInv(c, s', Actor(a))
  {
    StepShape(c, t, s, a);
    assert JobInv(c, s, Actor(a)) && SoundStore(c, s.store);
    hide Apply, Inv, JobInv, SoundStore, Enabled;
    if a.ListSnapshots? || a.ReadSnapshot? || a.ListBlobs? {
      ScannerKeeps(c, t, s, a);
    } else {
      RemoverKeeps(c, t, s, a);
    }
  }

  lemma ReadScan(c: StoreCodec, store: Store, unread: set<string>, mentioned: set<string>, key: string)
    requires ScanSound(c, store, unread, mentioned)
    ensures key in store && DecodeSnapshot(c, store[key]).Success? ==>
              ScanSound(c, store, unread - {key}, mentioned + Mentioned(DecodeSnapshot(c, store[key]).value))
  {
  }

  lemma ActorKeeps(c: StoreCodec, t: L.Timing, s: State, a: Action)
    requires c.Lawful() && Inv(c, t, s) && Enabled(c, t, s, a) && !a.LockStep?
    ensures var s' := Apply(c, t, s, a); Actor(a) in s'.jobs && Actor(a) in s'.lock.procs && JobInv(c, s', Actor(a))
  {
    StepShape(c, t, s, a);
    assert a.Begin? || JobInv(c, s, Actor(a));
    hide Apply, Enabled, Inv, JobInv;
    if ByBackup(a) {
      BackupKeeps(c, t, s, a);
    } else {
      CollectorKeeps(c, t, s, a);
    }
  }

  lemma WorkedBefore(c: StoreCodec, t: L.Timing, s: State, a: Action, q: LockId)
    requires Enabled(c, t, s, a) && !a.LockStep? && q != Actor(a) && Working(Apply(c, t, s, a), q)
    ensures q in s.jobs && Working(s, q)
  {
    StepShape(c, t, s, a);
    hide Apply, Enabled;
  }

  lemma WorkersKeep(c: StoreCodec, t: L.Timing, s: State, a: Action)
    requires c.Lawful() && t.Valid() && t.putDelay < L.SETTLE && Inv(c, t, s) && Enabled(c, t, s, a) && !a.LockStep?
    ensures var s' := Apply(c, t, s, a);
            forall q :: q in s'.jobs && Working(s', q) ==> q in s'.lock.procs && JobInv(c, s', q)
  {
    hide *;
    ActorKeeps(c, t, s, a);
    var s' := Apply(c, t, s, a);
    forall q | q in s'.jobs && Working(s', q) ensures q in s'.lock.procs && JobInv(c, s', q) {
      if q != Actor(a) {
        WorkedBefore(c, t, s, a, q);
        OthersKeep(c, t, s, a, q);
      }
    }
  }

  lemma StepInv(c: StoreCodec, t: L.Timing, s: State, a: Action)
    requires c.Lawful() && t.Valid() && t.putDelay < L.SETTLE && Inv(c, t, s) && Enabled(c, t, s, a)
    ensures Inv(c, t, Apply(c, t, s, a))
  {
    hide Apply, Enabled, JobInv, WellFormed, NoDangling;
    if a.LockStep? {
      LockStepKeeps(c, t, s, a.a);
    } else {
      StepShape(c, t, s, a);
      StoreKeeps(c, t, s, a);
      WorkersKeep(c, t, s, a);
    }
  }

  // ---------------------------------------------------------------- theorems

  lemma {:induction false} RunInv(c: StoreCodec, t: L.Timing, s: State, run: seq<Action>)
    requires c.Lawful() && t.Valid() && t.putDelay < L.SETTLE && Inv(c, t, s) && IsRun(c, t, s, run)
    ensures Inv(c, t, After(c, t, s, run))
    decreases |run|
  {
    hide Inv, Enabled, Apply;
    if run == [] {
    } else {
      StepInv(c, t, s, run[0]);
      RunInv(c, t, Apply(c, t, s, run[0]), run[1..]);
    }
  }

  // Everything the repository promises about one reachable state.
  ghost predicate Intact(c: StoreCodec, s: State) {
    // no two conflicting locks
    && L.Exclusion(s.lock)
    // every blob a readable snapshot mentions opens to bytes of that digest
    && (forall h :: Referenced(c, s.store, h) ==> GetChunk(c, s.store, h).Success?)
    // and so does everything a running backup has collected so far
    && (forall p :: Working(s, p) ==> CollectedOpens(c, s.store, s.jobs[p]))
    // whoever is deleting blobs has been able to read every snapshot there is
    && (forall p :: Working(s, p) && s.jobs[p].progress.Sweeping? ==> AllReadable(c, s.store))
  }

  ghost predicate CollectedOpens(c: StoreCodec, store: Store, job: Job) {
    job.task.Backup? ==>
      Collected(job) <= |job.task.chunks|
      && forall i :: 0 <= i < Collected(job) ==> GetChunk(c, store, c.sha256(job.task.chunks[i])).Success?
  }

  // In every reachable state of interleaved backups, forgets, prunes and
  // crashes the repository is intact.
  lemma RepositorySafe(c: StoreCodec, t: L.Timing, s: State, run: seq<Action>)
    requires c.Lawful() && t.Valid() && t.putDelay < L.SETTLE
    requires Init(c, s) && IsRun(c, t, s, run)
    ensures Intact(c, After(c, t, s, run))
  {
    L.InitInv(t, s.lock);
    RunInv(c, t, s, run);
    hide IsRun, After;
    InvIntact(c, t, After(c, t, s, run));
  }

  lemma InvIntact(c: StoreCodec, t: L.Timing, e: State)
    requires c.Lawful() && t.Valid() && t.putDelay < L.SETTLE && Inv(c, t, e)
    ensures Intact(c, e)
  {
    hide Referenced, GetChunk, JobInv, CollectedOpens, AllReadable;
    L.InvExcludes(t, e.lock);
    forall h | Referenced(c, e.store, h) ensures GetChunk(c, e.store, h).Success? {
      assert SlashFree(h) && BlobPath(h) in e.store;
    }
    forall p | Working(e, p)
      ensures CollectedOpens(c, e.store, e.jobs[p])
      ensures e.jobs[p].progress.Sweeping? ==> AllReadable(c, e.store)
    {
      WorkerIntact(c, e, p);
    }
  }

  lemma WorkerIntact(c: StoreCodec, e: State, p: LockId)
    requires c.Lawful() && Working(e, p) && JobInv(c, e, p) && WellFormed(c, e.store)
    ensures CollectedOpens(c, e.store, e.jobs[p])
    ensures e.jobs[p].progress.Sweeping? ==> AllReadable(c, e.store)
  {
    hide GetChunk, BlobPath, SnapshotPath;
    var job := e.jobs[p];
    if job.task.Backup? {
      forall i | 0 <= i < Collected(job) ensures GetChunk(c, e.store, c.sha256(job.task.chunks[i])).Success? {
        assert SlashFree(c.sha256(job.task.chunks[i])) && BlobPath(c.sha256(job.task.chunks[i])) in e.store;
      }
    }
  }

  // A snapshot that is still in the repository when a run ends, however many
  // backups, forgets and prunes came after it, restores to exactly the byte
  // stream its backup cut into chunks.
  lemma SnapshotsRestore(c: StoreCodec, t: L.Timing, s: State, run: seq<Action>, task: Task, snapshot: Snapshot)
    requires c.Lawful() && c.CollisionFree() && t.Valid() && t.putDelay < L.SETTLE
    requires Init(c, s) && IsRun(c, t, s, run)
    requires task.Backup? && Describes(c, snapshot, task)
    requires var store := After(c, t, s, run).store;
             SnapshotPath(task.id) in store && DecodeSnapshot(c, store[SnapshotPath(task.id)]) == Success(snapshot)
    ensures Fetch(c, After(c, t, s, run).store, snapshot.blobs) == Success(Flatten(task.chunks))
  {
    RepositorySafe(c, t, s, run);
    var store := After(c, t, s, run).store;
    PathsApart("", task.id);
    forall i | 0 <= i < |snapshot.blobs| ensures GetChunk(c, store, snapshot.blobs[i].hash).Success? {
      assert SnapshotKey(store, SnapshotPath(task.id));
      assert References(snapshot, snapshot.blobs[i].hash);
      assert Referenced(c, store, snapshot.blobs[i].hash);
    }
    FetchGives(c, store, snapshot.blobs, task.chunks);
  }

  // Only a forget that names it, or a commit under the same id, touches a
  // snapshot object.
  lemma StepKeepsSnapshot(c: StoreCodec, t: L.Timing, s: State, a: Action, id: string)
    requires t.Valid() && Inv(c, t, s) && Enabled(c, t, s, a) && SnapshotPath(id) in s.store
    requires !(a.DeleteNext? && a.id == id) && !(a.Commit? && a.snapshot.id == id)
    ensures var store := Apply(c, t, s, a).store;
            SnapshotPath(id) in store && store[SnapshotPath(id)] == s.store[SnapshotPath(id)]
  {
    hide SnapshotPath, BlobPath, Under, Seal, WellFormed, NoDangling, ChunksThere, ScanSound, L.Inv;
    match a
    case Upload(p, _) => PathsApart(c.sha256(s.jobs[p].task.chunks[s.jobs[p].progress.done]), id);
    case Commit(_, snapshot, _) =>
      if SnapshotPath(snapshot.id) == SnapshotPath(id) {
        SnapshotPathInjective(snapshot.id, id);
      }
    case DeleteNext(_, other) =>
      if SnapshotPath(other) == SnapshotPath(id) {
        SnapshotPathInjective(other, id);
      }
    case SweepNext(p, key) =>
      assert JobInv(c, s, p);
      PathsApart("", id);
    case _ =>
  }

  lemma SnapshotOpens(c: StoreCodec, t: L.Timing, s: State, id: string)
    requires Inv(c, t, s) && SnapshotPath(id) in s.store && DecodeSnapshot(c, s.store[SnapshotPath(id)]).Success?
    ensures forall ref :: ref in DecodeSnapshot(c, s.store[SnapshotPath(id)]).value.blobs ==>
              GetChunk(c, s.store, ref.hash).Success?
  {
    PathsApart("", id);
    hide DecodeSnapshot, GetChunk, SnapshotPath;
    var decoded := DecodeSnapshot(c, s.store[SnapshotPath(id)]);
    forall ref | ref in decoded.value.blobs ensures GetChunk(c, s.store, ref.hash).Success? {
      assert SnapshotKey(s.store, SnapshotPath(id));
      assert References(decoded.value, ref.hash);
      assert Referenced(c, s.store, ref.hash);
    }
  }

  // A committed snapshot stays and stays restorable until it is forgotten.
  lemma {:induction false} CommittedStays(c: StoreCodec, t: L.Timing, s: State, run: seq<Action>, id: string)
    requires c.Lawful() && t.Valid() && t.putDelay < L.SETTLE
    requires Inv(c, t, s) && IsRun(c, t, s, run) && SnapshotPath(id) in s.store
    requires forall i :: 0 <= i < |run| ==>
               !(run[i].DeleteNext? && run[i].id == id) && !(run[i].Commit? && run[i].snapshot.id == id)
    ensures var e := After(c, t, s, run);
            && SnapshotPath(id) in e.store && e.store[SnapshotPath(id)] == s.store[SnapshotPath(id)]
            && (DecodeSnapshot(c, s.store[SnapshotPath(id)]).Success? ==>
                  forall ref :: ref in DecodeSnapshot(c, s.store[SnapshotPath(id)]).value.blobs ==>
                    GetChunk(c, e.store, ref.hash).Success?)
    decreases |run|
  {
    hide Inv, Enabled, Apply, DecodeSnapshot, GetChunk, SnapshotPath;
    if run == [] {
      if DecodeSnapshot(c, s.store[SnapshotPath(id)]).Success? {
        SnapshotOpens(c, t, s, id);
      }
    } else {
      StepKeepsSnapshot(c, t, s, run[0], id);
      StepInv(c, t, s, run[0]);
      CommittedStays(c, t, Apply(c, t, s, run[0]), run[1..], id);
    }
  }
}
