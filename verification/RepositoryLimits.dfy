// How far repository safety reaches: when the locks do not exclude each other,
// a prune can delete a blob a running backup has deduplicated against, and the
// backup then commits a snapshot that cannot be restored.
module RepositoryLimits {
  import opened Wrappers
  import opened Codecs
  import opened Paths
  import opened Engine
  import opened LockRules
  import opened RepositoryProtocol
  import L = LockProtocol
  import Limits = LockLimits
  import Sharing = LockSharing

  ghost predicate SoundInEveryRun(c: StoreCodec, t: L.Timing) {
    forall s, run :: Init(c, s) && IsRun(c, t, s, run) ==> NoDangling(c, After(c, t, s, run).store)
  }

  // Runs in which a lock's creation time and first heartbeat are one reading.
  predicate OneReading(run: seq<Action>) {
    forall i :: 0 <= i < |run| && run[i].LockStep? && run[i].a.Put? ==> run[i].a.created == run[i].a.t + run[i].a.error
  }

  ghost predicate SoundOnOneReading(c: StoreCodec, t: L.Timing) {
    forall s, run :: Init(c, s) && IsRun(c, t, s, run) && OneReading(run) ==> NoDangling(c, After(c, t, s, run).store)
  }

  lemma {:induction false} Chain(c: StoreCodec, t: L.Timing, states: seq<State>, acts: seq<Action>)
    requires |states| == |acts| + 1
    requires forall i :: 0 <= i < |acts| ==>
               Enabled(c, t, states[i], acts[i]) && Apply(c, t, states[i], acts[i]) == states[i + 1]
    ensures IsRun(c, t, states[0], acts) && After(c, t, states[0], acts) == states[|acts|]
    decreases |acts|
  {
    hide Enabled, Apply;
    if acts == [] {
    } else {
      Chain(c, t, states[1..], acts[1..]);
    }
  }

  // A run of the lock protocol is a run of the repository in which nobody works.
  function Lifted(run: seq<L.Action>): (lifted: seq<Action>)
    ensures |lifted| == |run| && forall i :: 0 <= i < |run| ==> lifted[i] == LockStep(run[i])
  {
    if run == [] then [] else [LockStep(run[0])] + Lifted(run[1..])
  }

  lemma {:induction false} LiftRun(c: StoreCodec, t: L.Timing, s: State, run: seq<L.Action>)
    requires L.IsRun(t, s.lock, run)
    ensures IsRun(c, t, s, Lifted(run))
    ensures After(c, t, s, Lifted(run)) == s.(lock := L.After(t, s.lock, run))
    decreases |run|
  {
    if run == [] {
    } else {
      LiftRun(c, t, s.(lock := L.Apply(t, s.lock, run[0])), run[1..]);
    }
  }

  const ID := "s"
  const CHUNK: bytes := [0]

  ghost function OneBlob(c: StoreCodec): Store {
    map[BlobPath(c.sha256(CHUNK)) := Seal(c, CHUNK, NoCompression, 0)]
  }

  ghost predicate BothHold(s: State) {
    Limits.BothHold(s.lock, Shared, Exclusive)
  }

  const TASK := Backup([CHUNK], NoCompression, ID)

  lemma DeduplicateFirst(c: StoreCodec, t: L.Timing, s: State) returns (run: seq<Action>)
    requires BothHold(s) && s.jobs == map[] && s.store == OneBlob(c)
    ensures IsRun(c, t, s, run) && OneReading(run)
    ensures After(c, t, s, run) == s.(jobs := map[Limits.SLOW := Job(TASK, Storing(1))])
  {
    var s1 := Apply(c, t, s, Begin(Limits.SLOW, TASK));
    var s2 := Apply(c, t, s1, LookUp(Limits.SLOW));
    run := [Begin(Limits.SLOW, TASK), LookUp(Limits.SLOW)];
    Chain(c, t, [s, s1, s2], run);
  }

  lemma PruneMeanwhile(c: StoreCodec, t: L.Timing, s: State) returns (run: seq<Action>)
    requires c.Lawful() && BothHold(s) && s.store == OneBlob(c)
    requires s.jobs == map[Limits.SLOW := Job(TASK, Storing(1))]
    ensures IsRun(c, t, s, run) && OneReading(run)
    ensures var e := After(c, t, s, run);
            e.lock == s.lock && e.store == map[]
            && Limits.SLOW in e.jobs && e.jobs[Limits.SLOW] == Job(TASK, Storing(1))
  {
    var path := BlobPath(c.sha256(CHUNK));
    PathsApart(c.sha256(CHUNK), ID);
    DirectoriesApart(path);
    var s3 := Apply(c, t, s, Begin(Limits.QUICK, Prune));
    assert SnapshotKeys(s3.store) == {};
    var s4 := Apply(c, t, s3, ListSnapshots(Limits.QUICK));
    var sweep := SweepTheBlob(c, t, s4);
    Chain(c, t, [s, s3, s4], [Begin(Limits.QUICK, Prune), ListSnapshots(Limits.QUICK)]);
    run := [Begin(Limits.QUICK, Prune), ListSnapshots(Limits.QUICK)] + sweep;
    Joined(c, t, s, [Begin(Limits.QUICK, Prune), ListSnapshots(Limits.QUICK)], sweep);
  }

  lemma SweepTheBlob(c: StoreCodec, t: L.Timing, s: State) returns (run: seq<Action>)
    requires c.Lawful() && BothHold(s) && s.store == OneBlob(c)
    requires Limits.SLOW in s.jobs && s.jobs[Limits.SLOW] == Job(TASK, Storing(1))
    requires Limits.QUICK in s.jobs && s.jobs[Limits.QUICK] == Job(Prune, Scanning({}, {}))
    ensures IsRun(c, t, s, run) && OneReading(run)
    ensures var e := After(c, t, s, run);
            e.lock == s.lock && e.store == map[]
            && Limits.SLOW in e.jobs && e.jobs[Limits.SLOW] == Job(TASK, Storing(1))
  {
    var path := BlobPath(c.sha256(CHUNK));
    PathsApart(c.sha256(CHUNK), ID);
    assert BlobKeys(s.store) == {path};
    var s5 := Apply(c, t, s, ListBlobs(Limits.QUICK));
    var s6 := Apply(c, t, s5, SweepNext(Limits.QUICK, path));
    assert s6.store == map[];
    run := [ListBlobs(Limits.QUICK), SweepNext(Limits.QUICK, path)];
    Chain(c, t, [s, s5, s6], run);
  }

  lemma CommitAnyway(c: StoreCodec, t: L.Timing, s: State) returns (run: seq<Action>)
    requires c.Lawful() && BothHold(s) && s.store == map[]
    requires Limits.SLOW in s.jobs && s.jobs[Limits.SLOW] == Job(TASK, Storing(1))
    ensures IsRun(c, t, s, run) && OneReading(run) && !NoDangling(c, After(c, t, s, run).store)
  {
    var snapshot := Snapshot(ID, "mysql", "db", None, 0, 1, 0, 1, [BlobRef(c.sha256(CHUNK), 1, 0, 0)]);
    var s7 := Apply(c, t, s, LookUpSnapshot(Limits.SLOW));
    var s8 := Apply(c, t, s7, Commit(Limits.SLOW, snapshot, 0));
    run := [LookUpSnapshot(Limits.SLOW), Commit(Limits.SLOW, snapshot, 0)];
    Chain(c, t, [s, s7, s8], run);
    assert s8.store == map[SnapshotPath(ID) := c.seal(0, c.printSnapshot(snapshot))];
    DanglingSnapshot(c, snapshot, c.sha256(CHUNK));
  }

  // The slow process backs up one chunk, finds it stored, and pauses; the quick
  // one prunes it; the backup commits.
  lemma PruneRace(c: StoreCodec, t: L.Timing, s: State) returns (run: seq<Action>)
    requires c.Lawful() && s.store == OneBlob(c) && s.jobs == map[] && BothHold(s)
    ensures IsRun(c, t, s, run) && OneReading(run) && !NoDangling(c, After(c, t, s, run).store)
  {
    var first := DeduplicateFirst(c, t, s);
    var s2 := After(c, t, s, first);
    var second := PruneMeanwhile(c, t, s2);
    var third := CommitAnyway(c, t, After(c, t, s2, second));
    Joined(c, t, s2, second, third);
    Joined(c, t, s, first, second + third);
    run := first + (second + third);
  }

  lemma DanglingSnapshot(c: StoreCodec, snapshot: Snapshot, hash: string)
    requires c.Lawful() && |snapshot.blobs| == 1 && snapshot.blobs[0].hash == hash
    ensures !NoDangling(c, map[SnapshotPath(snapshot.id) := c.seal(0, c.printSnapshot(snapshot))])
  {
    var sealed := c.seal(0, c.printSnapshot(snapshot));
    var store: Store := map[SnapshotPath(snapshot.id) := sealed];
    PathsApart(hash, snapshot.id);
    assert c.unseal(sealed) == Some(c.printSnapshot(snapshot));
    assert References(snapshot, hash);
    assert SnapshotKey(store, SnapshotPath(snapshot.id));
    assert Referenced(c, store, hash) && BlobPath(hash) !in store;
  }

  lemma OneBlobIsSound(c: StoreCodec)
    requires c.Lawful()
    ensures WellFormed(c, OneBlob(c)) && NoDangling(c, OneBlob(c))
  {
    var hash := c.sha256(CHUNK);
    SealedOpens(c, CHUNK, NoCompression, 0);
    forall h | SlashFree(h) && BlobPath(h) in OneBlob(c) ensures GetChunk(c, OneBlob(c), h).Success? {
      BlobPathInverse(h);
      BlobPathInverse(hash);
    }
    PathsApart(hash, ID);
  }

  // No snapshot is ever left with a missing blob, in any run, if and only if
  // puts are faster than the settle time and no clock can take the heartbeat of
  // a live lock for dead. The same is exact where each lock takes its creation
  // time and its first heartbeat from one reading.
  lemma SafetyExactly(c: StoreCodec, t: L.Timing)
    requires c.Lawful() && t.Possible()
    ensures SoundInEveryRun(c, t) <==>
              t.putDelay < 500 && t.acquireBound + 60_000 + t.writeLatency + 2 * t.skew < 15 * 60 * 1000
    ensures SoundOnOneReading(c, t) <==>
              t.putDelay < 500 && t.acquireBound + 60_000 + t.writeLatency + 2 * t.skew < 15 * 60 * 1000
  {
    hide IsRun, After, NoDangling, OneReading, Inv;
    if t.putDelay < L.SETTLE && t.Fresh() {
      forall s, run | Init(c, s) && IsRun(c, t, s, run) ensures NoDangling(c, After(c, t, s, run).store) {
        SoundAfter(c, t, s, run);
      }
    } else {
      var locks := Limits.BothHeld(t, Shared, Exclusive);
      var s, run := RaceAfter(c, t, locks);
    }
  }

  lemma SoundAfter(c: StoreCodec, t: L.Timing, s: State, run: seq<Action>)
    requires c.Lawful() && t.Valid() && t.putDelay < L.SETTLE && Init(c, s) && IsRun(c, t, s, run)
    ensures NoDangling(c, After(c, t, s, run).store)
  {
    hide IsRun, After;
    L.InitInv(t, s.lock);
    RunInv(c, t, s, run);
  }

  // Once both locks are held, the race follows.
  lemma RaceAfter(c: StoreCodec, t: L.Timing, locks: seq<L.Action>) returns (s: State, run: seq<Action>)
    requires c.Lawful() && Limits.OneReading(locks)
    requires L.IsRun(t, Limits.EMPTY, locks) && Limits.BothHold(L.After(t, Limits.EMPTY, locks), Shared, Exclusive)
    ensures Init(c, s) && IsRun(c, t, s, run) && OneReading(run) && !NoDangling(c, After(c, t, s, run).store)
  {
    s := State(Limits.EMPTY, OneBlob(c), map[]);
    OneBlobIsSound(c);
    LiftRun(c, t, s, locks);
    var held := After(c, t, s, Lifted(locks));
    var race := PruneRace(c, t, held);
    Joined(c, t, s, Lifted(locks), race);
    run := Lifted(locks) + race;
  }

  // Backups do not exclude each other: in some run of any possible timing two of
  // them work at once.
  lemma TwoBackups(c: StoreCodec, t: L.Timing, one: Task, two: Task) returns (s: State, run: seq<Action>)
    requires c.Lawful() && t.Possible() && one.Backup? && two.Backup? && ValidTask(c, one) && ValidTask(c, two)
    ensures Init(c, s) && IsRun(c, t, s, run) && OneReading(run)
    ensures var e := After(c, t, s, run);
            && At(e, Sharing.ONE, Storing(0)) && e.jobs[Sharing.ONE].task == one
            && At(e, Sharing.TWO, Storing(0)) && e.jobs[Sharing.TWO].task == two
  {
    var locks := Sharing.TwoShared(t);
    s := State(Limits.EMPTY, map[], map[]);
    LiftRun(c, t, s, locks);
    var held := After(c, t, s, Lifted(locks));
    var s1 := Apply(c, t, held, Begin(Sharing.ONE, one));
    var s2 := Apply(c, t, s1, Begin(Sharing.TWO, two));
    var both := [Begin(Sharing.ONE, one), Begin(Sharing.TWO, two)];
    Chain(c, t, [held, s1, s2], both);
    Joined(c, t, s, Lifted(locks), both);
    run := Lifted(locks) + both;
    EmptyIsSound(c);
  }

  lemma EmptyIsSound(c: StoreCodec)
    ensures WellFormed(c, map[]) && NoDangling(c, map[])
  {
  }
}
