// The lock protocol as a state machine: any number of processes, one step per
// backend call, a global clock, crashes, foreign files and non-forced unlocks.
//
// A process id is the lock id of one acquisition attempt; ids are never reused.
module LockProtocol {
  import opened Wrappers
  import opened LockRules

  const SETTLE := 500
  const BEAT := 60_000

  // What is assumed about the environment, in milliseconds.
  //   putDelay     most time from a process's first listing to its put
  //   acquireBound most time from stamping a lock to holding or yielding it
  //   writeLatency most time from stamping a heartbeat to having it stored
  //   skew         most a clock reading is off, either way; creation times apart
  datatype Timing = Timing(putDelay: nat, acquireBound: nat, writeLatency: nat, skew: nat) {
    // The steps fit into their bounds.
    predicate Possible() {
      putDelay + SETTLE <= acquireBound && writeLatency <= BEAT
    }

    // A live heartbeat, however late, is fresh on every clock.
    predicate Fresh() {
      acquireBound + BEAT + writeLatency + 2 * skew < HEARTBEAT_TTL
    }

    predicate Valid() {
      Possible() && Fresh()
    }

    predicate Reading(error: int) {
      -(skew as int) <= error <= skew as int
    }
  }

  datatype Phase =
    | Reading(todo: set<LockId>)     // first listing taken, files still to read
    | Settling                       // own file stored, waiting
    | Verifying(rest: set<LockId>)   // second listing taken, files still to read
    | Yielding                       // saw an older conflicting lock
    | Held
    | Closed(how: Outcome)

  datatype Outcome = Blocked | Yielded | Released | Crashed

  datatype Proc = Proc(
    kind: LockType,
    phase: Phase,
    clock: int,               // local time read at the latest listing
    listed: set<LockId>,      // first listing
    listAt: int,
    info: LockInfo,           // own lock, as created
    putAt: int,
    stampAt: int,             // global time at which the stored heartbeat was read
    verified: set<LockId>,    // second listing
    verifyAt: int,
    pending: Option<(int, int)>, // heartbeat being written: global and local time
    due: int,                 // by when the process must have moved on
    acquired: bool)

  datatype State = State(
    now: int,
    files: map<LockId, LockFile>,
    procs: map<LockId, Proc>,
    doomed: set<LockId>,      // files a non-forced unlock has read as stale
    used: set<LockId>)        // every id seen so far

  predicate HasFile(phase: Phase) {
    phase.Settling? || phase.Verifying? || phase.Held?
  }

  predicate Timed(phase: Phase) {
    phase.Reading? || HasFile(phase)
  }

  predicate Refused(phase: Phase) {
    phase == Closed(Blocked) || phase == Closed(Yielded)
  }

  // Process p is in the protocol and its lock file counts.
  predicate Live(s: State, p: LockId) {
    p in s.procs && HasFile(s.procs[p].phase)
  }

  predicate Holds(s: State, p: LockId) {
    p in s.procs && s.procs[p].phase.Held?
  }

  datatype Action =
    | Tick(d: nat)
    | Start(p: LockId, kind: LockType, error: int)
    | Read(p: LockId, q: LockId)
    | Put(p: LockId, t: int, error: int, created: int)
    | Relist(p: LockId, error: int)
    | Recheck(p: LockId, q: LockId)
    | Withdraw(p: LockId)
    | Acquire(p: LockId)
    | Stamp(p: LockId, error: int)
    | Beat(p: LockId)
    | Release(p: LockId)
    | Crash(p: LockId)
    | FindStale(q: LockId, t: int, error: int)
    | DeleteStale(q: LockId)
    | Foreign(q: LockId, file: Option<LockFile>)

  // File q, as found by a reader whose clock said `clock` when it listed.
  predicate ActiveFile(s: State, q: LockId, clock: int) {
    q in s.files && s.files[q].Readable? && IsActive(s.files[q].info, clock)
  }

  predicate ReadBlocks(s: State, x: Proc, q: LockId) {
    ActiveFile(s, q, x.clock) && Blocks(x.kind, s.files[q].info)
  }

  predicate RecheckYields(s: State, x: Proc, q: LockId) {
    ActiveFile(s, q, x.clock) && YieldsTo(x.info, s.files[q].info)
  }

  ghost predicate Enabled(c: Timing, s: State, a: Action) {
    match a
    case Tick(d) =>
      forall p :: p in s.procs && Timed(s.procs[p].phase) ==> s.now + d <= s.procs[p].due
    case Start(p, _, error) => p !in s.used && c.Reading(error)
    case Read(p, q) => p in s.procs && s.procs[p].phase.Reading? && q in s.procs[p].phase.todo
    // The heartbeat is a clock reading; the creation time may be anything.
    case Put(p, t, error, _) =>
      && p in s.procs && s.procs[p].phase == Reading({})
      && s.procs[p].listAt <= t <= s.now && c.Reading(error)
    case Relist(p, error) =>
      && p in s.procs && s.procs[p].phase.Settling?
      && s.procs[p].putAt + SETTLE <= s.now && c.Reading(error)
    case Recheck(p, q) => p in s.procs && s.procs[p].phase.Verifying? && q in s.procs[p].phase.rest
    case Withdraw(p) => p in s.procs && s.procs[p].phase.Yielding?
    case Acquire(p) => p in s.procs && s.procs[p].phase == Verifying({})
    case Stamp(p, error) => Holds(s, p) && s.procs[p].pending.None? && c.Reading(error)
    case Beat(p) => Holds(s, p) && s.procs[p].pending.Some?
    case Release(p) => Holds(s, p)
    case Crash(p) => p in s.procs && !s.procs[p].phase.Closed?
    case FindStale(q, t, error) =>
      && q in s.files && s.files[q].Readable? && t <= s.now && c.Reading(error)
      && !IsActive(s.files[q].info, t + error)
    case DeleteStale(q) => q in s.doomed
    // Anything may happen to a file no running process owns: leftovers of
    // crashed processes, late heartbeats, forced removal, other versions. An
    // attempt that was refused never started a heartbeat, so nobody writes for it.
    case Foreign(q, file) => q in s.procs ==> s.procs[q].phase.Closed? && (file.Some? ==> !Refused(s.procs[q].phase))
  }

  function Move(s: State, p: LockId, x: Proc): State {
    s.(procs := s.procs[p := x])
  }

  function Apply(c: Timing, s: State, a: Action): State
    requires Enabled(c, s, a)
  {
    match a
    case Tick(d) => s.(now := s.now + d)
    case Start(p, kind, error) =>
      var x := Proc(kind, Reading(s.files.Keys), s.now + error, s.files.Keys, s.now,
                    LockInfo(p, kind, 0, None), 0, 0, {}, 0, None, s.now + c.putDelay, false);
      Move(s, p, x).(used := s.used + {p})
    case Read(p, q) =>
      var x := s.procs[p];
      if ReadBlocks(s, x, q) then Move(s, p, x.(phase := Closed(Blocked)))
      else Move(s, p, x.(phase := Reading(x.phase.todo - {q})))
    case Put(p, t, error, created) =>
      var x := s.procs[p];
      var info := LockInfo(p, x.kind, created, Some(t + error));
      Move(s, p, x.(phase := Settling, info := info, putAt := s.now, stampAt := t, due := t + c.acquireBound))
      .(files := s.files[p := Readable(info)])
    case Relist(p, error) =>
      Move(s, p, s.procs[p].(phase := Verifying(s.files.Keys), clock := s.now + error,
                             verified := s.files.Keys, verifyAt := s.now))
    case Recheck(p, q) =>
      var x := s.procs[p];
      if RecheckYields(s, x, q) then Move(s, p, x.(phase := Yielding))
      else Move(s, p, x.(phase := Verifying(x.phase.rest - {q})))
    case Withdraw(p) => Move(s, p, s.procs[p].(phase := Closed(Yielded))).(files := s.files - {p})
    case Acquire(p) => Move(s, p, s.procs[p].(phase := Held, due := s.now + BEAT, acquired := true))
    case Stamp(p, error) =>
      Move(s, p, s.procs[p].(pending := Some((s.now, s.now + error)), due := s.now + c.writeLatency))
    case Beat(p) =>
      var x := s.procs[p];
      Move(s, p, x.(pending := None, stampAt := x.pending.value.0, due := x.pending.value.0 + BEAT))
      .(files := s.files[p := Readable(x.info.(lastHeartbeat := Some(x.pending.value.1)))])
    case Release(p) => Move(s, p, s.procs[p].(phase := Closed(Released))).(files := s.files - {p})
    case Crash(p) => Move(s, p, s.procs[p].(phase := Closed(Crashed)))
    case FindStale(q, _, _) => s.(doomed := s.doomed + {q})
    case DeleteStale(q) => s.(files := s.files - {q})
    case Foreign(q, file) =>
      s.(files := if file.Some? then s.files[q := file.value] else s.files - {q}, used := s.used + {q})
  }

  predicate Init(s: State) {
    s.procs == map[] && s.doomed == {} && s.files.Keys <= s.used
  }

  // The state after a run, for a list of actions each enabled in its turn.
  ghost predicate IsRun(c: Timing, s: State, run: seq<Action>)
    decreases |run|
  {
    run == [] || (Enabled(c, s, run[0]) && IsRun(c, Apply(c, s, run[0]), run[1..]))
  }

  ghost function After(c: Timing, s: State, run: seq<Action>): State
    requires IsRun(c, s, run)
    decreases |run|
  {
    if run == [] then s else After(c, Apply(c, s, run[0]), run[1..])
  }

  // ---------------------------------------------------------------- invariant

  // Every id in sight has been recorded as used; a process that has not put
  // its file yet is known to nobody.
  ghost predicate IdsInv(s: State) {
    && s.files.Keys <= s.used && s.doomed <= s.used && s.procs.Keys <= s.used
    && (forall p :: p in s.procs ==> s.procs[p].listed <= s.used && s.procs[p].verified <= s.used)
    && (forall p :: p in s.procs && s.procs[p].phase.Reading? ==> p !in s.files && p !in s.doomed)
    && (forall p :: p in s.procs && Refused(s.procs[p].phase) ==> p !in s.files)
    && (forall p, q :: p in s.procs && q in s.procs && s.procs[q].phase.Reading? ==>
          q !in s.procs[p].listed && q !in s.procs[p].verified)
  }

  // A live process's file is in place and says what the process says.
  ghost predicate FileInv(c: Timing, s: State, p: LockId)
    requires p in s.procs
  {
    var x := s.procs[p];
    && p in s.files && p !in s.doomed
    && x.info.lockId == p && x.info.lockType == x.kind
    && (exists beat :: s.files[p] == Readable(x.info.(lastHeartbeat := Some(beat)))
                       && c.Reading(beat - x.stampAt))
  }

  ghost predicate TimeInv(c: Timing, s: State, x: Proc) {
    && x.listAt <= s.now <= x.due
    && (x.phase.Reading? ==>
          x.due == x.listAt + c.putDelay && c.Reading(x.clock - x.listAt) && x.pending.None?)
    && (x.phase.Verifying? ==> c.Reading(x.clock - x.verifyAt))
    && (HasFile(x.phase) ==>
          && x.listAt <= x.putAt <= x.listAt + c.putDelay && x.putAt <= s.now
          && x.stampAt <= s.now
          && x.due <= x.stampAt + c.acquireBound + BEAT + c.writeLatency
          && (!x.phase.Held? ==> x.due <= x.stampAt + c.acquireBound && x.pending.None?)
          && (x.pending.None? ==> x.due <= x.stampAt + c.acquireBound + BEAT)
          && (x.pending.Some? ==>
                && x.pending.value.0 <= s.now && x.due == x.pending.value.0 + c.writeLatency
                && c.Reading(x.pending.value.1 - x.pending.value.0)))
    && (x.phase.Verifying? || x.phase.Held? ==> x.putAt + SETTLE <= x.verifyAt <= s.now)
  }

  // What p's two listings have told it about another live process q.
  ghost predicate PairInv(s: State, p: LockId, q: LockId)
    requires p in s.procs && q in s.procs
  {
    var x, y := s.procs[p], s.procs[q];
    && (x.listAt > y.putAt ==> q in x.listed)
    && (q in x.listed && (x.phase.Reading? ==> q !in x.phase.todo) ==> !Conflicts(x.kind, y.kind))
    && (x.phase.Verifying? || x.phase.Held? ==>
          && (q !in x.verified ==> y.putAt >= x.verifyAt)
          && (q in x.verified && (x.phase.Verifying? ==> q !in x.phase.rest) && Conflicts(x.kind, y.kind) ==>
                Older(x.info, y.info)))
  }

  ghost predicate Inv(c: Timing, s: State) {
    && IdsInv(s)
    && (forall p :: p in s.procs && HasFile(s.procs[p].phase) ==> FileInv(c, s, p))
    && (forall p :: p in s.procs && Timed(s.procs[p].phase) ==> TimeInv(c, s, s.procs[p]))
    && (forall p, q ::
          p in s.procs && q in s.procs && p != q && Timed(s.procs[p].phase) && HasFile(s.procs[q].phase) ==>
            PairInv(s, p, q))
  }

  // A live process's file passes every activity test taken now or earlier.
  lemma LiveFileIsActive(c: Timing, s: State, q: LockId, t: int, error: int)
    requires c.Valid() && Inv(c, s) && Live(s, q) && t <= s.now && c.Reading(error)
    ensures ActiveFile(s, q, t + error)
  {
  }

  // --------------------------------------------------------------- the steps

  lemma InitInv(c: Timing, s: State)
    requires Init(s)
    ensures Inv(c, s)
  {
  }

  lemma StepInv(c: Timing, s: State, a: Action)
    requires c.Valid() && Inv(c, s) && Enabled(c, s, a)
    ensures Inv(c, Apply(c, s, a))
  {
    var s' := Apply(c, s, a);
    StepIds(c, s, a);
    forall p | p in s'.procs && HasFile(s'.procs[p].phase) ensures FileInv(c, s', p) {
      StepFile(c, s, a, p);
    }
    forall p | p in s'.procs && Timed(s'.procs[p].phase) ensures TimeInv(c, s', s'.procs[p]) {
      StepTime(c, s, a, p);
    }
    forall p, q | p in s'.procs && q in s'.procs && p != q && Timed(s'.procs[p].phase) && HasFile(s'.procs[q].phase)
      ensures PairInv(s', p, q)
    {
      StepPair(c, s, a, p, q);
    }
  }

  // The process an action moves, if any.
  function Mover(a: Action): Option<LockId> {
    match a
    case Start(p, _, _) => Some(p)
    case Read(p, _) => Some(p)
    case Put(p, _, _, _) => Some(p)
    case Relist(p, _) => Some(p)
    case Recheck(p, _) => Some(p)
    case Withdraw(p) => Some(p)
    case Acquire(p) => Some(p)
    case Stamp(p, _) => Some(p)
    case Beat(p) => Some(p)
    case Release(p) => Some(p)
    case Crash(p) => Some(p)
    case _ => None
  }

  lemma StepFrame(c: Timing, s: State, a: Action)
    requires Enabled(c, s, a)
    ensures var s' := Apply(c, s, a);
            && s.used <= s'.used
            && s'.procs.Keys == s.procs.Keys + (if a.Start? then {a.p} else {})
            && (forall p :: p in s.procs && Mover(a) != Some(p) ==> s'.procs[p] == s.procs[p])
  {
  }

  // A step leaves each process's listings alone or sets them to what is there.
  lemma StepListings(c: Timing, s: State, a: Action, p: LockId)
    requires Enabled(c, s, a) && p in Apply(c, s, a).procs
    ensures var x' := Apply(c, s, a).procs[p];
            && (if a.Start? && a.p == p then x'.listed == s.files.Keys && x'.verified == {}
                else p in s.procs && x'.listed == s.procs[p].listed
                     && x'.verified == if a.Relist? && a.p == p then s.files.Keys else s.procs[p].verified)
            && (x'.phase.Reading? ==> (a.Start? && a.p == p) || (p in s.procs && s.procs[p].phase.Reading?))
  {
  }

  // Which ids a step can bring in.
  lemma StepFiles(c: Timing, s: State, a: Action, q: LockId)
    requires Enabled(c, s, a) && q in Apply(c, s, a).files
    ensures q in s.files || (a.Put? && q == a.p) || (a.Beat? && q == a.p) || (a.Foreign? && q == a.q && a.file.Some?)
  {
  }

  lemma StepUsed(c: Timing, s: State, a: Action)
    requires Enabled(c, s, a)
    ensures Apply(c, s, a).used == s.used + (if a.Start? then {a.p} else if a.Foreign? then {a.q} else {})
    ensures Apply(c, s, a).doomed == s.doomed + (if a.FindStale? then {a.q} else {})
  {
  }

  lemma StepSets(c: Timing, s: State, a: Action)
    requires IdsInv(s) && Enabled(c, s, a)
    ensures var s' := Apply(c, s, a);
            s'.files.Keys <= s'.used && s'.doomed <= s'.used && s'.procs.Keys <= s'.used
  {
    hide Apply;
    StepFrame(c, s, a);
    StepUsed(c, s, a);
    var s' := Apply(c, s, a);
    forall q | q in s'.files ensures q in s'.used {
      StepFiles(c, s, a, q);
    }
  }

  lemma StepRefused(c: Timing, s: State, a: Action, p: LockId)
    requires Enabled(c, s, a) && p in Apply(c, s, a).procs && Refused(Apply(c, s, a).procs[p].phase)
    ensures p in s.procs
    ensures Refused(s.procs[p].phase) || (a.Read? && s.procs[p].phase.Reading?)
            || (a.Withdraw? && p !in Apply(c, s, a).files)
    ensures Mover(a) == Some(p) ==> a.Read? || a.Withdraw?
  {
  }

  // Nobody but a process's own put makes its file appear.
  lemma StepOwnIds(c: Timing, s: State, a: Action, p: LockId)
    requires IdsInv(s) && Enabled(c, s, a) && p in Apply(c, s, a).procs
    ensures var s' := Apply(c, s, a);
            && (s'.procs[p].phase.Reading? ==> p !in s'.files && p !in s'.doomed)
            && (Refused(s'.procs[p].phase) ==> p !in s'.files)
  {
    hide Apply;
    var s' := Apply(c, s, a);
    StepFrame(c, s, a);
    StepUsed(c, s, a);
    StepListings(c, s, a, p);
    if p in s'.files {
      StepFiles(c, s, a, p);
      if Refused(s'.procs[p].phase) {
        StepRefused(c, s, a, p);
      }
    }
    if s'.procs[p].phase.Reading? && a.Put? && a.p == p {
      LeavesReading(c, s, a);
    }
  }

  lemma LeavesReading(c: Timing, s: State, a: Action)
    requires Enabled(c, s, a) && a.Put?
    ensures Apply(c, s, a).procs[a.p].phase == Settling
  {
  }

  lemma StepSeen(c: Timing, s: State, a: Action, p: LockId, q: LockId)
    requires IdsInv(s) && Enabled(c, s, a) && p in Apply(c, s, a).procs && q in Apply(c, s, a).procs
    ensures var s' := Apply(c, s, a);
            && s'.procs[p].listed <= s'.used && s'.procs[p].verified <= s'.used
            && (s'.procs[q].phase.Reading? ==> q !in s'.procs[p].listed && q !in s'.procs[p].verified)
  {
    StepFrame(c, s, a);
    StepListings(c, s, a, p);
    StepListings(c, s, a, q);
    hide Apply;
  }

  lemma StepIds(c: Timing, s: State, a: Action)
    requires IdsInv(s) && Enabled(c, s, a)
    ensures IdsInv(Apply(c, s, a))
  {
    hide Apply, Enabled;
    StepSets(c, s, a);
    var s' := Apply(c, s, a);
    forall p | p in s'.procs
      ensures s'.procs[p].listed <= s'.used && s'.procs[p].verified <= s'.used
      ensures s'.procs[p].phase.Reading? ==> p !in s'.files && p !in s'.doomed
      ensures Refused(s'.procs[p].phase) ==> p !in s'.files
    {
      StepOwnIds(c, s, a, p);
      StepSeen(c, s, a, p, p);
    }
    forall p, q | p in s'.procs && q in s'.procs && s'.procs[q].phase.Reading?
      ensures q !in s'.procs[p].listed && q !in s'.procs[p].verified
    {
      StepSeen(c, s, a, p, q);
    }
  }

  lemma PutFile(c: Timing, s: State, a: Action)
    requires Enabled(c, s, a) && a.Put? && IdsInv(s)
    ensures FileInv(c, Apply(c, s, a), a.p)
  {
    var s' := Apply(c, s, a);
    assert s'.files[a.p] == Readable(s'.procs[a.p].info.(lastHeartbeat := Some(a.t + a.error)));
  }

  lemma BeatFile(c: Timing, s: State, a: Action)
    requires Enabled(c, s, a) && a.Beat? && FileInv(c, s, a.p) && TimeInv(c, s, s.procs[a.p])
    ensures FileInv(c, Apply(c, s, a), a.p)
  {
    var s' := Apply(c, s, a);
    assert s'.files[a.p] == Readable(s'.procs[a.p].info.(lastHeartbeat := Some(s.procs[a.p].pending.value.1)));
  }

  // No other step touches a live process's file or what it says of itself.
  lemma FileUntouched(c: Timing, s: State, a: Action, p: LockId)
    requires Enabled(c, s, a) && Live(Apply(c, s, a), p) && !(a.Put? && a.p == p) && !(a.Beat? && a.p == p)
    requires p in s.procs && p in s.files && p !in s.doomed
    ensures Live(s, p)
    ensures var s' := Apply(c, s, a);
            && p in s'.files && s'.files[p] == s.files[p]
            && s'.procs[p].info == s.procs[p].info && s'.procs[p].kind == s.procs[p].kind
            && s'.procs[p].stampAt == s.procs[p].stampAt
            && (p in s'.doomed ==> a.FindStale? && a.q == p)
  {
  }

  lemma StepFile(c: Timing, s: State, a: Action, p: LockId)
    requires c.Valid() && Inv(c, s) && Enabled(c, s, a)
    requires Live(Apply(c, s, a), p)
    ensures FileInv(c, Apply(c, s, a), p)
  {
    hide Apply, IdsInv, PairInv, TimeInv;
    WasLive(c, s, a, p);
    if a.Put? && a.p == p {
      PutFile(c, s, a);
    } else {
      assert FileInv(c, s, p) && TimeInv(c, s, s.procs[p]);
      if a.Beat? && a.p == p {
        BeatFile(c, s, a);
      } else {
        FileUntouched(c, s, a, p);
        if a.FindStale? && a.q == p {
          LiveFileIsActive(c, s, p, a.t, a.error);
        }
      }
    }
  }

  lemma StepTime(c: Timing, s: State, a: Action, p: LockId)
    requires c.Valid() && Inv(c, s) && Enabled(c, s, a)
    requires p in Apply(c, s, a).procs && Timed(Apply(c, s, a).procs[p].phase)
    ensures TimeInv(c, Apply(c, s, a), Apply(c, s, a).procs[p])
  {
    StepFrame(c, s, a);
    WasTimed(c, s, a, p);
    if Mover(a) == Some(p) {
      OwnStepTime(c, s, a, p);
    } else {
      OtherStepTime(c, s, a, p);
    }
  }

  // Who is on the clock was on it before, or has just started.
  lemma WasTimed(c: Timing, s: State, a: Action, p: LockId)
    requires Enabled(c, s, a) && p in Apply(c, s, a).procs && Timed(Apply(c, s, a).procs[p].phase)
    ensures (a.Start? && a.p == p) || (p in s.procs && Timed(s.procs[p].phase))
  {
  }

  lemma OtherStepTime(c: Timing, s: State, a: Action, p: LockId)
    requires Enabled(c, s, a) && p in s.procs && p in Apply(c, s, a).procs
    requires Apply(c, s, a).procs[p] == s.procs[p] && Timed(s.procs[p].phase) && TimeInv(c, s, s.procs[p])
    ensures TimeInv(c, Apply(c, s, a), s.procs[p])
  {
  }

  lemma ReadingStepTime(c: Timing, s: State, a: Action)
    requires c.Valid() && Enabled(c, s, a) && (a.Start? || a.Read? || a.Relist? || a.Recheck?)
    requires a.Start? || TimeInv(c, s, s.procs[a.p])
    requires Timed(Apply(c, s, a).procs[a.p].phase)
    ensures TimeInv(c, Apply(c, s, a), Apply(c, s, a).procs[a.p])
  {
  }

  lemma HoldingStepTime(c: Timing, s: State, a: Action)
    requires c.Valid() && Enabled(c, s, a) && (a.Put? || a.Acquire? || a.Stamp? || a.Beat?)
    requires TimeInv(c, s, s.procs[a.p])
    ensures TimeInv(c, Apply(c, s, a), Apply(c, s, a).procs[a.p])
  {
  }

  lemma LeavingStep(c: Timing, s: State, a: Action)
    requires Enabled(c, s, a) && (a.Withdraw? || a.Release? || a.Crash?)
    ensures !Timed(Apply(c, s, a).procs[a.p].phase)
  {
  }

  lemma OwnStepTime(c: Timing, s: State, a: Action, p: LockId)
    requires c.Valid() && Enabled(c, s, a) && Mover(a) == Some(p)
    requires a.Start? || TimeInv(c, s, s.procs[p])
    requires p in Apply(c, s, a).procs && Timed(Apply(c, s, a).procs[p].phase)
    ensures TimeInv(c, Apply(c, s, a), Apply(c, s, a).procs[p])
  {
    hide Apply, TimeInv, Timed;
    if a.Start? || a.Read? || a.Relist? || a.Recheck? {
      ReadingStepTime(c, s, a);
    } else if a.Put? || a.Acquire? || a.Stamp? || a.Beat? {
      HoldingStepTime(c, s, a);
    } else {
      LeavingStep(c, s, a);
    }
  }

  lemma StepPair(c: Timing, s: State, a: Action, p: LockId, q: LockId)
    requires c.Valid() && Inv(c, s) && Enabled(c, s, a)
    requires p != q && p in Apply(c, s, a).procs && Timed(Apply(c, s, a).procs[p].phase) && Live(Apply(c, s, a), q)
    ensures PairInv(Apply(c, s, a), p, q)
  {
    hide Apply, PairInv, TimeInv, FileInv, IdsInv;
    StepFrame(c, s, a);
    WasTimed(c, s, a, p);
    WasLive(c, s, a, q);
    if Mover(a) == Some(p) {
      assert Live(s, q) && FileInv(c, s, q) && TimeInv(c, s, s.procs[q]);
      if a.Start? {
        StarterStepPair(c, s, a, q);
      } else {
        assert PairInv(s, p, q) && TimeInv(c, s, s.procs[p]);
        ReaderStepPair(c, s, a, p, q);
      }
    } else if Mover(a) == Some(q) {
      assert TimeInv(c, s, s.procs[p]);
      assert Live(s, q) ==> PairInv(s, p, q);
      WriterStepPair(c, s, a, p, q);
    } else {
      assert PairInv(s, p, q);
      assert Apply(c, s, a).procs[p] == s.procs[p] && Apply(c, s, a).procs[q] == s.procs[q];
      SameStampPair(s, Apply(c, s, a), p, q);
    }
  }

  lemma WasLive(c: Timing, s: State, a: Action, q: LockId)
    requires Enabled(c, s, a) && Live(Apply(c, s, a), q)
    ensures Live(s, q) || (a.Put? && a.p == q)
    ensures Mover(a) == Some(q) ==> q in s.procs && !a.Start?
  {
  }

  lemma StarterStepPair(c: Timing, s: State, a: Action, q: LockId)
    requires Enabled(c, s, a) && a.Start? && a.p != q
    requires Live(s, q) && FileInv(c, s, q) && TimeInv(c, s, s.procs[q])
    ensures PairInv(Apply(c, s, a), a.p, q)
  {
  }

  lemma PutStepPair(c: Timing, s: State, a: Action, p: LockId)
    requires Enabled(c, s, a) && a.Put? && a.p != p && p in s.procs
    requires s.procs[p].listAt <= s.now
             && (s.procs[p].phase.Verifying? || s.procs[p].phase.Held? ==> s.procs[p].verifyAt <= s.now)
    requires a.p !in s.procs[p].listed && a.p !in s.procs[p].verified
    ensures PairInv(Apply(c, s, a), p, a.p)
  {
  }

  // After its put a process's stamp stays what it was.
  lemma StampStays(c: Timing, s: State, a: Action, q: LockId)
    requires Enabled(c, s, a) && Mover(a) == Some(q) && !a.Start? && !a.Put? && q in s.procs
    ensures var s' := Apply(c, s, a);
            && q in s'.procs && s'.procs[q].putAt == s.procs[q].putAt
            && s'.procs[q].kind == s.procs[q].kind && s'.procs[q].info == s.procs[q].info
  {
  }

  lemma SameStampPair(s: State, s': State, p: LockId, q: LockId)
    requires p in s.procs && q in s.procs && PairInv(s, p, q) && p in s'.procs && q in s'.procs
             && s'.procs[p] == s.procs[p]
    requires s'.procs[q].putAt == s.procs[q].putAt && s'.procs[q].kind == s.procs[q].kind
             && s'.procs[q].info == s.procs[q].info
    ensures PairInv(s', p, q)
  {
  }

  // The writer moves: a file put after p's verify listing is put no earlier.
  lemma WriterStepPair(c: Timing, s: State, a: Action, p: LockId, q: LockId)
    requires Enabled(c, s, a) && Mover(a) == Some(q) && !a.Start? && p != q && IdsInv(s)
    requires p in s.procs && Timed(s.procs[p].phase) && TimeInv(c, s, s.procs[p])
    requires q in s.procs && Live(Apply(c, s, a), q) && (Live(s, q) ==> PairInv(s, p, q))
    ensures p in Apply(c, s, a).procs && PairInv(Apply(c, s, a), p, q)
  {
    assert a.Put? ==> q !in s.procs[p].listed && q !in s.procs[p].verified;
    hide Apply, PairInv, IdsInv;
    StepFrame(c, s, a);
    WasLive(c, s, a, q);
    if a.Put? {
      PutStepPair(c, s, a, p);
    } else {
      StampStays(c, s, a, q);
      SameStampPair(s, Apply(c, s, a), p, q);
    }
  }

  // The reader moves: a live file it reads is active, so it is taken into account.
  lemma ReadStepPair(c: Timing, s: State, a: Action, q: LockId)
    requires Enabled(c, s, a) && a.Read? && a.p != q && Live(s, q) && FileInv(c, s, q) && PairInv(s, a.p, q)
    requires Timed(Apply(c, s, a).procs[a.p].phase)
    requires a.q == q ==> ActiveFile(s, q, s.procs[a.p].clock)
    ensures PairInv(Apply(c, s, a), a.p, q)
  {
  }

  lemma RecheckStepPair(c: Timing, s: State, a: Action, q: LockId)
    requires Enabled(c, s, a) && a.Recheck? && a.p != q && Live(s, q) && FileInv(c, s, q) && PairInv(s, a.p, q)
    requires FileInv(c, s, a.p) && Timed(Apply(c, s, a).procs[a.p].phase)
    requires a.q == q ==> ActiveFile(s, q, s.procs[a.p].clock)
    ensures PairInv(Apply(c, s, a), a.p, q)
  {
  }

  lemma RelistStepPair(c: Timing, s: State, a: Action, q: LockId)
    requires Enabled(c, s, a) && a.Relist? && a.p != q && Live(s, q) && FileInv(c, s, q) && PairInv(s, a.p, q)
    ensures PairInv(Apply(c, s, a), a.p, q)
  {
  }

  lemma QuietStepPair(c: Timing, s: State, a: Action, q: LockId)
    requires Enabled(c, s, a) && (a.Put? || a.Acquire? || a.Stamp? || a.Beat?) && a.p != q && Live(s, q)
             && PairInv(s, a.p, q)
    ensures PairInv(Apply(c, s, a), a.p, q)
  {
  }

  lemma ReaderStepPair(c: Timing, s: State, a: Action, p: LockId, q: LockId)
    requires c.Valid() && Enabled(c, s, a) && Mover(a) == Some(p) && !a.Start? && p != q
    requires Inv(c, s) && Live(s, q) && FileInv(c, s, q) && PairInv(s, p, q)
    requires p in s.procs && TimeInv(c, s, s.procs[p])
    requires p in Apply(c, s, a).procs && Timed(Apply(c, s, a).procs[p].phase)
    ensures PairInv(Apply(c, s, a), p, q)
  {
    var x := s.procs[p];
    assert a.Read? ==> c.Reading(x.clock - x.listAt) && x.listAt <= s.now;
    assert a.Recheck? ==> c.Reading(x.clock - x.verifyAt) && x.verifyAt <= s.now && FileInv(c, s, p);
    hide Apply, PairInv, FileInv, TimeInv, IdsInv;
    if a.Read? {
      LiveFileIsActive(c, s, q, x.listAt, x.clock - x.listAt);
      ReadStepPair(c, s, a, q);
    } else if a.Recheck? {
      LiveFileIsActive(c, s, q, x.verifyAt, x.clock - x.verifyAt);
      RecheckStepPair(c, s, a, q);
    } else if a.Relist? {
      RelistStepPair(c, s, a, q);
    } else if a.Put? || a.Acquire? || a.Stamp? || a.Beat? {
      QuietStepPair(c, s, a, q);
    } else {
      LeavingStep(c, s, a);
    }
  }

  // ---------------------------------------------------------------- theorems

  // No two conflicting locks are held at once.
  ghost predicate Exclusion(s: State) {
    forall p, q :: Holds(s, p) && Holds(s, q) && p != q ==> !Conflicts(s.procs[p].kind, s.procs[q].kind)
  }

  lemma {:induction false} RunInv(c: Timing, s: State, run: seq<Action>)
    requires c.Valid() && Inv(c, s) && IsRun(c, s, run)
    ensures Inv(c, After(c, s, run))
    decreases |run|
  {
    if run == [] {
    } else {
      StepInv(c, s, run[0]);
      RunInv(c, Apply(c, s, run[0]), run[1..]);
    }
  }

  lemma InvExcludes(c: Timing, s: State)
    requires c.Valid() && c.putDelay < SETTLE && Inv(c, s)
    ensures Exclusion(s)
  {
    forall p, q | Holds(s, p) && Holds(s, q) && p != q
      ensures !Conflicts(s.procs[p].kind, s.procs[q].kind)
    {
      assert PairInv(s, p, q) && PairInv(s, q, p);
      assert TimeInv(c, s, s.procs[p]) && TimeInv(c, s, s.procs[q]);
    }
  }

  // In every run of any number of processes, whatever creation times they write,
  // two conflicting locks are never held at once, provided every put lands
  // within the settle time of its process's first listing.
  lemma MutualExclusion(c: Timing, s: State, run: seq<Action>)
    requires c.Valid() && c.putDelay < SETTLE
    requires Init(s) && IsRun(c, s, run)
    ensures Exclusion(After(c, s, run))
  {
    InitInv(c, s);
    RunInv(c, s, run);
    InvExcludes(c, After(c, s, run));
  }

  // A process that beats in time is listed as active by every reader and is
  // never picked for removal; a refused attempt has left no file behind.
  lemma HoldersStayListed(c: Timing, s: State, run: seq<Action>, p: LockId, t: int, error: int)
    requires c.Valid() && Init(s) && IsRun(c, s, run)
    requires var e := After(c, s, run); p in e.procs && t <= e.now && c.Reading(error)
    ensures var e := After(c, s, run);
            && (Live(e, p) ==>
                  && ActiveFile(e, p, t + error) && e.files[p].info.lockId == p
                  && e.files[p].info.lockType == e.procs[p].kind
                  && p !in e.doomed && !Enabled(c, e, FindStale(p, t, error)))
            && (Refused(e.procs[p].phase) ==> p !in e.files)
  {
    InitInv(c, s);
    RunInv(c, s, run);
    var e := After(c, s, run);
    if Live(e, p) {
      assert FileInv(c, e, p);
      LiveFileIsActive(c, e, p, t, error);
    }
  }
}
