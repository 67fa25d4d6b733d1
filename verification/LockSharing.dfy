// Shared locks coexist, nobody is refused without a conflict, and an unlock is a
// run of the lock protocol.
module LockSharing {
  import opened Wrappers
  import opened LockRules
  import opened LockProtocol
  import Code = LockCode
  import Limits = LockLimits

  // ------------------------------------------------ refused for a conflict only

  // A lock file that has beaten within 15 minutes of `clock`, or was created
  // within two hours of it, and that is exclusive or meets an exclusive request.
  predicate Stands(file: LockFile, kind: LockType, clock: int) {
    && file.Readable? && Code.Beating(file.info, clock)
    && (kind == Exclusive || file.info.lockType == Exclusive)
  }

  // Reading a file blocks exactly if it stands in the way.
  lemma BlockedExactly(c: Timing, s: State, a: Action)
    requires Enabled(c, s, a) && a.Read?
    ensures var x := s.procs[a.p];
            Apply(c, s, a).procs[a.p].phase
            == if a.q in s.files && Stands(s.files[a.q], x.kind, x.clock) then Closed(Blocked)
               else Reading(x.phase.todo - {a.q})
  {
  }

  // And at the second listing exactly if, besides, it is older.
  lemma YieldsExactly(c: Timing, s: State, a: Action)
    requires Enabled(c, s, a) && a.Recheck?
    ensures var x := s.procs[a.p];
            Apply(c, s, a).procs[a.p].phase
            == if && a.q in s.files && Stands(s.files[a.q], x.info.lockType, x.clock)
                  && s.files[a.q].info.lockId != x.info.lockId && s.files[a.q].info.createdAt <= x.info.createdAt
                  && (s.files[a.q].info.createdAt == x.info.createdAt ==> s.files[a.q].info.lockId < x.info.lockId)
               then Yielding else Verifying(x.phase.rest - {a.q})
  {
  }

  // ---------------------------------------------------------- shared locks only

  predicate SharedFile(file: LockFile) {
    file.Readable? ==> file.info.lockType == Shared
  }

  predicate SharedAction(a: Action) {
    && (a.Start? ==> a.kind == Shared)
    && (a.Foreign? && a.file.Some? ==> SharedFile(a.file.value))
  }

  // Everybody is shared, and nobody has been refused.
  ghost predicate AllShared(s: State) {
    && (forall q :: q in s.files ==> SharedFile(s.files[q]))
    && (forall p :: p in s.procs ==>
          && s.procs[p].kind == Shared && s.procs[p].info.lockType == Shared
          && !Refused(s.procs[p].phase) && !s.procs[p].phase.Yielding?)
  }

  lemma StepShared(c: Timing, s: State, a: Action)
    requires AllShared(s) && SharedAction(a) && Enabled(c, s, a)
    ensures AllShared(Apply(c, s, a))
  {
    hide IsActive;
  }

  lemma {:induction false} RunShared(c: Timing, s: State, run: seq<Action>)
    requires AllShared(s) && IsRun(c, s, run) && forall i :: 0 <= i < |run| ==> SharedAction(run[i])
    ensures AllShared(After(c, s, run))
    decreases |run|
  {
    hide Enabled, Apply, AllShared;
    if run == [] {
    } else {
      StepShared(c, s, run[0]);
      RunShared(c, Apply(c, s, run[0]), run[1..]);
    }
  }

  // Among shared locks nobody is ever blocked or gives way: in no run, under any
  // timing, whatever shared files others leave.
  lemma SharedNeverRefused(c: Timing, s: State, run: seq<Action>, p: LockId)
    requires Init(s) && IsRun(c, s, run) && p in After(c, s, run).procs
    requires forall q :: q in s.files && s.files[q].Readable? ==> s.files[q].info.lockType == Shared
    requires forall i :: 0 <= i < |run| && run[i].Start? ==> run[i].kind == Shared
    requires forall i :: 0 <= i < |run| && run[i].Foreign? && run[i].file.Some? && run[i].file.value.Readable? ==>
               run[i].file.value.info.lockType == Shared
    ensures var phase := After(c, s, run).procs[p].phase;
            phase != Closed(Blocked) && phase != Yielding && phase != Closed(Yielded)
  {
    hide Enabled, Apply, IsRun, After;
    RunShared(c, s, run);
  }

  // ------------------------------------------------------- two of them at once

  const ONE: LockId := 1
  const TWO: LockId := 2

  predicate BothPut(s: State) {
    && s.procs.Keys == {ONE, TWO} && s.files.Keys == {ONE, TWO}
    && s.procs[ONE].kind == s.procs[TWO].kind == Shared
    && s.procs[ONE].info == LockInfo(ONE, Shared, 0, Some(0)) && s.files[ONE] == Readable(s.procs[ONE].info)
    && s.procs[TWO].info == LockInfo(TWO, Shared, 0, Some(0)) && s.files[TWO] == Readable(s.procs[TWO].info)
  }

  // Two shared locks are held at once in some run of any possible timing.
  lemma TwoShared(c: Timing) returns (run: seq<Action>)
    requires c.Possible()
    ensures IsRun(c, Limits.EMPTY, run) && Limits.OneReading(run)
    ensures var e := After(c, Limits.EMPTY, run);
            && Holds(e, ONE) && e.procs[ONE].kind == Shared
            && Holds(e, TWO) && e.procs[TWO].kind == Shared
  {
    var s1 := Apply(c, Limits.EMPTY, Start(ONE, Shared, 0));
    var s2 := Apply(c, s1, Start(TWO, Shared, 0));
    run := BothPutAndWait(c, s2);
    run := Limits.First(c, s1, Start(TWO, Shared, 0), run);
    run := Limits.First(c, Limits.EMPTY, Start(ONE, Shared, 0), run);
  }

  lemma BothPutAndWait(c: Timing, s: State) returns (run: seq<Action>)
    requires c.Possible() && s.now == 0 && s.files == map[] && s.procs.Keys == {ONE, TWO}
    requires forall p :: p in s.procs ==>
               s.procs[p].kind == Shared && s.procs[p].phase == Reading({}) && s.procs[p].listAt == 0
    ensures IsRun(c, s, run) && Limits.OneReading(run)
    ensures var e := After(c, s, run);
            && Holds(e, ONE) && e.procs[ONE].kind == Shared
            && Holds(e, TWO) && e.procs[TWO].kind == Shared
  {
    var s3 := Apply(c, s, Put(ONE, 0, 0, 0));
    var s4 := Apply(c, s3, Put(TWO, 0, 0, 0));
    var s5 := Apply(c, s4, Tick(SETTLE));
    run := FirstVerifies(c, s5);
    run := Limits.First(c, s4, Tick(SETTLE), run);
    run := Limits.First(c, s3, Put(TWO, 0, 0, 0), run);
    run := Limits.First(c, s, Put(ONE, 0, 0, 0), run);
  }

  lemma FirstVerifies(c: Timing, s: State) returns (run: seq<Action>)
    requires BothPut(s) && s.now == SETTLE
    requires s.procs[ONE].phase == s.procs[TWO].phase == Settling && s.procs[ONE].putAt == s.procs[TWO].putAt == 0
    ensures IsRun(c, s, run) && Limits.OneReading(run)
    ensures var e := After(c, s, run);
            && Holds(e, ONE) && e.procs[ONE].kind == Shared
            && Holds(e, TWO) && e.procs[TWO].kind == Shared
  {
    var s1 := Apply(c, s, Relist(ONE, 0));
    assert s1.procs[ONE].phase.rest == {ONE, TWO};
    var s2 := Apply(c, s1, Recheck(ONE, TWO));
    assert s2.procs[ONE].phase.rest == {ONE};
    var s3 := Apply(c, s2, Recheck(ONE, ONE));
    assert s3.procs[ONE].phase.rest == {};
    var s4 := Apply(c, s3, Acquire(ONE));
    run := SecondVerifies(c, s4);
    run := Limits.First(c, s3, Acquire(ONE), run);
    run := Limits.First(c, s2, Recheck(ONE, ONE), run);
    run := Limits.First(c, s1, Recheck(ONE, TWO), run);
    run := Limits.First(c, s, Relist(ONE, 0), run);
  }

  // The other one reads an older shared lock, and does not yield to it.
  lemma SecondVerifies(c: Timing, s: State) returns (run: seq<Action>)
    requires BothPut(s) && s.now == SETTLE && Holds(s, ONE)
    requires s.procs[TWO].phase == Settling && s.procs[TWO].putAt == 0
    ensures IsRun(c, s, run) && Limits.OneReading(run)
    ensures var e := After(c, s, run);
            && Holds(e, ONE) && e.procs[ONE].kind == Shared
            && Holds(e, TWO) && e.procs[TWO].kind == Shared
  {
    var s1 := Apply(c, s, Relist(TWO, 0));
    assert s1.procs[TWO].phase.rest == {ONE, TWO};
    var s2 := Apply(c, s1, Recheck(TWO, ONE));
    assert s2.procs[TWO].phase.rest == {TWO};
    var s3 := Apply(c, s2, Recheck(TWO, TWO));
    assert s3.procs[TWO].phase.rest == {};
    run := Limits.First(c, s3, Acquire(TWO), []);
    run := Limits.First(c, s2, Recheck(TWO, TWO), run);
    run := Limits.First(c, s1, Recheck(TWO, ONE), run);
    run := Limits.First(c, s, Relist(TWO, 0), run);
  }

  // --------------------------------------------------- an unlock as a run

  // Finding each of these files stale and deleting it.
  function StaleRun(gone: seq<LockId>, t: int, error: int): seq<Action> {
    if gone == [] then [] else [FindStale(gone[0], t, error), DeleteStale(gone[0])] + StaleRun(gone[1..], t, error)
  }

  lemma {:induction false} StaleRuns(c: Timing, s: State, gone: seq<LockId>, t: int, error: int)
    requires t <= s.now && c.Reading(error) && forall i, j :: 0 <= i < j < |gone| ==> gone[i] != gone[j]
    requires forall q :: q in gone ==> q in s.files && s.files[q].Readable? && !Code.Beating(s.files[q].info, t + error)
    ensures var run := StaleRun(gone, t, error);
            && IsRun(c, s, run) && After(c, s, run).files == s.files - (set q | q in gone)
            && After(c, s, run).procs == s.procs && After(c, s, run).now == s.now
    decreases |gone|
  {
    if gone == [] {
      assert s.files - {} == s.files;
    } else {
      hide Enabled, Apply, IsRun, After, Code.Beating;
      assert gone[0] in gone;
      OneGone(c, s, gone[0], t, error);
      var v := Apply(c, Apply(c, s, FindStale(gone[0], t, error)), DeleteStale(gone[0]));
      forall q | q in gone[1..] ensures q in v.files && v.files[q] == s.files[q] {
      }
      StaleRuns(c, v, gone[1..], t, error);
      TwoFirst(c, s, FindStale(gone[0], t, error), DeleteStale(gone[0]), StaleRun(gone[1..], t, error));
      assert s.files - {gone[0]} - (set q | q in gone[1..]) == s.files - (set q | q in gone);
    }
  }

  lemma OneGone(c: Timing, s: State, q: LockId, t: int, error: int)
    requires t <= s.now && c.Reading(error) && q in s.files && s.files[q].Readable?
    requires !Code.Beating(s.files[q].info, t + error)
    ensures Enabled(c, s, FindStale(q, t, error))
    ensures var u := Apply(c, s, FindStale(q, t, error));
            && Enabled(c, u, DeleteStale(q))
            && var v := Apply(c, u, DeleteStale(q));
               v.files == s.files - {q} && v.procs == s.procs && v.now == s.now
  {
  }

  lemma TwoFirst(c: Timing, s: State, a: Action, b: Action, rest: seq<Action>)
    requires Enabled(c, s, a) && Enabled(c, Apply(c, s, a), b) && IsRun(c, Apply(c, Apply(c, s, a), b), rest)
    ensures IsRun(c, s, [a, b] + rest)
    ensures After(c, s, [a, b] + rest) == After(c, Apply(c, Apply(c, s, a), b), rest)
  {
    hide Enabled, Apply;
    assert ([a, b] + rest)[1..] == [b] + rest && ([b] + rest)[1..] == rest;
  }

  // What an unforced unlock does to the lock files is a run of the protocol, in
  // which each deleted file was found stale on the unlocking clock.
  method UnlockRefines(backend: Code.LockBackend, c: Timing, ghost s: State, ghost t: int, ghost error: int, now: int)
    returns (removed: nat, ghost run: seq<Action>)
    requires backend.files == s.files && t <= s.now && c.Reading(error) && now == t + error
    modifies backend
    ensures IsRun(c, s, run) && backend.files == After(c, s, run).files && After(c, s, run).procs == s.procs
    ensures forall i :: 0 <= i < |run| ==> run[i].FindStale? || run[i].DeleteStale?
    ensures forall q :: q in s.files && q !in backend.files ==> Enabled(c, s, FindStale(q, t, error))
    ensures removed == |s.files| - |backend.files|
  {
    hide *;
    removed := backend.UnlockAll(now, false);
    run := UnlockRuns(c, s, t, error, backend.files);
  }

  lemma UnlockRuns(c: Timing, s: State, t: int, error: int, left: map<LockId, LockFile>) returns (run: seq<Action>)
    requires t <= s.now && c.Reading(error) && Code.Unlocked(s.files, left, t + error, false)
    ensures IsRun(c, s, run) && left == After(c, s, run).files && After(c, s, run).procs == s.procs
    ensures forall i :: 0 <= i < |run| ==> run[i].FindStale? || run[i].DeleteStale?
    ensures forall q :: q in s.files && q !in left ==> Enabled(c, s, FindStale(q, t, error))
  {
    hide Enabled, Apply, IsRun, After, Code.Unlocked, Code.Beating, StaleRun;
    var gone := Elements(s.files.Keys - left.Keys);
    GoneWereStale(s.files, left, t + error, gone);
    forall q | q in gone ensures Enabled(c, s, FindStale(q, t, error)) {
      OneGone(c, s, q, t, error);
    }
    StaleRuns(c, s, gone, t, error);
    run := StaleRun(gone, t, error);
    OnlyStale(gone, t, error);
  }

  lemma GoneWereStale(before: map<LockId, LockFile>, left: map<LockId, LockFile>, now: int, gone: seq<LockId>)
    requires Code.Unlocked(before, left, now, false) && forall q :: q in gone <==> q in before.Keys - left.Keys
    ensures forall q :: q in gone ==> q in before && before[q].Readable? && !Code.Beating(before[q].info, now)
    ensures before - (set q | q in gone) == left
    ensures forall q :: q in before && q !in left ==> q in gone
  {
    hide Code.Beating, Code.ActiveInfos;
  }

  ghost function Elements(ids: set<LockId>): (list: seq<LockId>)
    ensures forall q :: q in list <==> q in ids
    ensures forall i, j :: 0 <= i < j < |list| ==> list[i] != list[j]
    decreases |ids|
  {
    if ids == {} then [] else var q :| q in ids; [q] + Elements(ids - {q})
  }

  lemma {:induction false} OnlyStale(gone: seq<LockId>, t: int, error: int)
    ensures forall i :: 0 <= i < |StaleRun(gone, t, error)| ==>
              StaleRun(gone, t, error)[i].FindStale? || StaleRun(gone, t, error)[i].DeleteStale?
  {
    if gone == [] {
    } else {
      OnlyStale(gone[1..], t, error);
    }
  }
}
