// How far mutual exclusion reaches: it holds in every run exactly when puts are
// faster than the settle time and live heartbeats are fresh on every clock.
module LockLimits {
  import opened Wrappers
  import opened LockRules
  import opened LockProtocol

  ghost predicate SafeInEveryRun(c: Timing) {
    forall s, run :: Init(s) && IsRun(c, s, run) ==> Exclusion(After(c, s, run))
  }

  // Runs in which a lock's creation time and first heartbeat are one reading.
  predicate OneReading(run: seq<Action>) {
    forall i :: 0 <= i < |run| && run[i].Put? ==> run[i].created == run[i].t + run[i].error
  }

  ghost predicate SafeOnOneReading(c: Timing) {
    forall s, run :: Init(s) && IsRun(c, s, run) && OneReading(run) ==> Exclusion(After(c, s, run))
  }

  // A step taken before a run makes a run.
  lemma First(c: Timing, s: State, a: Action, rest: seq<Action>) returns (run: seq<Action>)
    requires Enabled(c, s, a) && IsRun(c, Apply(c, s, a), rest)
    ensures IsRun(c, s, run) && After(c, s, run) == After(c, Apply(c, s, a), rest)
    ensures OneReading(rest) && (a.Put? ==> a.created == a.t + a.error) ==> OneReading(run)
  {
    hide Enabled, Apply;
    run := [a] + rest;
    assert run[1..] == rest;
  }

  const SLOW: LockId := 1
  const QUICK: LockId := 2
  const EMPTY := State(0, map[], map[], {}, {})

  predicate BothHold(s: State, slow: LockType, quick: LockType) {
    && Holds(s, SLOW) && s.procs[SLOW].kind == slow
    && Holds(s, QUICK) && s.procs[QUICK].kind == quick
  }

  // Only its own file is left for SLOW to check.
  lemma VerifyAlone(c: Timing, s: State, slow: LockType, quick: LockType) returns (run: seq<Action>)
    requires SLOW in s.procs && SLOW in s.files
    requires s.procs[SLOW].phase == Verifying({SLOW}) && s.procs[SLOW].kind == slow
    requires s.files[SLOW] == Readable(s.procs[SLOW].info) && s.procs[SLOW].info.lockId == SLOW
    requires Holds(s, QUICK) && s.procs[QUICK].kind == quick
    ensures IsRun(c, s, run) && OneReading(run) && BothHold(After(c, s, run), slow, quick)
  {
    var s1 := Apply(c, s, Recheck(SLOW, SLOW));
    assert s1.procs[SLOW].phase == Verifying({});
    run := First(c, s1, Acquire(SLOW), []);
    run := First(c, s, Recheck(SLOW, SLOW), run);
  }

  // SLOW verifies while QUICK holds a lock that is not older.
  lemma VerifyUndisturbed(c: Timing, s: State, slow: LockType, quick: LockType) returns (run: seq<Action>)
    requires SLOW in s.procs && SLOW in s.files && QUICK in s.files
    requires s.procs[SLOW].phase == Verifying({SLOW, QUICK}) && s.procs[SLOW].kind == slow
    requires s.files[SLOW] == Readable(s.procs[SLOW].info) && s.procs[SLOW].info.lockId == SLOW
    requires s.files[QUICK].Readable? && !Older(s.files[QUICK].info, s.procs[SLOW].info)
    requires Holds(s, QUICK) && s.procs[QUICK].kind == quick
    ensures IsRun(c, s, run) && OneReading(run) && BothHold(After(c, s, run), slow, quick)
  {
    var s1 := Apply(c, s, Recheck(SLOW, QUICK));
    assert s1.procs[SLOW].phase.rest == {SLOW};
    run := VerifyAlone(c, s1, slow, quick);
    run := First(c, s, Recheck(SLOW, QUICK), run);
  }

  // ------------------------------------------------------------- a slow put

  // Both list the empty repository; QUICK puts, waits, verifies and holds; only
  // then does SLOW put its file, stamped as early as QUICK's and with the
  // smaller id, so QUICK's lock does not make it yield.
  lemma SlowPut(c: Timing, slow: LockType, quick: LockType) returns (run: seq<Action>)
    requires c.Possible() && SETTLE <= c.putDelay
    ensures IsRun(c, EMPTY, run) && OneReading(run) && BothHold(After(c, EMPTY, run), slow, quick)
  {
    var s1 := Apply(c, EMPTY, Start(SLOW, slow, 0));
    var s2 := Apply(c, s1, Start(QUICK, quick, 0));
    var s3 := Apply(c, s2, Put(QUICK, 0, 0, 0));
    var tail := QuickAcquires(c, s3, slow, quick);
    run := tail;
    run := First(c, s2, Put(QUICK, 0, 0, 0), run);
    run := First(c, s1, Start(QUICK, quick, 0), run);
    run := First(c, EMPTY, Start(SLOW, slow, 0), run);
  }

  ghost predicate SlowReading(c: Timing, s: State, slow: LockType, quick: LockType) {
    && s.procs.Keys == {SLOW, QUICK} && s.files.Keys == {QUICK}
    && s.files[QUICK] == Readable(LockInfo(QUICK, quick, 0, Some(0)))
    && s.procs[SLOW].phase == Reading({}) && s.procs[SLOW].kind == slow
    && s.procs[SLOW].listAt == 0 && s.procs[SLOW].due == c.putDelay
    && s.procs[QUICK].kind == quick
  }

  lemma QuickAcquires(c: Timing, s3: State, slow: LockType, quick: LockType) returns (run: seq<Action>)
    requires c.Possible() && SETTLE <= c.putDelay
    requires SlowReading(c, s3, slow, quick) && s3.now == 0
    requires s3.procs[QUICK].phase == Settling && s3.procs[QUICK].due == c.acquireBound && s3.procs[QUICK].putAt == 0
    requires s3.procs[QUICK].info == s3.files[QUICK].info
    ensures IsRun(c, s3, run) && OneReading(run) && BothHold(After(c, s3, run), slow, quick)
  {
    var s4 := Apply(c, s3, Tick(500));
    var s5 := Apply(c, s4, Relist(QUICK, 0));
    var tail := QuickVerifies(c, s5, slow, quick);
    run := First(c, s4, Relist(QUICK, 0), tail);
    run := First(c, s3, Tick(500), run);
  }

  lemma QuickVerifies(c: Timing, s5: State, slow: LockType, quick: LockType) returns (run: seq<Action>)
    requires c.Possible() && SETTLE <= c.putDelay
    requires SlowReading(c, s5, slow, quick) && s5.now == 500
    requires s5.procs[QUICK].phase == Verifying({QUICK}) && s5.procs[QUICK].due == c.acquireBound
    requires s5.procs[QUICK].info == s5.files[QUICK].info
    ensures IsRun(c, s5, run) && OneReading(run) && BothHold(After(c, s5, run), slow, quick)
  {
    var s6 := Apply(c, s5, Recheck(QUICK, QUICK));
    assert s6.procs[QUICK].phase == Verifying({});
    var s7 := Apply(c, s6, Acquire(QUICK));
    var tail := SlowFollows(c, s7, slow, quick);
    run := First(c, s6, Acquire(QUICK), tail);
    run := First(c, s5, Recheck(QUICK, QUICK), run);
  }

  lemma SlowFollows(c: Timing, s7: State, slow: LockType, quick: LockType) returns (run: seq<Action>)
    requires c.Possible() && SETTLE <= c.putDelay
    requires SlowReading(c, s7, slow, quick) && s7.now == 500
    requires Holds(s7, QUICK) && s7.procs[QUICK].due >= 1000
    ensures IsRun(c, s7, run) && OneReading(run) && BothHold(After(c, s7, run), slow, quick)
  {
    var s8 := Apply(c, s7, Put(SLOW, 0, 0, 0));
    var s9 := Apply(c, s8, Tick(500));
    var s10 := Apply(c, s9, Relist(SLOW, 0));
    assert s10.procs[SLOW].phase.rest == {SLOW, QUICK};
    var tail := VerifyUndisturbed(c, s10, slow, quick);
    run := tail;
    run := First(c, s9, Relist(SLOW, 0), run);
    run := First(c, s8, Tick(500), run);
    run := First(c, s7, Put(SLOW, 0, 0, 0), run);
  }

  // --------------------------------------------------------- a stale holder

  // How old a live lock's stored heartbeat can get.
  function Latest(c: Timing): nat {
    c.acquireBound + BEAT + c.writeLatency
  }

  // QUICK's lock as it put it, creation time and heartbeat from one slow clock.
  function Behind(c: Timing, quick: LockType): LockInfo {
    LockInfo(QUICK, quick, -(c.skew as int), Some(-(c.skew as int)))
  }

  // QUICK holds a lock, and its next heartbeat is still being written.
  ghost predicate Overdue(c: Timing, s: State, quick: LockType) {
    && s.now == Latest(c) && s.used == {QUICK} && s.procs.Keys == {QUICK} && s.doomed == {}
    && s.files == map[QUICK := Readable(Behind(c, quick))]
    && Holds(s, QUICK) && s.procs[QUICK].kind == quick && s.procs[QUICK].due == s.now
    && s.procs[QUICK].pending == Some((c.acquireBound + BEAT, c.acquireBound + BEAT))
    && s.procs[QUICK].info == Behind(c, quick)
  }

  // On clocks that run ahead, an unlock finds the heartbeat dead and a newcomer
  // does not see itself blocked; before the newcomer lists again the unlock
  // deletes the file, although its holder has beaten in time.
  lemma StaleHolder(c: Timing, slow: LockType, quick: LockType) returns (run: seq<Action>)
    requires c.Possible() && !c.Fresh()
    ensures IsRun(c, EMPTY, run) && OneReading(run) && BothHold(After(c, EMPTY, run), slow, quick)
  {
    var skew: int := c.skew;
    var s1 := Apply(c, EMPTY, Start(QUICK, quick, 0));
    var s2 := Apply(c, s1, Put(QUICK, 0, -skew, -skew));
    var tail := HolderVerifies(c, s2, slow, quick);
    run := First(c, s1, Put(QUICK, 0, -skew, -skew), tail);
    run := First(c, EMPTY, Start(QUICK, quick, 0), run);
  }

  // QUICK is alone with its file.
  ghost predicate Alone(c: Timing, s: State, quick: LockType) {
    && s.used == {QUICK} && s.procs.Keys == {QUICK} && s.doomed == {}
    && s.files == map[QUICK := Readable(Behind(c, quick))]
    && s.procs[QUICK].kind == quick && s.procs[QUICK].pending == None && s.procs[QUICK].info == Behind(c, quick)
  }

  lemma HolderVerifies(c: Timing, s2: State, slow: LockType, quick: LockType) returns (run: seq<Action>)
    requires c.Possible() && !c.Fresh() && Alone(c, s2, quick) && s2.now == 0
    requires s2.procs[QUICK].phase == Settling && s2.procs[QUICK].putAt == 0 && s2.procs[QUICK].due == c.acquireBound
    ensures IsRun(c, s2, run) && OneReading(run) && BothHold(After(c, s2, run), slow, quick)
  {
    var s3 := Apply(c, s2, Tick(500));
    var s4 := Apply(c, s3, Relist(QUICK, 0));
    var s5 := Apply(c, s4, Recheck(QUICK, QUICK));
    assert s5.procs[QUICK].phase == Verifying({});
    var tail := LastMoment(c, s5, slow, quick);
    run := First(c, s4, Recheck(QUICK, QUICK), tail);
    run := First(c, s3, Relist(QUICK, 0), run);
    run := First(c, s2, Tick(500), run);
  }

  lemma LastMoment(c: Timing, s5: State, slow: LockType, quick: LockType) returns (run: seq<Action>)
    requires c.Possible() && !c.Fresh() && Alone(c, s5, quick) && s5.now == 500
    requires s5.procs[QUICK].phase == Verifying({}) && s5.procs[QUICK].due == c.acquireBound
    ensures IsRun(c, s5, run) && OneReading(run) && BothHold(After(c, s5, run), slow, quick)
  {
    var s6 := Apply(c, s5, Tick(c.acquireBound - 500));
    var s7 := Apply(c, s6, Acquire(QUICK));
    var tail := HeartbeatLate(c, s7, slow, quick);
    run := First(c, s6, Acquire(QUICK), tail);
    run := First(c, s5, Tick(c.acquireBound - 500), run);
  }

  lemma HeartbeatLate(c: Timing, s7: State, slow: LockType, quick: LockType) returns (run: seq<Action>)
    requires c.Possible() && !c.Fresh() && Alone(c, s7, quick) && s7.now == c.acquireBound
    requires Holds(s7, QUICK) && s7.procs[QUICK].due == c.acquireBound + BEAT
    ensures IsRun(c, s7, run) && OneReading(run) && BothHold(After(c, s7, run), slow, quick)
  {
    var s8 := Apply(c, s7, Tick(BEAT));
    var s9 := Apply(c, s8, Stamp(QUICK, 0));
    var s10 := Apply(c, s9, Tick(c.writeLatency));
    var tail := FoundStale(c, s10, slow, quick);
    run := First(c, s9, Tick(c.writeLatency), tail);
    run := First(c, s8, Stamp(QUICK, 0), run);
    run := First(c, s7, Tick(BEAT), run);
  }

  lemma FoundStale(c: Timing, s10: State, slow: LockType, quick: LockType) returns (run: seq<Action>)
    requires c.Possible() && !c.Fresh() && Overdue(c, s10, quick)
    ensures IsRun(c, s10, run) && OneReading(run) && BothHold(After(c, s10, run), slow, quick)
  {
    assert !IsActive(Behind(c, quick), s10.now + c.skew);
    var s11 := Apply(c, s10, FindStale(QUICK, s10.now, c.skew));
    var s12 := Apply(c, s11, Start(SLOW, slow, c.skew));
    assert s12.procs[SLOW].phase.todo == {QUICK};
    assert !ActiveFile(s12, QUICK, s12.procs[SLOW].clock);
    var s13 := Apply(c, s12, Read(SLOW, QUICK));
    assert s13.procs[SLOW].phase == Reading({});
    var tail := NewcomerPuts(c, s13, slow, quick);
    run := First(c, s12, Read(SLOW, QUICK), tail);
    run := First(c, s11, Start(SLOW, slow, c.skew), run);
    run := First(c, s10, FindStale(QUICK, s10.now, c.skew), run);
  }

  lemma NewcomerPuts(c: Timing, s13: State, slow: LockType, quick: LockType) returns (run: seq<Action>)
    requires c.Possible() && s13.procs.Keys == {SLOW, QUICK} && s13.files.Keys == {QUICK} && s13.doomed == {QUICK}
    requires s13.procs[SLOW].phase == Reading({}) && s13.procs[SLOW].kind == slow && s13.procs[SLOW].listAt == s13.now
    requires Holds(s13, QUICK) && s13.procs[QUICK].kind == quick && s13.procs[QUICK].pending.Some?
    ensures IsRun(c, s13, run) && OneReading(run) && BothHold(After(c, s13, run), slow, quick)
  {
    var s14 := Apply(c, s13, Put(SLOW, s13.now, 0, s13.now));
    var tail := BeatsInTime(c, s14, slow, quick);
    run := First(c, s13, Put(SLOW, s13.now, 0, s13.now), tail);
  }

  // QUICK beats again in time, and then the unlock deletes its file.
  lemma BeatsInTime(c: Timing, s14: State, slow: LockType, quick: LockType) returns (run: seq<Action>)
    requires c.Possible() && s14.procs.Keys == {SLOW, QUICK} && s14.files.Keys == {SLOW, QUICK} && s14.doomed == {QUICK}
    requires s14.procs[SLOW].phase == Settling && s14.procs[SLOW].kind == slow
    requires s14.procs[SLOW].putAt == s14.now && s14.procs[SLOW].due == s14.now + c.acquireBound
    requires s14.files[SLOW] == Readable(s14.procs[SLOW].info) && s14.procs[SLOW].info.lockId == SLOW
    requires Holds(s14, QUICK) && s14.procs[QUICK].kind == quick && s14.procs[QUICK].pending.Some?
    ensures IsRun(c, s14, run) && OneReading(run) && BothHold(After(c, s14, run), slow, quick)
  {
    var s15 := Apply(c, s14, Beat(QUICK));
    var s16 := Apply(c, s15, Stamp(QUICK, 0));
    var s17 := Apply(c, s16, Beat(QUICK));
    var tail := FileDeleted(c, s17, slow, quick);
    run := First(c, s16, Beat(QUICK), tail);
    run := First(c, s15, Stamp(QUICK, 0), run);
    run := First(c, s14, Beat(QUICK), run);
  }

  lemma FileDeleted(c: Timing, s17: State, slow: LockType, quick: LockType) returns (run: seq<Action>)
    requires c.Possible() && s17.procs.Keys == {SLOW, QUICK} && s17.files.Keys == {SLOW, QUICK} && s17.doomed == {QUICK}
    requires s17.procs[SLOW].phase == Settling && s17.procs[SLOW].kind == slow
    requires s17.procs[SLOW].putAt == s17.now && s17.procs[SLOW].due == s17.now + c.acquireBound
    requires s17.files[SLOW] == Readable(s17.procs[SLOW].info) && s17.procs[SLOW].info.lockId == SLOW
    requires Holds(s17, QUICK) && s17.procs[QUICK].kind == quick && s17.procs[QUICK].due == s17.now + BEAT
    ensures IsRun(c, s17, run) && OneReading(run) && BothHold(After(c, s17, run), slow, quick)
  {
    var s18 := Apply(c, s17, DeleteStale(QUICK));
    var s19 := Apply(c, s18, Tick(500));
    var s20 := Apply(c, s19, Relist(SLOW, 0));
    assert s20.procs[SLOW].phase.rest == {SLOW};
    var tail := VerifyAlone(c, s20, slow, quick);
    run := First(c, s19, Relist(SLOW, 0), tail);
    run := First(c, s18, Tick(500), run);
    run := First(c, s17, DeleteStale(QUICK), run);
  }

  // ----------------------------------------------------------- the exact reach

  // Mutual exclusion holds in every run if and only if a put may not trail its
  // process's first listing by the settle time, and no clock can take the
  // heartbeat of a live lock for dead. The same is exact where each lock takes
  // its creation time and its first heartbeat from one reading.
  lemma ExclusionExactly(c: Timing)
    requires c.Possible()
    ensures SafeInEveryRun(c) <==>
              c.putDelay < 500 && c.acquireBound + 60_000 + c.writeLatency + 2 * c.skew < 15 * 60 * 1000
    ensures SafeOnOneReading(c) <==>
              c.putDelay < 500 && c.acquireBound + 60_000 + c.writeLatency + 2 * c.skew < 15 * 60 * 1000
  {
    hide IsRun, After, Exclusion, OneReading;
    if c.putDelay < SETTLE && c.Fresh() {
      forall s, run | Init(s) && IsRun(c, s, run) ensures Exclusion(After(c, s, run)) {
        MutualExclusion(c, s, run);
      }
    } else {
      var run := BothHeld(c, Exclusive, Exclusive);
      Together(After(c, EMPTY, run), Exclusive, Exclusive);
      assert Init(EMPTY) && IsRun(c, EMPTY, run) && OneReading(run);
    }
  }

  // Where either condition fails, two locks of any types come to be held.
  lemma BothHeld(c: Timing, slow: LockType, quick: LockType) returns (run: seq<Action>)
    requires c.Possible() && !(c.putDelay < SETTLE && c.Fresh())
    ensures IsRun(c, EMPTY, run) && OneReading(run) && BothHold(After(c, EMPTY, run), slow, quick)
  {
    hide IsRun, After, OneReading, BothHold;
    if c.putDelay < SETTLE {
      run := StaleHolder(c, slow, quick);
    } else {
      run := SlowPut(c, slow, quick);
    }
  }

  lemma Together(s: State, slow: LockType, quick: LockType)
    requires BothHold(s, slow, quick) && Conflicts(slow, quick)
    ensures !Exclusion(s)
  {
  }
}
