// Who comes out of a contention: from any moment on, a lock that is not younger
// than any it conflicts with, of those that are there and active and those that
// are put next, never gives way.
module LockContention {
  import opened Wrappers
  import opened LockRules
  import opened LockProtocol

  predicate HasPut(x: Proc) {
    x.info.lastHeartbeat.Some?
  }

  predicate GaveWay(s: State, p: LockId) {
    p in s.procs && (s.procs[p].phase.Yielding? || s.procs[p].phase == Closed(Yielded))
  }

  // Once a process has put its file it is deciding, has given way, has acquired
  // or has crashed.
  predicate Accounted(x: Proc) {
    && (HasFile(x.phase) || x.phase.Yielding? || x.phase == Closed(Yielded) || x.acquired ==> HasPut(x))
    && (HasPut(x) ==>
          HasFile(x.phase) || x.phase.Yielding? || x.phase == Closed(Yielded) || x.acquired
          || x.phase == Closed(Crashed))
    && (x.phase.Reading? ==> !HasPut(x) && !x.acquired)
    && (x.phase.Held? ==> x.acquired)
  }

  ghost predicate AllAccounted(s: State) {
    forall p :: p in s.procs ==> Accounted(s.procs[p])
  }

  ghost predicate Sound(c: Timing, s: State) {
    c.Valid() && Inv(c, s) && AllAccounted(s)
  }

  lemma OwnStepAccounted(c: Timing, s: State, a: Action, p: LockId)
    requires Enabled(c, s, a) && Mover(a) == Some(p) && (p in s.procs ==> Accounted(s.procs[p]))
    ensures p in Apply(c, s, a).procs && Accounted(Apply(c, s, a).procs[p])
  {
  }

  lemma StepSound(c: Timing, s: State, a: Action)
    requires Sound(c, s) && Enabled(c, s, a)
    ensures Sound(c, Apply(c, s, a))
  {
    hide Enabled, Apply, Inv, Accounted;
    StepInv(c, s, a);
    StepFrame(c, s, a);
    forall p | p in Apply(c, s, a).procs ensures Accounted(Apply(c, s, a).procs[p]) {
      if Mover(a) == Some(p) {
        OwnStepAccounted(c, s, a, p);
      }
    }
  }

  lemma {:induction false} RunSound(c: Timing, s: State, run: seq<Action>)
    requires Sound(c, s) && IsRun(c, s, run)
    ensures Sound(c, After(c, s, run))
    decreases |run|
  {
    hide Enabled, Apply, Sound;
    if run == [] {
    } else {
      StepSound(c, s, run[0]);
      RunSound(c, Apply(c, s, run[0]), run[1..]);
    }
  }

  // ------------------------------------------------------------------ stamps

  lemma StepInfo(c: Timing, s: State, a: Action, p: LockId)
    requires Enabled(c, s, a) && IdsInv(s) && p in s.procs && HasPut(s.procs[p]) && Accounted(s.procs[p])
    ensures p in Apply(c, s, a).procs
    ensures Apply(c, s, a).procs[p].info == s.procs[p].info && Apply(c, s, a).procs[p].putAt == s.procs[p].putAt
  {
    assert !(a.Start? && a.p == p) && !(a.Put? && a.p == p);
    hide IdsInv, Accounted, Enabled;
    StepFrame(c, s, a);
    if Mover(a) == Some(p) {
      StampStays(c, s, a, p);
    }
  }

  // A lock keeps the creation time and id it was put with.
  lemma {:induction false} InfoStays(c: Timing, s: State, run: seq<Action>, p: LockId)
    requires Sound(c, s) && IsRun(c, s, run) && p in s.procs && HasPut(s.procs[p])
    ensures p in After(c, s, run).procs
    ensures After(c, s, run).procs[p].info == s.procs[p].info && After(c, s, run).procs[p].putAt == s.procs[p].putAt
    decreases |run|
  {
    if run == [] {
    } else {
      assert IdsInv(s) && Accounted(s.procs[p]);
      hide Enabled, Apply, Sound, IdsInv, Accounted;
      StepInfo(c, s, run[0], p);
      StepSound(c, s, run[0]);
      InfoStays(c, Apply(c, s, run[0]), run[1..], p);
    }
  }

  // Who takes part between s and e: whoever had a file at s, or put one since.
  predicate Contender(s: State, e: State, p: LockId) {
    && p in e.procs && HasPut(e.procs[p])
    && (p in s.procs && HasPut(s.procs[p]) ==> Live(s, p))
  }

  // No contender's lock is one that `own` must yield to.
  ghost predicate Foremost(s: State, e: State, own: LockInfo) {
    forall q :: Contender(s, e, q) ==> !YieldsTo(own, e.procs[q].info)
  }

  // The earliest that a process's clock can say at its second listing.
  function SecondListing(c: Timing, x: Proc): int {
    x.putAt + SETTLE - c.skew
  }

  // A file that is active on this clock and that `own` must yield to.
  predicate Threat(s: State, q: LockId, own: LockInfo, clock: int) {
    ActiveFile(s, q, clock) && YieldsTo(own, s.files[q].info)
  }

  predicate ThreatWrite(a: Action, own: LockInfo, clock: int) {
    && a.Foreign? && a.file.Some? && a.file.value.Readable?
    && IsActive(a.file.value.info, clock) && YieldsTo(own, a.file.value.info)
  }

  // Such a file of nobody in the protocol, there at the start or written since.
  ghost predicate Leftover(s: State, run: seq<Action>, own: LockInfo, clock: int) {
    || (exists q :: !Live(s, q) && Threat(s, q, own, clock))
    || (exists i :: 0 <= i < |run| && ThreatWrite(run[i], own, clock))
  }

  // --------------------------------------------------------------- one step

  // Where a file that is nobody's can come from.
  lemma StepThreat(c: Timing, s: State, a: Action, q: LockId, own: LockInfo, clock: int)
    requires Enabled(c, s, a) && Threat(Apply(c, s, a), q, own, clock) && !Live(Apply(c, s, a), q)
    ensures Threat(s, q, own, clock) || ThreatWrite(a, own, clock)
  {
    hide IsActive, YieldsTo;
  }

  // Giving way is reading such a file.
  lemma StepGivesWay(c: Timing, s: State, a: Action, p: LockId)
    requires Enabled(c, s, a) && GaveWay(Apply(c, s, a), p) && !GaveWay(s, p)
    ensures p in s.procs && s.procs[p].phase.Verifying? && a.Recheck?
    ensures Threat(s, a.q, s.procs[p].info, s.procs[p].clock)
  {
    hide IsActive, YieldsTo;
  }

  // What is active now was active earlier.
  lemma ThreatBefore(s: State, q: LockId, own: LockInfo, clock: int, earlier: int)
    requires Threat(s, q, own, clock) && earlier <= clock
    ensures Threat(s, q, own, earlier)
  {
  }

  lemma SecondClock(c: Timing, s: State, p: LockId)
    requires Sound(c, s) && p in s.procs && s.procs[p].phase.Verifying?
    ensures SecondListing(c, s.procs[p]) <= s.procs[p].clock && HasPut(s.procs[p])
  {
    assert TimeInv(c, s, s.procs[p]) && Accounted(s.procs[p]);
  }

  lemma PutIsNew(c: Timing, s: State, a: Action)
    requires Enabled(c, s, a) && a.Put?
    ensures s.procs[a.p].phase.Reading?
    ensures a.p in Apply(c, s, a).procs && HasPut(Apply(c, s, a).procs[a.p]) && Live(Apply(c, s, a), a.p)
  {
  }

  // Whoever takes part from the next state on takes part from this one on.
  lemma FewerContenders(c: Timing, s: State, a: Action, e: State, q: LockId)
    requires Sound(c, s) && Enabled(c, s, a) && Contender(Apply(c, s, a), e, q)
    ensures Contender(s, e, q)
  {
    if q in s.procs && HasPut(s.procs[q]) {
      assert IdsInv(s) && Accounted(s.procs[q]);
      hide Enabled, Apply, Sound, IdsInv;
      StepInfo(c, s, a, q);
      WasLive(c, s, a, q);
      if a.Put? && a.p == q {
        PutIsNew(c, s, a);
      }
    }
  }

  lemma LiveFilesNoThreat(c: Timing, s: State, run: seq<Action>, q: LockId, own: LockInfo, clock: int)
    requires Sound(c, s) && IsRun(c, s, run) && Foremost(s, After(c, s, run), own) && Live(s, q)
    ensures !Threat(s, q, own, clock)
  {
    assert FileInv(c, s, q) && Accounted(s.procs[q]);
    InfoStays(c, s, run, q);
    assert Contender(s, After(c, s, run), q);
  }

  lemma ForemostNext(c: Timing, s: State, a: Action, e: State, own: LockInfo)
    requires Sound(c, s) && Enabled(c, s, a) && Foremost(s, e, own)
    ensures Foremost(Apply(c, s, a), e, own)
  {
    hide Enabled, Apply, Sound, Contender;
    forall q | Contender(Apply(c, s, a), e, q) ensures Contender(s, e, q) {
      FewerContenders(c, s, a, e, q);
    }
  }

  lemma NoThreatNext(c: Timing, s: State, run: seq<Action>, q: LockId, own: LockInfo, clock: int)
    requires Sound(c, s) && IsRun(c, s, run) && run != [] && Foremost(s, After(c, s, run), own)
    requires !ThreatWrite(run[0], own, clock) && !Threat(s, q, own, clock)
    ensures !Threat(Apply(c, s, run[0]), q, own, clock)
  {
    hide Enabled, Apply, Sound, Threat, Foremost, Live;
    var t := Apply(c, s, run[0]);
    if Live(t, q) {
      StepSound(c, s, run[0]);
      ForemostNext(c, s, run[0], After(c, s, run), own);
      LiveFilesNoThreat(c, t, run[1..], q, own, clock);
    } else if Threat(t, q, own, clock) {
      StepThreat(c, s, run[0], q, own, clock);
    }
  }

  // -------------------------------------------------------------- whole runs

  lemma StaysIn(c: Timing, s: State, run: seq<Action>, p: LockId, own: LockInfo, clock: int)
    requires Sound(c, s) && IsRun(c, s, run) && run != [] && p in After(c, s, run).procs && !GaveWay(s, p)
    requires own == After(c, s, run).procs[p].info && clock == SecondListing(c, After(c, s, run).procs[p])
    requires forall q :: !Threat(s, q, own, clock)
    ensures !GaveWay(Apply(c, s, run[0]), p)
  {
    hide Enabled, Apply, Sound, Threat, GaveWay;
    if GaveWay(Apply(c, s, run[0]), p) {
      StepGivesWay(c, s, run[0], p);
      SecondClock(c, s, p);
      InfoStays(c, s, run, p);
      ThreatBefore(s, run[0].q, s.procs[p].info, s.procs[p].clock, clock);
    }
  }

  lemma {:induction false} Unyielding(c: Timing, s: State, run: seq<Action>, p: LockId, own: LockInfo, clock: int)
    requires Sound(c, s) && IsRun(c, s, run)
    requires p in After(c, s, run).procs && own == After(c, s, run).procs[p].info
    requires clock == SecondListing(c, After(c, s, run).procs[p])
    requires Foremost(s, After(c, s, run), own) && !GaveWay(s, p)
    requires forall q :: !Threat(s, q, own, clock)
    requires forall i :: 0 <= i < |run| ==> !ThreatWrite(run[i], own, clock)
    ensures !GaveWay(After(c, s, run), p)
    decreases |run|
  {
    if run == [] {
    } else {
      hide Enabled, Apply, Sound, Foremost, Threat, ThreatWrite, GaveWay, SecondListing;
      var t := Apply(c, s, run[0]);
      StepSound(c, s, run[0]);
      forall q ensures !Threat(t, q, own, clock) {
        NoThreatNext(c, s, run, q, own, clock);
      }
      ForemostNext(c, s, run[0], After(c, s, run), own);
      StaysIn(c, s, run, p, own, clock);
      Unyielding(c, t, run[1..], p, own, clock);
    }
  }

  ghost predicate Reached(c: Timing, start: State, before: seq<Action>, run: seq<Action>) {
    c.Valid() && Init(start) && IsRun(c, start, before) && IsRun(c, After(c, start, before), run)
  }

  lemma StartSound(c: Timing, start: State)
    requires c.Valid() && Init(start)
    ensures Sound(c, start)
  {
    InitInv(c, start);
  }

  lemma ReachedSound(c: Timing, start: State, before: seq<Action>, run: seq<Action>)
    requires Reached(c, start, before, run)
    ensures var s := After(c, start, before);
            Sound(c, s) && IsRun(c, s, run) && Sound(c, After(c, s, run))
  {
    hide Sound;
    StartSound(c, start);
    RunSound(c, start, before);
    RunSound(c, After(c, start, before), run);
  }

  lemma Decided(c: Timing, s: State, p: LockId)
    requires Sound(c, s) && p in s.procs && HasPut(s.procs[p])
    ensures var x := s.procs[p];
            GaveWay(s, p) || x.acquired || x.phase == Closed(Crashed) || x.phase.Settling? || x.phase.Verifying?
  {
    assert Accounted(s.procs[p]);
  }

  lemma NotYetGivenWay(c: Timing, s: State, e: State, p: LockId)
    requires Sound(c, s) && Contender(s, e, p)
    ensures !GaveWay(s, p)
  {
    if p in s.procs {
      assert Accounted(s.procs[p]);
    }
  }

  // From any point of any run on, with any files there: a contender that is
  // older than all contenders it conflicts with never gives way, unless there is
  // an older conflicting lock of nobody in the protocol that is still active.
  lemma OldestNeverYields(c: Timing, start: State, before: seq<Action>, run: seq<Action>, p: LockId)
    requires Reached(c, start, before, run)
    requires var s, e := After(c, start, before), After(c, After(c, start, before), run);
             && Contender(s, e, p) && Foremost(s, e, e.procs[p].info)
             && !Leftover(s, run, e.procs[p].info, SecondListing(c, e.procs[p]))
    ensures var e := After(c, After(c, start, before), run);
            var x := e.procs[p];
            && !GaveWay(e, p)
            && (x.acquired || x.phase == Closed(Crashed) || x.phase.Settling? || x.phase.Verifying?)
  {
    ReachedSound(c, start, before, run);
    hide Sound, IsRun, After, Threat, ThreatWrite, GaveWay, Foremost, SecondListing;
    var s := After(c, start, before);
    var e := After(c, s, run);
    var own, clock := e.procs[p].info, SecondListing(c, e.procs[p]);
    forall q ensures !Threat(s, q, own, clock) {
      if Live(s, q) {
        LiveFilesNoThreat(c, s, run, q, own, clock);
      }
    }
    NotYetGivenWay(c, s, e, p);
    Unyielding(c, s, run, p, own, clock);
    Decided(c, e, p);
  }

  // ------------------------------------------------------------ a winner

  lemma OlderTransitive(a: LockInfo, b: LockInfo, c: LockInfo)
    requires !Older(a, b) && !Older(b, c)
    ensures !Older(a, c)
  {
  }

  // Among finitely many stamps there is an oldest.
  lemma {:induction false} OldestOf(s: State, ids: set<LockId>) returns (m: LockId)
    requires ids != {} && forall p :: p in ids ==> p in s.procs
    ensures m in ids && forall p :: p in ids ==> !Older(s.procs[p].info, s.procs[m].info)
    decreases |ids|
  {
    var some :| some in ids;
    var rest := ids - {some};
    if rest == {} {
      m := some;
      assert ids == {some};
    } else {
      var n := OldestOf(s, rest);
      m := if Older(s.procs[n].info, s.procs[some].info) then n else some;
      forall p | p in ids ensures !Older(s.procs[p].info, s.procs[m].info) {
        if p != some {
          assert p in rest;
          if m == some {
            OlderTransitive(s.procs[p].info, s.procs[n].info, s.procs[some].info);
          }
        }
      }
    }
  }

  ghost predicate Oldest(s: State, e: State, info: LockInfo) {
    forall q :: Contender(s, e, q) ==> !Older(e.procs[q].info, info)
  }

  // Contention never ends in mutual refusal: at every moment, however many came
  // and went before, the oldest contender has acquired, has crashed or is still
  // deciding, unless an active leftover that it conflicts with is older.
  lemma SomebodyWins(c: Timing, start: State, before: seq<Action>, run: seq<Action>) returns (winner: LockId)
    requires Reached(c, start, before, run)
    requires var s, e := After(c, start, before), After(c, After(c, start, before), run);
             exists p :: Contender(s, e, p)
    ensures var s, e := After(c, start, before), After(c, After(c, start, before), run);
            && Contender(s, e, winner) && Oldest(s, e, e.procs[winner].info)
            && (|| Leftover(s, run, e.procs[winner].info, SecondListing(c, e.procs[winner]))
                || e.procs[winner].acquired || e.procs[winner].phase == Closed(Crashed)
                || e.procs[winner].phase.Settling? || e.procs[winner].phase.Verifying?)
  {
    hide Leftover, SecondListing;
    var s := After(c, start, before);
    var e := After(c, s, run);
    var ids := set p | p in e.procs && Contender(s, e, p);
    var someone :| Contender(s, e, someone);
    assert someone in ids;
    winner := OldestOf(e, ids);
    forall q | Contender(s, e, q) ensures !Older(e.procs[q].info, e.procs[winner].info) {
      assert q in ids;
    }
    if !Leftover(s, run, e.procs[winner].info, SecondListing(c, e.procs[winner])) {
      OldestNeverYields(c, start, before, run, winner);
    }
  }
}
