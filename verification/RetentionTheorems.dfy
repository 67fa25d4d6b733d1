// What a retention plan guarantees, for every policy and any bucket keys.
module RetentionTheorems {
  import opened Wrappers
  import opened Codecs
  import opened Retention
  import Sets

  predicate DistinctIds(snapshots: seq<Snapshot>) {
    forall i, j :: 0 <= i < j < |snapshots| ==> snapshots[i].id != snapshots[j].id
  }

  // With distinct ids the plan is decided snapshot by snapshot: outside the
  // filter, among the first N of the group, or the newest of one of its first
  // N buckets under some rule.
  lemma KeptExactly(snapshots: seq<Snapshot>, p: Policy, cal: Calendar, i: nat)
    requires DistinctIds(snapshots) && i < |snapshots|
    ensures Retained(snapshots, p, cal, i) <==>
            NoRules(p) || !Matches(p, snapshots[i]) || KeptByRule(snapshots, p, cal, i)
  {
  }

  // ------------------------------------------------------- shorter lists

  function Selection(snapshots: seq<Snapshot>, chosen: seq<nat>): (out: seq<Snapshot>)
    requires Within(chosen, |snapshots|)
    ensures |out| == |chosen| && forall a :: 0 <= a < |chosen| ==> out[a] == snapshots[chosen[a]]
  {
    seq(|chosen|, a requires 0 <= a < |chosen| => snapshots[chosen[a]])
  }

  ghost function Positions(chosen: seq<nat>, indices: set<nat>): set<nat>
    requires forall a :: a in indices ==> a < |chosen|
  {
    set a | a in indices :: chosen[a]
  }

  // In a part of the list, those ahead are those of the whole that were chosen.
  lemma AheadInSelection(snapshots: seq<Snapshot>, chosen: seq<nat>, p: Policy, a: nat)
    requires Within(chosen, |snapshots|) && Increasing(chosen) && a < |chosen|
    ensures var part := Selection(snapshots, chosen);
            && Positions(chosen, Ahead(part, p, a)) == (set j | j in Ahead(snapshots, p, chosen[a]) && j in chosen)
            && |Ahead(part, p, a)| == |Positions(chosen, Ahead(part, p, a))|
  {
    var part := Selection(snapshots, chosen);
    var ahead := Ahead(part, p, a);
    forall b: nat | b < |chosen| ensures Precedes(part, b, a) <==> Precedes(snapshots, chosen[b], chosen[a]) {
      assert b < a ==> chosen[b] < chosen[a];
      assert a < b ==> chosen[a] < chosen[b];
    }
    forall j | j in Ahead(snapshots, p, chosen[a]) && j in chosen ensures j in Positions(chosen, ahead) {
      var b :| 0 <= b < |chosen| && chosen[b] == j;
      assert b in ahead;
    }
    Sets.InjectiveSize(ahead, b requires b in ahead => chosen[b], Positions(chosen, ahead));
  }

  lemma BucketsInSelection(snapshots: seq<Snapshot>, chosen: seq<nat>, indices: set<nat>, key: int -> string)
    requires Within(chosen, |snapshots|) && forall a :: a in indices ==> a < |chosen|
    ensures forall j :: j in Positions(chosen, indices) ==> j < |snapshots|
    ensures Buckets(Selection(snapshots, chosen), indices, key) == Buckets(snapshots, Positions(chosen, indices), key)
  {
  }

  // Fewer ahead can only help.
  lemma OpensWithFewer(snapshots: seq<Snapshot>, fewer: set<nat>, ahead: set<nat>, key: int -> string, n: Option<nat>,
                       m: Option<nat>, i: nat)
    requires i < |snapshots| && fewer <= ahead && forall j :: j in ahead ==> j < |snapshots|
    requires n.Some? ==> m.Some? && n.value <= m.value
    requires OpensBucket(snapshots, ahead, key, n, i)
    ensures OpensBucket(snapshots, fewer, key, m, i)
  {
    Sets.SubsetSize(Buckets(snapshots, fewer, key), Buckets(snapshots, ahead, key));
  }

  lemma OpensInSelection(snapshots: seq<Snapshot>, chosen: seq<nat>, p: Policy, a: nat, key: int -> string,
                         n: Option<nat>)
    requires Within(chosen, |snapshots|) && Increasing(chosen) && a < |chosen|
    requires OpensBucket(snapshots, Ahead(snapshots, p, chosen[a]), key, n, chosen[a])
    ensures OpensBucket(Selection(snapshots, chosen), Ahead(Selection(snapshots, chosen), p, a), key, n, a)
  {
    var part := Selection(snapshots, chosen);
    AheadInSelection(snapshots, chosen, p, a);
    BucketsInSelection(snapshots, chosen, Ahead(part, p, a), key);
    OpensWithFewer(snapshots, Positions(chosen, Ahead(part, p, a)), Ahead(snapshots, p, chosen[a]),
                  key, n, n, chosen[a]);
  }

  // A snapshot kept by a rule stays kept by it whatever other snapshots are
  // taken out of the list.
  lemma KeptInSelection(snapshots: seq<Snapshot>, chosen: seq<nat>, p: Policy, cal: Calendar, a: nat)
    requires Within(chosen, |snapshots|) && Increasing(chosen) && a < |chosen|
    requires KeptByRule(snapshots, p, cal, chosen[a])
    ensures KeptByRule(Selection(snapshots, chosen), p, cal, a)
  {
    hide OpensBucket;
    var ahead := Ahead(snapshots, p, chosen[a]);
    var part := Selection(snapshots, chosen);
    AheadInSelection(snapshots, chosen, p, a);
    Sets.SubsetSize(Positions(chosen, Ahead(part, p, a)), ahead);
    if OpensBucket(snapshots, ahead, cal.hour, p.keepHourly, chosen[a]) {
      OpensInSelection(snapshots, chosen, p, a, cal.hour, p.keepHourly);
    } else if OpensBucket(snapshots, ahead, cal.day, p.keepDaily, chosen[a]) {
      OpensInSelection(snapshots, chosen, p, a, cal.day, p.keepDaily);
    } else if OpensBucket(snapshots, ahead, cal.week, p.keepWeekly, chosen[a]) {
      OpensInSelection(snapshots, chosen, p, a, cal.week, p.keepWeekly);
    } else if OpensBucket(snapshots, ahead, cal.month, p.keepMonthly, chosen[a]) {
      OpensInSelection(snapshots, chosen, p, a, cal.month, p.keepMonthly);
    } else {
      assert AmongLast(ahead, p.keepLast);
      assert AmongLast(Ahead(part, p, a), p.keepLast);
    }
  }

  // Forget is idempotent: evaluating the same policy again on what a plan
  // keeps, or on any list that still has some of it, removes none of it.
  lemma ForgetIdempotent(snapshots: seq<Snapshot>, p: Policy, cal: Calendar, keep: seq<nat>)
    requires DistinctIds(snapshots)
    requires Within(keep, |snapshots|) && Increasing(keep)
    requires forall a :: 0 <= a < |keep| ==> Retained(snapshots, p, cal, keep[a])
    ensures forall a: nat :: a < |keep| ==> Retained(Selection(snapshots, keep), p, cal, a)
  {
    var part := Selection(snapshots, keep);
    forall a: nat | a < |keep| ensures Retained(part, p, cal, a) {
      KeptExactly(snapshots, p, cal, keep[a]);
      if !NoRules(p) && Matches(p, snapshots[keep[a]]) {
        KeptInSelection(snapshots, keep, p, cal, a);
      }
      assert !NoRules(p) ==> Spared(part, p, cal, a);
    }
  }

  // The command twice in a row: the second plan keeps every position and
  // removes none.
  method ForgetTwice(snapshots: seq<Snapshot>, p: Policy, cal: Calendar) returns (first: Plan, second: Plan)
    requires DistinctIds(snapshots)
    ensures Within(first.keep, |snapshots|) && second.remove == [] && |second.keep| == |first.keep|
  {
    first := EvaluateRetention(snapshots, p, cal);
    assert forall a :: 0 <= a < |first.keep| ==> first.keep[a] in first.keep;
    ForgetIdempotent(snapshots, p, cal, first.keep);
    var part := Selection(snapshots, first.keep);
    second := EvaluateRetention(part, p, cal);
    SomeMember(second.remove);
    assert forall a :: 0 <= a < |second.keep| ==> second.keep[a] in second.keep;
    IncreasingAll(second.keep, |part|);
  }

  lemma SomeMember(positions: seq<nat>)
    ensures positions != [] ==> exists i: nat :: i in positions
  {
    if positions != [] {
      assert positions[0] in positions;
    }
  }

  // Increasing positions that include every index are all of them.
  lemma {:induction false} IncreasingAll(positions: seq<nat>, size: nat)
    requires Increasing(positions) && Within(positions, size) && forall i: nat :: i < size ==> i in positions
    ensures |positions| == size
    decreases size
  {
    if positions == [] {
    } else {
      assert positions[0] < size;
    }
    if size > 0 {
      var n := |positions| - 1;
      assert size - 1 in positions;
      assert positions[n] == size - 1;
      var front := positions[..n];
      assert positions == front + [size - 1];
      forall i: nat | i < size - 1 ensures i in front {
        assert i in positions;
      }
      IncreasingAll(front, size - 1);
    }
  }

  // --------------------------------------------------- other groups, larger N

  // Only its own group decides about a snapshot: taking out any snapshots of
  // other groups, or outside the filter, changes nothing.
  lemma OtherGroupsIrrelevant(snapshots: seq<Snapshot>, chosen: seq<nat>, p: Policy, cal: Calendar, a: nat)
    requires Within(chosen, |snapshots|) && Increasing(chosen) && a < |chosen|
    requires GroupChosen(snapshots, chosen, p, GroupOf(snapshots[chosen[a]]))
    ensures KeptByRule(snapshots, p, cal, chosen[a]) <==> KeptByRule(Selection(snapshots, chosen), p, cal, a)
  {
    hide OpensBucket;
    var part := Selection(snapshots, chosen);
    AheadOfGroup(snapshots, chosen, p, a);
    SameOpening(snapshots, chosen, p, a, cal.hour, p.keepHourly);
    SameOpening(snapshots, chosen, p, a, cal.day, p.keepDaily);
    SameOpening(snapshots, chosen, p, a, cal.week, p.keepWeekly);
    SameOpening(snapshots, chosen, p, a, cal.month, p.keepMonthly);
    assert AmongLast(Ahead(part, p, a), p.keepLast) <==> AmongLast(Ahead(snapshots, p, chosen[a]), p.keepLast);
  }

  // The whole group was chosen.
  ghost predicate GroupChosen(snapshots: seq<Snapshot>, chosen: seq<nat>, p: Policy, g: GroupKey) {
    forall j: nat :: j < |snapshots| && Matches(p, snapshots[j]) && GroupOf(snapshots[j]) == g ==> j in chosen
  }

  lemma AheadOfGroup(snapshots: seq<Snapshot>, chosen: seq<nat>, p: Policy, a: nat)
    requires Within(chosen, |snapshots|) && Increasing(chosen) && a < |chosen|
    requires GroupChosen(snapshots, chosen, p, GroupOf(snapshots[chosen[a]]))
    ensures Positions(chosen, Ahead(Selection(snapshots, chosen), p, a)) == Ahead(snapshots, p, chosen[a])
    ensures |Ahead(Selection(snapshots, chosen), p, a)| == |Ahead(snapshots, p, chosen[a])|
  {
    AheadInSelection(snapshots, chosen, p, a);
    assert Positions(chosen, Ahead(Selection(snapshots, chosen), p, a)) == Ahead(snapshots, p, chosen[a]);
  }

  lemma SameOpening(snapshots: seq<Snapshot>, chosen: seq<nat>, p: Policy, a: nat, key: int -> string, n: Option<nat>)
    requires Within(chosen, |snapshots|) && Increasing(chosen) && a < |chosen|
    requires GroupChosen(snapshots, chosen, p, GroupOf(snapshots[chosen[a]]))
    ensures OpensBucket(snapshots, Ahead(snapshots, p, chosen[a]), key, n, chosen[a]) <==>
            OpensBucket(Selection(snapshots, chosen), Ahead(Selection(snapshots, chosen), p, a), key, n, a)
  {
    AheadOfGroup(snapshots, chosen, p, a);
    BucketsInSelection(snapshots, chosen, Ahead(Selection(snapshots, chosen), p, a), key);
  }

  predicate AtLeast(q: Option<nat>, p: Option<nat>) {
    p.Some? ==> q.Some? && p.value <= q.value
  }

  // q raises numbers of p, or adds rules, under the same filter.
  predicate Raises(q: Policy, p: Policy) {
    && q.database == p.database && q.tag == p.tag
    && AtLeast(q.keepLast, p.keepLast) && AtLeast(q.keepHourly, p.keepHourly) && AtLeast(q.keepDaily, p.keepDaily)
    && AtLeast(q.keepWeekly, p.keepWeekly) && AtLeast(q.keepMonthly, p.keepMonthly)
  }

  // Raising any N never shrinks what is kept, provided some rule was given at
  // all: a policy without rules keeps everything.
  lemma RaisingKeepsMore(snapshots: seq<Snapshot>, p: Policy, q: Policy, cal: Calendar, i: nat)
    requires i < |snapshots| && Raises(q, p) && !NoRules(p)
    requires Retained(snapshots, p, cal, i)
    ensures Retained(snapshots, q, cal, i)
  {
    hide OpensBucket;
    var j :| 0 <= j < |snapshots| && snapshots[j].id == snapshots[i].id && Spared(snapshots, p, cal, j);
    if Matches(p, snapshots[j]) {
      var ahead := Ahead(snapshots, p, j);
      assert Ahead(snapshots, q, j) == ahead;
      if OpensBucket(snapshots, ahead, cal.hour, p.keepHourly, j) {
        OpensWithFewer(snapshots, ahead, ahead, cal.hour, p.keepHourly, q.keepHourly, j);
      } else if OpensBucket(snapshots, ahead, cal.day, p.keepDaily, j) {
        OpensWithFewer(snapshots, ahead, ahead, cal.day, p.keepDaily, q.keepDaily, j);
      } else if OpensBucket(snapshots, ahead, cal.week, p.keepWeekly, j) {
        OpensWithFewer(snapshots, ahead, ahead, cal.week, p.keepWeekly, q.keepWeekly, j);
      } else if OpensBucket(snapshots, ahead, cal.month, p.keepMonthly, j) {
        OpensWithFewer(snapshots, ahead, ahead, cal.month, p.keepMonthly, q.keepMonthly, j);
      }
    }
    assert Spared(snapshots, q, cal, j);
  }

  // Whatever p keeps of any list, in any calendar, q keeps.
  ghost predicate NothingLost(p: Policy, q: Policy) {
    forall snapshots, cal, i: nat :: i < |snapshots| && Retained(snapshots, p, cal, i) ==>
      Retained(snapshots, q, cal, i)
  }

  // n snapshots of one moment under q's filter, each with its own id.
  function Alike(q: Policy, n: nat): (list: seq<Snapshot>)
    ensures |list| == n
    ensures DistinctIds(list) && forall i :: 0 <= i < n ==> Matches(q, list[i]) && list[i].startedAt == 0
    ensures forall i, j :: 0 <= i < n && 0 <= j < n ==> GroupOf(list[i]) == GroupOf(list[j])
  {
    var database := if q.database.Some? then q.database.value else "db";
    var list := seq(n, i requires 0 <= i < n => Snapshot(seq(i, _ => 'a'), "mysql", database, q.tag, 0, 0, 0, 0, []));
    assert forall i :: 0 <= i < n ==> |list[i].id| == i;
    list
  }

  // A policy with rules removes the last of enough snapshots of one moment.
  lemma LastRemoved(q: Policy, cal: Calendar)
    requires !NoRules(q)
    ensures var n := (if q.keepLast.Some? then q.keepLast.value else 0) + 1;
            !Retained(Alike(q, n + 1), q, cal, n)
  {
    var n := (if q.keepLast.Some? then q.keepLast.value else 0) + 1;
    var list := Alike(q, n + 1);
    var ahead := Ahead(list, q, n);
    AllAhead(list, q, n);
    KeptExactly(list, q, cal, n);
    NotOpened(list, ahead, cal.hour, q.keepHourly, n);
    NotOpened(list, ahead, cal.day, q.keepDaily, n);
    NotOpened(list, ahead, cal.week, q.keepWeekly, n);
    NotOpened(list, ahead, cal.month, q.keepMonthly, n);
    hide OpensBucket, Ahead;
  }

  ghost function UpTo(n: nat): (s: set<nat>)
    ensures |s| == n && forall j: nat :: j in s <==> j < n
  {
    if n == 0 then {} else UpTo(n - 1) + {n - 1}
  }

  lemma AllAhead(list: seq<Snapshot>, q: Policy, n: nat)
    requires n >= 1 && list == Alike(q, n + 1)
    ensures 0 in Ahead(list, q, n) && |Ahead(list, q, n)| == n
  {
    assert Ahead(list, q, n) == UpTo(n);
  }

  lemma NotOpened(list: seq<Snapshot>, ahead: set<nat>, key: int -> string, n: Option<nat>, i: nat)
    requires i < |list| && 0 in ahead && forall j :: j in ahead ==> j < |list|
    requires list[0].startedAt == list[i].startedAt
    ensures !OpensBucket(list, ahead, key, n, i)
  {
    assert key(list[0].startedAt) in Buckets(list, ahead, key);
  }

  // Raising any N, or adding rules, loses nothing of any list, if and only if
  // there was a rule before or there is none after.
  lemma RaisingExactly(p: Policy, q: Policy)
    requires Raises(q, p)
    ensures NothingLost(p, q) <==> !NoRules(p) || NoRules(q)
  {
    hide Retained;
    if !NoRules(p) {
      forall snapshots, cal, i: nat | i < |snapshots| && Retained(snapshots, p, cal, i)
        ensures Retained(snapshots, q, cal, i)
      {
        RaisingKeepsMore(snapshots, p, q, cal, i);
      }
    } else if NoRules(q) {
      forall snapshots, cal, i: nat | i < |snapshots| ensures Retained(snapshots, q, cal, i) {
        KeepsAll(snapshots, q, cal, i);
      }
    } else {
      var cal := Calendar(_ => "", _ => "", _ => "", _ => "");
      LastRemoved(q, cal);
      var n := (if q.keepLast.Some? then q.keepLast.value else 0) + 1;
      KeepsAll(Alike(q, n + 1), p, cal, n);
    }
  }

  lemma KeepsAll(snapshots: seq<Snapshot>, p: Policy, cal: Calendar, i: nat)
    requires i < |snapshots| && NoRules(p)
    ensures Retained(snapshots, p, cal, i)
  {
  }
}
