// The retention planner. References to snapshots are positions in the list it
// is given; calendar bucket keys are abstract functions of the start time.
module Retention {
  import opened Wrappers
  import opened Codecs
  import Sets

  datatype Policy = Policy(
    keepLast: Option<nat>,
    keepHourly: Option<nat>,
    keepDaily: Option<nat>,
    keepWeekly: Option<nat>,
    keepMonthly: Option<nat>,
    database: Option<string>,
    tag: Option<string>)

  datatype Calendar = Calendar(hour: int -> string, day: int -> string, week: int -> string, month: int -> string)

  type GroupKey = (string, string, Option<string>)

  predicate NoRules(p: Policy) {
    p.keepLast.None? && p.keepHourly.None? && p.keepDaily.None? && p.keepWeekly.None? && p.keepMonthly.None?
  }

  predicate Matches(p: Policy, s: Snapshot) {
    && (p.database.Some? ==> s.database == p.database.value)
    && (p.tag.Some? ==> s.tag == p.tag)
  }

  function GroupOf(s: Snapshot): GroupKey {
    (s.engine, s.database, s.tag)
  }

  // ------------------------------------------------------- the specification

  // Newest first; equal times keep the order of the list.
  predicate Precedes(snapshots: seq<Snapshot>, j: nat, i: nat)
    requires i < |snapshots| && j < |snapshots|
  {
    snapshots[j].startedAt > snapshots[i].startedAt || (snapshots[j].startedAt == snapshots[i].startedAt && j < i)
  }

  // The candidates of i's group that are ahead of it.
  ghost function Ahead(snapshots: seq<Snapshot>, p: Policy, i: nat): set<nat>
    requires i < |snapshots|
  {
    set j: nat | j < |snapshots| && Matches(p, snapshots[j]) && GroupOf(snapshots[j]) == GroupOf(snapshots[i])
                 && Precedes(snapshots, j, i)
  }

  ghost function Buckets(snapshots: seq<Snapshot>, positions: set<nat>, key: int -> string): set<string>
    requires forall j :: j in positions ==> j < |snapshots|
  {
    set j | j in positions :: key(snapshots[j].startedAt)
  }

  ghost predicate AmongLast(ahead: set<nat>, n: Option<nat>) {
    n.Some? && |ahead| < n.value
  }

  // The newest of one of the first n distinct buckets.
  ghost predicate OpensBucket(snapshots: seq<Snapshot>, ahead: set<nat>, key: int -> string, n: Option<nat>, i: nat)
    requires i < |snapshots| && forall j :: j in ahead ==> j < |snapshots|
  {
    var buckets := Buckets(snapshots, ahead, key);
    n.Some? && key(snapshots[i].startedAt) !in buckets && |buckets| < n.value
  }

  ghost predicate KeptByRule(snapshots: seq<Snapshot>, p: Policy, cal: Calendar, i: nat)
    requires i < |snapshots|
  {
    var ahead := Ahead(snapshots, p, i);
    || AmongLast(ahead, p.keepLast)
    || OpensBucket(snapshots, ahead, cal.hour, p.keepHourly, i)
    || OpensBucket(snapshots, ahead, cal.day, p.keepDaily, i)
    || OpensBucket(snapshots, ahead, cal.week, p.keepWeekly, i)
    || OpensBucket(snapshots, ahead, cal.month, p.keepMonthly, i)
  }

  ghost predicate Spared(snapshots: seq<Snapshot>, p: Policy, cal: Calendar, i: nat)
    requires i < |snapshots|
  {
    !Matches(p, snapshots[i]) || KeptByRule(snapshots, p, cal, i)
  }

  // The plan goes by snapshot id.
  ghost predicate Retained(snapshots: seq<Snapshot>, p: Policy, cal: Calendar, i: nat)
    requires i < |snapshots|
  {
    NoRules(p) || exists j :: 0 <= j < |snapshots| && snapshots[j].id == snapshots[i].id && Spared(snapshots, p, cal, j)
  }

  // ------------------------------------------------------------- the method

  datatype Plan = Plan(keep: seq<nat>, remove: seq<nat>)

  predicate Increasing(positions: seq<nat>) {
    forall a, b :: 0 <= a < b < |positions| ==> positions[a] < positions[b]
  }

  predicate Within(positions: seq<nat>, size: nat) {
    forall a :: 0 <= a < |positions| ==> positions[a] < size
  }

  method EvaluateRetention(snapshots: seq<Snapshot>, p: Policy, cal: Calendar) returns (plan: Plan)
    ensures Increasing(plan.keep) && Increasing(plan.remove)
    ensures forall i: nat :: i in plan.keep <==> i < |snapshots| && Retained(snapshots, p, cal, i)
    ensures forall i: nat :: i in plan.remove <==> i < |snapshots| && !Retained(snapshots, p, cal, i)
  {
    if NoRules(p) {
      var all: seq<nat> := seq(|snapshots|, i requires 0 <= i => i);
      forall i: nat ensures i in all <==> i < |snapshots| {
        if i < |snapshots| {
          assert all[i] == i;
        }
      }
      return Plan(all, []);
    }
    var candidates, untouched := Partition(snapshots, p);
    var groups := GroupCandidates(snapshots, candidates);
    var keptIds := KeepInGroups(snapshots, p, cal, candidates, groups);
    plan := Assemble(snapshots, p, cal, untouched, keptIds);
  }

  ghost predicate KeptIds(snapshots: seq<Snapshot>, p: Policy, cal: Calendar, ids: set<string>) {
    forall id :: id in ids <==>
      exists j: nat :: j < |snapshots| && Matches(p, snapshots[j])
                      && snapshots[j].id == id && KeptByRule(snapshots, p, cal, j)
  }

  // The final pass over the list, by id.
  method Assemble(snapshots: seq<Snapshot>, p: Policy, cal: Calendar, untouched: seq<nat>, keptIds: set<string>)
    returns (plan: Plan)
    requires !NoRules(p) && Within(untouched, |snapshots|)
    requires forall i: nat :: i in untouched <==> i < |snapshots| && !Matches(p, snapshots[i])
    requires KeptIds(snapshots, p, cal, keptIds)
    ensures Increasing(plan.keep) && Increasing(plan.remove)
    ensures forall i: nat :: i in plan.keep <==> i < |snapshots| && Retained(snapshots, p, cal, i)
    ensures forall i: nat :: i in plan.remove <==> i < |snapshots| && !Retained(snapshots, p, cal, i)
  {
    hide Retained, KeptIds;
    var keep: seq<nat>, remove: seq<nat> := [], [];
    for n := 0 to |snapshots|
      invariant Increasing(keep) && Increasing(remove) && Within(keep, n) && Within(remove, n)
      invariant forall i: nat :: i in keep <==> i < n && Retained(snapshots, p, cal, i)
      invariant forall i: nat :: i in remove <==> i < n && !Retained(snapshots, p, cal, i)
    {
      RetainedById(snapshots, p, cal, untouched, keptIds, n);
      if snapshots[n].id in keptIds
         || exists u :: 0 <= u < |untouched| && snapshots[untouched[u]].id == snapshots[n].id {
        keep := keep + [n];
      } else {
        remove := remove + [n];
      }
    }
    return Plan(keep, remove);
  }

  lemma RetainedById(snapshots: seq<Snapshot>, p: Policy, cal: Calendar, untouched: seq<nat>, keptIds: set<string>,
                     n: nat)
    requires n < |snapshots| && !NoRules(p) && Within(untouched, |snapshots|)
    requires forall i: nat :: i in untouched <==> i < |snapshots| && !Matches(p, snapshots[i])
    requires KeptIds(snapshots, p, cal, keptIds)
    ensures Retained(snapshots, p, cal, n) <==>
            snapshots[n].id in keptIds
            || exists u :: 0 <= u < |untouched| && snapshots[untouched[u]].id == snapshots[n].id
  {
  }

  method Partition(snapshots: seq<Snapshot>, p: Policy) returns (candidates: seq<nat>, untouched: seq<nat>)
    ensures Increasing(candidates) && Within(candidates, |snapshots|) && Within(untouched, |snapshots|)
    ensures forall i: nat :: i in candidates <==> i < |snapshots| && Matches(p, snapshots[i])
    ensures forall i: nat :: i in untouched <==> i < |snapshots| && !Matches(p, snapshots[i])
  {
    candidates, untouched := [], [];
    for n := 0 to |snapshots|
      invariant Increasing(candidates) && Within(candidates, n) && Within(untouched, n)
      invariant forall i: nat :: i in candidates <==> i < n && Matches(p, snapshots[i])
      invariant forall i: nat :: i in untouched <==> i < n && !Matches(p, snapshots[i])
    {
      if Matches(p, snapshots[n]) {
        candidates := candidates + [n];
      } else {
        untouched := untouched + [n];
      }
    }
  }

  // Each group lists, in order, its members among the first candidates.
  ghost predicate GroupsOf(snapshots: seq<Snapshot>, candidates: seq<nat>, groups: map<GroupKey, seq<nat>>) {
    && (forall g :: g in groups ==> IsGroup(snapshots, candidates, g, groups[g]))
    && (forall i :: i in candidates && i < |snapshots| ==> GroupOf(snapshots[i]) in groups)
  }

  ghost predicate IsGroup(snapshots: seq<Snapshot>, candidates: seq<nat>, g: GroupKey, members: seq<nat>) {
    && Increasing(members) && Within(members, |snapshots|)
    && forall i: nat :: i in members <==> i in candidates && i < |snapshots| && GroupOf(snapshots[i]) == g
  }

  method GroupCandidates(snapshots: seq<Snapshot>, candidates: seq<nat>) returns (groups: map<GroupKey, seq<nat>>)
    requires Increasing(candidates) && Within(candidates, |snapshots|)
    ensures GroupsOf(snapshots, candidates, groups)
  {
    groups := map[];
    for n := 0 to |candidates|
      invariant GroupsOf(snapshots, candidates[..n], groups)
    {
      var g := GroupOf(snapshots[candidates[n]]);
      var members := if g in groups then groups[g] else [];
      GroupStep(snapshots, candidates, n, groups);
      groups := groups[g := members + [candidates[n]]];
    }
    assert candidates[..|candidates|] == candidates;
  }

  lemma GroupStep(snapshots: seq<Snapshot>, candidates: seq<nat>, n: nat, groups: map<GroupKey, seq<nat>>)
    requires Increasing(candidates) && Within(candidates, |snapshots|) && n < |candidates|
    requires GroupsOf(snapshots, candidates[..n], groups)
    ensures var g := GroupOf(snapshots[candidates[n]]);
            var members := if g in groups then groups[g] else [];
            GroupsOf(snapshots, candidates[..n + 1], groups[g := members + [candidates[n]]])
  {
    hide IsGroup;
    var i := candidates[n];
    var g := GroupOf(snapshots[i]);
    assert candidates[..n + 1] == candidates[..n] + [i];
    if g !in groups {
      NoMembers(snapshots, candidates[..n], groups, g);
    }
    MemberJoins(snapshots, candidates, n, if g in groups then groups[g] else []);
    forall h | h in groups && h != g ensures IsGroup(snapshots, candidates[..n + 1], h, groups[h]) {
      OthersStay(snapshots, candidates, n, h, groups[h]);
    }
  }

  lemma NoMembers(snapshots: seq<Snapshot>, candidates: seq<nat>, groups: map<GroupKey, seq<nat>>, g: GroupKey)
    requires GroupsOf(snapshots, candidates, groups) && g !in groups
    ensures IsGroup(snapshots, candidates, g, [])
  {
  }

  lemma MemberJoins(snapshots: seq<Snapshot>, candidates: seq<nat>, n: nat, members: seq<nat>)
    requires Increasing(candidates) && Within(candidates, |snapshots|) && n < |candidates|
    requires IsGroup(snapshots, candidates[..n], GroupOf(snapshots[candidates[n]]), members)
    ensures IsGroup(snapshots, candidates[..n + 1], GroupOf(snapshots[candidates[n]]), members + [candidates[n]])
  {
    assert candidates[..n + 1] == candidates[..n] + [candidates[n]];
    forall a | 0 <= a < |members| ensures members[a] < candidates[n] {
      assert members[a] in members;
      assert members[a] in candidates[..n];
    }
  }

  lemma OthersStay(snapshots: seq<Snapshot>, candidates: seq<nat>, n: nat, h: GroupKey, members: seq<nat>)
    requires Within(candidates, |snapshots|) && n < |candidates| && GroupOf(snapshots[candidates[n]]) != h
    requires IsGroup(snapshots, candidates[..n], h, members)
    ensures IsGroup(snapshots, candidates[..n + 1], h, members)
  {
  }

  // sort_by_key(Reverse(started_at)): stable, newest first.
  function Newest(snapshots: seq<Snapshot>, positions: seq<nat>): (sorted: seq<nat>)
    requires Within(positions, |snapshots|)
    ensures Within(sorted, |snapshots|)
    ensures multiset(sorted) == multiset(positions)
  {
    if positions == [] then []
    else
      assert positions == [positions[0]] + positions[1..];
      Insert(snapshots, positions[0], Newest(snapshots, positions[1..]))
  }

  // Before the first entry that is not newer.
  function Insert(snapshots: seq<Snapshot>, i: nat, sorted: seq<nat>): (out: seq<nat>)
    requires i < |snapshots| && Within(sorted, |snapshots|)
    ensures Within(out, |snapshots|)
    ensures multiset(out) == multiset(sorted) + multiset{i}
  {
    if sorted == [] then [i]
    else if snapshots[sorted[0]].startedAt <= snapshots[i].startedAt then [i] + sorted
    else
      assert sorted == [sorted[0]] + sorted[1..];
      [sorted[0]] + Insert(snapshots, i, sorted[1..])
  }

  ghost predicate InOrder(snapshots: seq<Snapshot>, sorted: seq<nat>)
    requires Within(sorted, |snapshots|)
  {
    forall a, b :: 0 <= a < b < |sorted| ==> Precedes(snapshots, sorted[a], sorted[b])
  }

  lemma {:induction false} InsertOrders(snapshots: seq<Snapshot>, i: nat, sorted: seq<nat>)
    requires i < |snapshots| && Within(sorted, |snapshots|) && InOrder(snapshots, sorted)
    requires forall a :: 0 <= a < |sorted| ==> i < sorted[a]
    ensures InOrder(snapshots, Insert(snapshots, i, sorted))
  {
    if sorted != [] && !(snapshots[sorted[0]].startedAt <= snapshots[i].startedAt) {
      var rest := Insert(snapshots, i, sorted[1..]);
      InsertOrders(snapshots, i, sorted[1..]);
      SameMembers(rest, [i] + sorted[1..]);
      forall b | 0 <= b < |rest| ensures Precedes(snapshots, sorted[0], rest[b]) {
        assert rest[b] in rest;
        InTail(i, sorted, rest[b]);
      }
      HeadInFront(snapshots, sorted[0], rest);
    } else if sorted != [] {
      forall b | 0 <= b < |sorted| ensures Precedes(snapshots, i, sorted[b]) {
        assert i < sorted[b];
        assert b > 0 ==> Precedes(snapshots, sorted[0], sorted[b]);
      }
      HeadInFront(snapshots, i, sorted);
    }
  }

  lemma HeadInFront(snapshots: seq<Snapshot>, head: nat, rest: seq<nat>)
    requires head < |snapshots| && Within(rest, |snapshots|) && InOrder(snapshots, rest)
    requires forall b :: 0 <= b < |rest| ==> Precedes(snapshots, head, rest[b])
    ensures Within([head] + rest, |snapshots|) && InOrder(snapshots, [head] + rest)
  {
  }

  lemma InTail(i: nat, sorted: seq<nat>, k: nat)
    requires sorted != [] && k in [i] + sorted[1..]
    ensures k == i || exists b :: 0 < b < |sorted| && sorted[b] == k
  {
  }

  lemma SameMembers(a: seq<nat>, b: seq<nat>)
    requires multiset(a) == multiset(b)
    ensures forall k :: k in a <==> k in b
  {
    forall k: nat ensures k in a <==> k in b {
      assert k in a <==> k in multiset(a);
      assert k in b <==> k in multiset(b);
    }
  }

  // On positions in list order, the stable sort is the order of Precedes.
  lemma {:induction false} NewestOrders(snapshots: seq<Snapshot>, positions: seq<nat>)
    requires Within(positions, |snapshots|) && Increasing(positions)
    ensures InOrder(snapshots, Newest(snapshots, positions))
    ensures forall k :: k in Newest(snapshots, positions) <==> k in positions
  {
    if positions == [] {
    } else {
      var rest := Newest(snapshots, positions[1..]);
      NewestOrders(snapshots, positions[1..]);
      forall a | 0 <= a < |rest| ensures positions[0] < rest[a] {
        assert rest[a] in positions[1..];
      }
      InsertOrders(snapshots, positions[0], rest);
    }
    SameMembers(Newest(snapshots, positions), positions);
  }

  ghost predicate KeepsGroup(snapshots: seq<Snapshot>, p: Policy, cal: Calendar, g: GroupKey, ids: set<string>) {
    forall id :: id in ids <==>
      exists j: nat :: j < |snapshots| && Matches(p, snapshots[j]) && GroupOf(snapshots[j]) == g
                       && snapshots[j].id == id && KeptByRule(snapshots, p, cal, j)
  }

  method KeepInGroups(snapshots: seq<Snapshot>, p: Policy, cal: Calendar, candidates: seq<nat>,
                      groups: map<GroupKey, seq<nat>>)
    returns (keptIds: set<string>)
    requires GroupsOf(snapshots, candidates, groups)
    requires forall i: nat :: i in candidates <==> i < |snapshots| && Matches(p, snapshots[i])
    ensures KeptIds(snapshots, p, cal, keptIds)
  {
    keptIds := {};
    var left := groups.Keys;
    while left != {}
      invariant left <= groups.Keys
      invariant forall id :: id in keptIds <==>
                  exists j: nat :: j < |snapshots| && Matches(p, snapshots[j]) && GroupOf(snapshots[j]) !in left
                                   && snapshots[j].id == id && KeptByRule(snapshots, p, cal, j)
      decreases |left|
    {
      var g :| g in left;
      assert IsGroup(snapshots, candidates, g, groups[g]);
      var sorted := Newest(snapshots, groups[g]);
      NewestOrders(snapshots, groups[g]);
      var ids := KeepInGroup(snapshots, p, cal, g, sorted);
      keptIds := keptIds + ids;
      left := left - {g};
    }
  }

  // One group, newest first: five rules, each adding ids.
  method KeepInGroup(snapshots: seq<Snapshot>, p: Policy, cal: Calendar, g: GroupKey, sorted: seq<nat>)
    returns (ids: set<string>)
    requires Within(sorted, |snapshots|) && InOrder(snapshots, sorted)
    requires forall i: nat :: i in sorted <==> i < |snapshots| && Matches(p, snapshots[i]) && GroupOf(snapshots[i]) == g
    ensures KeepsGroup(snapshots, p, cal, g, ids)
  {
    hide Before, Buckets, InOrder, KeepsGroup;
    ids := {};
    if p.keepLast.Some? {
      ids := KeepLast(snapshots, sorted, p.keepLast.value);
    }
    var byHour := KeepBuckets(snapshots, sorted, cal.hour, p.keepHourly);
    var byDay := KeepBuckets(snapshots, sorted, cal.day, p.keepDaily);
    var byWeek := KeepBuckets(snapshots, sorted, cal.week, p.keepWeekly);
    var byMonth := KeepBuckets(snapshots, sorted, cal.month, p.keepMonthly);
    ids := ids + byHour + byDay + byWeek + byMonth;
    assert forall id :: id in ids <==>
      exists a :: 0 <= a < |sorted| && snapshots[sorted[a]].id == id && KeptAt(snapshots, p, cal, sorted, a);
    KeptInSorted(snapshots, p, cal, g, sorted, ids);
  }

  // What the rules say, in terms of the sorted group.
  ghost predicate KeptAt(snapshots: seq<Snapshot>, p: Policy, cal: Calendar, sorted: seq<nat>, a: nat)
    requires Within(sorted, |snapshots|) && a < |sorted|
  {
    var before := Before(sorted, a);
    || AmongLast(before, p.keepLast)
    || OpensBucket(snapshots, before, cal.hour, p.keepHourly, sorted[a])
    || OpensBucket(snapshots, before, cal.day, p.keepDaily, sorted[a])
    || OpensBucket(snapshots, before, cal.week, p.keepWeekly, sorted[a])
    || OpensBucket(snapshots, before, cal.month, p.keepMonthly, sorted[a])
  }

  lemma KeptInSorted(snapshots: seq<Snapshot>, p: Policy, cal: Calendar, g: GroupKey, sorted: seq<nat>,
                     ids: set<string>)
    requires Within(sorted, |snapshots|) && InOrder(snapshots, sorted)
    requires forall i: nat :: i in sorted <==> i < |snapshots| && Matches(p, snapshots[i]) && GroupOf(snapshots[i]) == g
    requires forall id :: id in ids <==>
               exists a :: 0 <= a < |sorted| && snapshots[sorted[a]].id == id && KeptAt(snapshots, p, cal, sorted, a)
    ensures KeepsGroup(snapshots, p, cal, g, ids)
  {
    hide OpensBucket, AmongLast, Ahead, Before, InOrder;
    forall a: nat | a < |sorted|
      ensures Matches(p, snapshots[sorted[a]]) && GroupOf(snapshots[sorted[a]]) == g
      ensures KeptAt(snapshots, p, cal, sorted, a) <==> KeptByRule(snapshots, p, cal, sorted[a])
    {
      assert sorted[a] in sorted;
      AheadIsBefore(snapshots, p, g, sorted, a);
    }
    hide KeptAt, KeptByRule;
    forall id ensures id in ids <==>
      exists j: nat :: j < |snapshots| && Matches(p, snapshots[j]) && GroupOf(snapshots[j]) == g
                       && snapshots[j].id == id && KeptByRule(snapshots, p, cal, j)
    {
      if j: nat :| j < |snapshots| && Matches(p, snapshots[j]) && GroupOf(snapshots[j]) == g
                   && snapshots[j].id == id && KeptByRule(snapshots, p, cal, j) {
        assert j in sorted;
        var a :| 0 <= a < |sorted| && sorted[a] == j;
        assert KeptAt(snapshots, p, cal, sorted, a);
      }
    }
  }

  ghost function Before(sorted: seq<nat>, a: nat): set<nat>
    requires a <= |sorted|
  {
    set b | 0 <= b < a :: sorted[b]
  }

  // Who is ahead of an entry of the sorted group is who stands before it.
  lemma AheadIsBefore(snapshots: seq<Snapshot>, p: Policy, g: GroupKey, sorted: seq<nat>, a: nat)
    requires Within(sorted, |snapshots|) && InOrder(snapshots, sorted) && a < |sorted|
    requires forall i: nat :: i in sorted <==> i < |snapshots| && Matches(p, snapshots[i]) && GroupOf(snapshots[i]) == g
    ensures Ahead(snapshots, p, sorted[a]) == Before(sorted, a)
  {
  }

  lemma {:induction false} BeforeSize(snapshots: seq<Snapshot>, sorted: seq<nat>, a: nat)
    requires Within(sorted, |snapshots|) && InOrder(snapshots, sorted) && a <= |sorted|
    ensures |Before(sorted, a)| == a
  {
    if a == 0 {
    } else {
      BeforeSize(snapshots, sorted, a - 1);
      assert Before(sorted, a) == Before(sorted, a - 1) + {sorted[a - 1]};
      forall b | 0 <= b < a - 1 ensures sorted[b] != sorted[a - 1] {
        assert Precedes(snapshots, sorted[b], sorted[a - 1]);
      }
    }
  }

  method KeepLast(snapshots: seq<Snapshot>, sorted: seq<nat>, n: nat) returns (ids: set<string>)
    requires Within(sorted, |snapshots|) && InOrder(snapshots, sorted)
    ensures forall id :: id in ids <==>
              exists a :: 0 <= a < |sorted| && AmongLast(Before(sorted, a), Some(n)) && snapshots[sorted[a]].id == id
  {
    ids := {};
    var count := if n < |sorted| then n else |sorted|;
    for a := 0 to count
      invariant forall id :: id in ids <==> exists b :: 0 <= b < a && snapshots[sorted[b]].id == id
    {
      ids := ids + {snapshots[sorted[a]].id};
    }
    forall a | 0 <= a < |sorted| ensures AmongLast(Before(sorted, a), Some(n)) <==> a < count {
      BeforeSize(snapshots, sorted, a);
    }
  }

  lemma BucketsStep(snapshots: seq<Snapshot>, sorted: seq<nat>, key: int -> string, a: nat)
    requires Within(sorted, |snapshots|) && a < |sorted|
    ensures Buckets(snapshots, Before(sorted, a + 1), key)
            == Buckets(snapshots, Before(sorted, a), key) + {key(snapshots[sorted[a]].startedAt)}
  {
  }

  ghost predicate KeptBefore(snapshots: seq<Snapshot>, sorted: seq<nat>, key: int -> string, n: Option<nat>, end: nat,
                             id: string)
    requires Within(sorted, |snapshots|) && end <= |sorted|
  {
    exists a :: 0 <= a < end && OpensBucket(snapshots, Before(sorted, a), key, n, sorted[a])
              && snapshots[sorted[a]].id == id
  }

  // The greedy scan: the first of each bucket, until n buckets are seen.
  method KeepBuckets(snapshots: seq<Snapshot>, sorted: seq<nat>, key: int -> string, n: Option<nat>)
    returns (ids: set<string>)
    requires Within(sorted, |snapshots|)
    ensures forall id :: id in ids <==> KeptBefore(snapshots, sorted, key, n, |sorted|, id)
  {
    ids := {};
    if n.None? {
      return;
    }
    var seen: set<string> := {};
    for a := 0 to |sorted|
      invariant seen <= Buckets(snapshots, Before(sorted, a), key) && |seen| <= n.value
      invariant |seen| < n.value ==> seen == Buckets(snapshots, Before(sorted, a), key)
      invariant forall id :: id in ids <==> KeptBefore(snapshots, sorted, key, n, a, id)
    {
      var bucket := key(snapshots[sorted[a]].startedAt);
      ghost var all := Buckets(snapshots, Before(sorted, a), key);
      BucketsStep(snapshots, sorted, key, a);
      Sets.SubsetSize(seen, all);
      assert OpensBucket(snapshots, Before(sorted, a), key, n, sorted[a]) <==> |seen| < n.value && bucket !in seen;
      if |seen| < n.value && bucket !in seen {
        seen := seen + {bucket};
        ids := ids + {snapshots[sorted[a]].id};
      }
    }
  }
}
