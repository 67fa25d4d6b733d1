// What forget keeps and removes, in terms of the snapshots' own fields: engine,
// database, tag and start time.
module RetentionFields {
  import opened Wrappers
  import opened Codecs
  import opened Retention
  import opened RetentionTheorems
  import Sets

  // Of one group: neither another database nor another tag counts.
  predicate SameGroup(a: Snapshot, b: Snapshot) {
    a.engine == b.engine && a.database == b.database && a.tag == b.tag
  }

  // j is kept, is of i's group and is not older.
  ghost predicate KeptInstead(snapshots: seq<Snapshot>, p: Policy, cal: Calendar, j: nat, i: nat)
    requires i < |snapshots|
  {
    && j < |snapshots| && j != i && Retained(snapshots, p, cal, j)
    && SameGroup(snapshots[j], snapshots[i]) && snapshots[j].startedAt >= snapshots[i].startedAt
  }

  // The later snapshots of i's group.
  ghost function Newer(snapshots: seq<Snapshot>, i: nat): set<nat>
    requires i < |snapshots|
  {
    set j: nat | j < |snapshots| && SameGroup(snapshots[j], snapshots[i])
                 && snapshots[j].startedAt > snapshots[i].startedAt
  }

  // One of the four calendar rules, with the key that is its own.
  ghost predicate HasRule(p: Policy, cal: Calendar, key: int -> string, n: nat) {
    || (key == cal.hour && p.keepHourly == Some(n)) || (key == cal.day && p.keepDaily == Some(n))
    || (key == cal.week && p.keepWeekly == Some(n)) || (key == cal.month && p.keepMonthly == Some(n))
  }

  // ------------------------------------------------------- a group, in order

  ghost function Members(snapshots: seq<Snapshot>, p: Policy, g: GroupKey, n: nat): (members: seq<nat>)
    requires n <= |snapshots|
    ensures Within(members, n) && Increasing(members)
    ensures forall i: nat :: i in members <==> i < n && Matches(p, snapshots[i]) && GroupOf(snapshots[i]) == g
  {
    if n == 0 then []
    else
      Members(snapshots, p, g, n - 1)
      + if Matches(p, snapshots[n - 1]) && GroupOf(snapshots[n - 1]) == g then [n - 1] else []
  }

  // Where i stands among its group, newest first.
  lemma Placed(snapshots: seq<Snapshot>, p: Policy, i: nat) returns (sorted: seq<nat>, b: nat)
    requires i < |snapshots| && Matches(p, snapshots[i])
    ensures Within(sorted, |snapshots|) && InOrder(snapshots, sorted) && b < |sorted| && sorted[b] == i
    ensures forall a :: 0 <= a < |sorted| ==>
              SameGroup(snapshots[sorted[a]], snapshots[i]) && Matches(p, snapshots[sorted[a]])
    ensures forall a :: 0 <= a < |sorted| ==> Ahead(snapshots, p, sorted[a]) == Before(sorted, a)
  {
    var g := GroupOf(snapshots[i]);
    var members := Members(snapshots, p, g, |snapshots|);
    sorted := Newest(snapshots, members);
    NewestOrders(snapshots, members);
    assert i in sorted;
    b :| 0 <= b < |sorted| && sorted[b] == i;
    hide Ahead, Before, InOrder;
    forall a | 0 <= a < |sorted|
      ensures SameGroup(snapshots[sorted[a]], snapshots[i]) && Matches(p, snapshots[sorted[a]])
      ensures Ahead(snapshots, p, sorted[a]) == Before(sorted, a)
    {
      assert sorted[a] in sorted;
      AheadIsBefore(snapshots, p, g, sorted, a);
    }
  }

  lemma Earlier(snapshots: seq<Snapshot>, sorted: seq<nat>, a: nat, b: nat)
    requires Within(sorted, |snapshots|) && InOrder(snapshots, sorted) && a < b < |sorted|
    ensures sorted[a] != sorted[b] && snapshots[sorted[a]].startedAt >= snapshots[sorted[b]].startedAt
  {
    assert Precedes(snapshots, sorted[a], sorted[b]);
  }

  // ------------------------------------------------------------ what removes

  // What is outside the filter, or meets a policy without rules, is kept.
  lemma RemovedIsSelected(snapshots: seq<Snapshot>, p: Policy, cal: Calendar, i: nat)
    requires i < |snapshots| && !Retained(snapshots, p, cal, i)
    ensures p.database.Some? ==> snapshots[i].database == p.database.value
    ensures p.tag.Some? ==> snapshots[i].tag == Some(p.tag.value)
    ensures || p.keepLast.Some? || p.keepHourly.Some? || p.keepDaily.Some? || p.keepWeekly.Some? || p.keepMonthly.Some?
  {
    assert !Spared(snapshots, p, cal, i);
  }

  // For what "keep last n" removes, n snapshots of the group that are not older
  // are kept.
  lemma LastKeepsNewest(snapshots: seq<Snapshot>, p: Policy, cal: Calendar, i: nat) returns (kept: set<nat>)
    requires DistinctIds(snapshots) && i < |snapshots| && p.keepLast.Some? && !Retained(snapshots, p, cal, i)
    ensures |kept| == p.keepLast.value && forall j :: j in kept ==> KeptInstead(snapshots, p, cal, j, i)
  {
    var n := p.keepLast.value;
    KeptExactly(snapshots, p, cal, i);
    var sorted, b := Placed(snapshots, p, i);
    hide Ahead, InOrder, Matches, OpensBucket, Retained, Precedes, SameGroup;
    BeforeSize(snapshots, sorted, b);
    kept := Before(sorted, n);
    BeforeSize(snapshots, sorted, n);
    forall a | 0 <= a < n ensures KeptInstead(snapshots, p, cal, sorted[a], i) {
      BeforeSize(snapshots, sorted, a);
      KeptExactly(snapshots, p, cal, sorted[a]);
      Earlier(snapshots, sorted, a, b);
    }
  }

  // The buckets of the first b entries.
  ghost function Seen(snapshots: seq<Snapshot>, sorted: seq<nat>, key: int -> string, b: nat): set<string>
    requires Within(sorted, |snapshots|) && b <= |sorted|
  {
    Buckets(snapshots, Before(sorted, b), key)
  }

  lemma SeenNext(snapshots: seq<Snapshot>, sorted: seq<nat>, key: int -> string, b: nat)
    requires Within(sorted, |snapshots|) && b < |sorted|
    ensures Seen(snapshots, sorted, key, b + 1)
            == Seen(snapshots, sorted, key, b) + {key(snapshots[sorted[b]].startedAt)}
  {
    BucketsStep(snapshots, sorted, key, b);
  }

  // These opened a bucket up to b, one for each bucket, up to n of them.
  ghost predicate AreOpeners(snapshots: seq<Snapshot>, sorted: seq<nat>, key: int -> string, n: nat, b: nat,
                             open: set<nat>)
    requires Within(sorted, |snapshots|) && b <= |sorted|
  {
    var buckets := Seen(snapshots, sorted, key, b);
    && (forall j :: j in open ==> OpenedBy(snapshots, sorted, key, n, b, j))
    && ApartIn(snapshots, key, open)
    && |open| == (if |buckets| < n then |buckets| else n)
    && (|buckets| <= n ==> Covered(snapshots, key, buckets, open))
  }

  ghost predicate Opens(snapshots: seq<Snapshot>, sorted: seq<nat>, key: int -> string, n: nat, a: nat)
    requires Within(sorted, |snapshots|) && a < |sorted|
  {
    OpensBucket(snapshots, Before(sorted, a), key, Some(n), sorted[a])
  }

  ghost predicate OpenedBy(snapshots: seq<Snapshot>, sorted: seq<nat>, key: int -> string, n: nat, b: nat, j: nat)
    requires Within(sorted, |snapshots|) && b <= |sorted|
  {
    exists a :: 0 <= a < b && sorted[a] == j && Opens(snapshots, sorted, key, n, a)
  }

  predicate InBucket(snapshots: seq<Snapshot>, key: int -> string, j: nat, k: string) {
    j < |snapshots| && key(snapshots[j].startedAt) == k
  }

  // Each of these buckets has one of them.
  ghost predicate Covered(snapshots: seq<Snapshot>, key: int -> string, buckets: set<string>, open: set<nat>) {
    forall k :: k in buckets ==> exists j :: j in open && InBucket(snapshots, key, j, k)
  }

  // No two of them are in one bucket.
  ghost predicate ApartIn(snapshots: seq<Snapshot>, key: int -> string, open: set<nat>) {
    forall j, k :: j in open && k in open && j != k && k < |snapshots| ==>
      !InBucket(snapshots, key, j, key(snapshots[k].startedAt))
  }

  lemma OpenersAdd(snapshots: seq<Snapshot>, sorted: seq<nat>, key: int -> string, n: nat, b: nat, open: set<nat>)
    requires Within(sorted, |snapshots|) && b < |sorted| && AreOpeners(snapshots, sorted, key, n, b, open)
    requires Opens(snapshots, sorted, key, n, b)
    ensures AreOpeners(snapshots, sorted, key, n, b + 1, open + {sorted[b]})
  {
    hide OpenedBy, Seen, ApartIn, InBucket, Opens, Covered;
    var v, buckets := sorted[b], Seen(snapshots, sorted, key, b);
    SeenNext(snapshots, sorted, key, b);
    OpenedNow(snapshots, sorted, key, n, b);
    forall j | j in open
      ensures j < |snapshots| && key(snapshots[j].startedAt) in buckets && OpenedBy(snapshots, sorted, key, n, b + 1, j)
    {
      OpenedEarlier(snapshots, sorted, key, n, b, j);
    }
    NewBucket(snapshots, key, buckets, open, v);
  }

  lemma OpenedNow(snapshots: seq<Snapshot>, sorted: seq<nat>, key: int -> string, n: nat, b: nat)
    requires Within(sorted, |snapshots|) && b < |sorted|
    requires Opens(snapshots, sorted, key, n, b)
    ensures OpenedBy(snapshots, sorted, key, n, b + 1, sorted[b])
    ensures var buckets := Seen(snapshots, sorted, key, b);
            |buckets| < n && key(snapshots[sorted[b]].startedAt) !in buckets
  {
  }

  lemma OpenedEarlier(snapshots: seq<Snapshot>, sorted: seq<nat>, key: int -> string, n: nat, b: nat, j: nat)
    requires Within(sorted, |snapshots|) && b < |sorted| && OpenedBy(snapshots, sorted, key, n, b, j)
    ensures j < |snapshots| && key(snapshots[j].startedAt) in Seen(snapshots, sorted, key, b)
    ensures OpenedBy(snapshots, sorted, key, n, b + 1, j)
  {
    var a :| 0 <= a < b && sorted[a] == j && Opens(snapshots, sorted, key, n, a);
    assert j in Before(sorted, b);
  }

  // An entry of a bucket not seen before joins.
  lemma NewBucket(snapshots: seq<Snapshot>, key: int -> string, buckets: set<string>, open: set<nat>, v: nat)
    requires v < |snapshots| && key(snapshots[v].startedAt) !in buckets && ApartIn(snapshots, key, open)
    requires forall j :: j in open ==> j < |snapshots| && key(snapshots[j].startedAt) in buckets
    requires Covered(snapshots, key, buckets, open)
    ensures ApartIn(snapshots, key, open + {v}) && |open + {v}| == |open| + 1
    ensures var k := key(snapshots[v].startedAt);
            && |buckets + {k}| == |buckets| + 1
            && Covered(snapshots, key, buckets + {k}, open + {v})
  {
    assert v !in open;
    forall l | l in buckets + {key(snapshots[v].startedAt)}
      ensures exists j :: j in open + {v} && InBucket(snapshots, key, j, l)
    {
      if l in buckets {
        var j :| j in open && InBucket(snapshots, key, j, l);
        assert j in open + {v};
      } else {
        assert v in open + {v} && InBucket(snapshots, key, v, l);
      }
    }
  }

  lemma OpenersStay(snapshots: seq<Snapshot>, sorted: seq<nat>, key: int -> string, n: nat, b: nat, open: set<nat>)
    requires Within(sorted, |snapshots|) && b < |sorted| && AreOpeners(snapshots, sorted, key, n, b, open)
    requires !Opens(snapshots, sorted, key, n, b)
    ensures AreOpeners(snapshots, sorted, key, n, b + 1, open)
  {
    var buckets := Seen(snapshots, sorted, key, b);
    var k := key(snapshots[sorted[b]].startedAt);
    SeenNext(snapshots, sorted, key, b);
    assert |buckets + {k}| == |buckets| + if k in buckets then 0 else 1 by {
      if k in buckets {
        assert buckets + {k} == buckets;
      }
    }
    forall j | j in open ensures OpenedBy(snapshots, sorted, key, n, b + 1, j) {
      assert OpenedBy(snapshots, sorted, key, n, b, j);
    }
    hide OpenedBy, Seen, InBucket;
    if k in buckets {
      assert buckets + {k} == buckets;
    }
  }

  lemma NoOpeners(snapshots: seq<Snapshot>, sorted: seq<nat>, key: int -> string, n: nat)
    requires Within(sorted, |snapshots|)
    ensures AreOpeners(snapshots, sorted, key, n, 0, {})
  {
    assert Seen(snapshots, sorted, key, 0) == {};
  }

  lemma {:induction false} Openers(snapshots: seq<Snapshot>, sorted: seq<nat>, key: int -> string, n: nat, b: nat)
    returns (open: set<nat>)
    requires Within(sorted, |snapshots|) && b <= |sorted|
    ensures AreOpeners(snapshots, sorted, key, n, b, open)
  {
    hide AreOpeners, Opens;
    if b == 0 {
      open := {};
      NoOpeners(snapshots, sorted, key, n);
    } else {
      open := Openers(snapshots, sorted, key, n, b - 1);
      if Opens(snapshots, sorted, key, n, b - 1) {
        OpenersAdd(snapshots, sorted, key, n, b - 1, open);
        open := open + {sorted[b - 1]};
      } else {
        OpenersStay(snapshots, sorted, key, n, b - 1, open);
      }
    }
  }

  // For what a calendar rule removes, either one of the same bucket that is not
  // older is kept, or n of different buckets are, none of them older.
  lemma BucketsKeepNewest(snapshots: seq<Snapshot>, p: Policy, cal: Calendar, key: int -> string, n: nat, i: nat)
    returns (kept: set<nat>)
    requires DistinctIds(snapshots) && i < |snapshots| && HasRule(p, cal, key, n) && !Retained(snapshots, p, cal, i)
    ensures (forall j :: j in kept ==> KeptInstead(snapshots, p, cal, j, i)) && ApartIn(snapshots, key, kept)
    ensures |kept| == n || exists j :: j in kept && InBucket(snapshots, key, j, key(snapshots[i].startedAt))
  {
    KeptExactly(snapshots, p, cal, i);
    var sorted, b := Placed(snapshots, p, i);
    kept := Openers(snapshots, sorted, key, n, b);
    hide Ahead, InOrder, Matches, Retained, Precedes, SameGroup;
    forall j | j in kept ensures KeptInstead(snapshots, p, cal, j, i) {
      assert OpenedBy(snapshots, sorted, key, n, b, j);
      var a :| 0 <= a < b && sorted[a] == j && Opens(snapshots, sorted, key, n, a);
      KeptExactly(snapshots, p, cal, j);
      Earlier(snapshots, sorted, a, b);
    }
    assert !Opens(snapshots, sorted, key, n, b);
  }

  // -------------------------------------------------------------- what keeps

  // The strictly newest of its group survives any rule with a number above zero.
  lemma NewestKept(snapshots: seq<Snapshot>, p: Policy, cal: Calendar, i: nat)
    requires i < |snapshots|
    requires forall j :: 0 <= j < |snapshots| && j != i && SameGroup(snapshots[j], snapshots[i]) ==>
               snapshots[j].startedAt < snapshots[i].startedAt
    requires || (p.keepLast.Some? && p.keepLast.value >= 1) || (p.keepHourly.Some? && p.keepHourly.value >= 1)
             || (p.keepDaily.Some? && p.keepDaily.value >= 1) || (p.keepWeekly.Some? && p.keepWeekly.value >= 1)
             || (p.keepMonthly.Some? && p.keepMonthly.value >= 1)
    ensures Retained(snapshots, p, cal, i)
  {
    assert Ahead(snapshots, p, i) == {};
    assert forall key :: Buckets(snapshots, {}, key) == {};
    assert KeptByRule(snapshots, p, cal, i);
    assert Spared(snapshots, p, cal, i);
  }

  // A rule keeps no more than it says: fewer than n newer ones, or the first of
  // its bucket with fewer than n buckets among the newer ones.
  lemma KeptForAReason(snapshots: seq<Snapshot>, p: Policy, cal: Calendar, i: nat)
    requires DistinctIds(snapshots) && i < |snapshots| && Retained(snapshots, p, cal, i)
    requires p.database.Some? ==> snapshots[i].database == p.database.value
    requires p.tag.Some? ==> snapshots[i].tag == Some(p.tag.value)
    requires || p.keepLast.Some? || p.keepHourly.Some? || p.keepDaily.Some? || p.keepWeekly.Some? || p.keepMonthly.Some?
    ensures || (p.keepLast.Some? && |Newer(snapshots, i)| < p.keepLast.value)
            || exists key, n :: HasRule(p, cal, key, n) && FirstOfFew(snapshots, key, n, i)
  {
    KeptExactly(snapshots, p, cal, i);
    var ahead := Ahead(snapshots, p, i);
    assert Newer(snapshots, i) <= ahead;
    Sets.SubsetSize(Newer(snapshots, i), ahead);
    if OpensBucket(snapshots, ahead, cal.hour, p.keepHourly, i) {
      FewBuckets(snapshots, ahead, cal.hour, p.keepHourly.value, i);
    } else if OpensBucket(snapshots, ahead, cal.day, p.keepDaily, i) {
      FewBuckets(snapshots, ahead, cal.day, p.keepDaily.value, i);
    } else if OpensBucket(snapshots, ahead, cal.week, p.keepWeekly, i) {
      FewBuckets(snapshots, ahead, cal.week, p.keepWeekly.value, i);
    } else if OpensBucket(snapshots, ahead, cal.month, p.keepMonthly, i) {
      FewBuckets(snapshots, ahead, cal.month, p.keepMonthly.value, i);
    }
  }

  ghost predicate FirstOfFew(snapshots: seq<Snapshot>, key: int -> string, n: nat, i: nat)
    requires i < |snapshots|
  {
    var buckets := set j | j in Newer(snapshots, i) :: key(snapshots[j].startedAt);
    key(snapshots[i].startedAt) !in buckets && |buckets| < n
  }

  lemma FewBuckets(snapshots: seq<Snapshot>, ahead: set<nat>, key: int -> string, n: nat, i: nat)
    requires i < |snapshots| && Newer(snapshots, i) <= ahead && forall j :: j in ahead ==> j < |snapshots|
    requires OpensBucket(snapshots, ahead, key, Some(n), i)
    ensures FirstOfFew(snapshots, key, n, i)
  {
    var buckets := set j | j in Newer(snapshots, i) :: key(snapshots[j].startedAt);
    Sets.SubsetSize(buckets, Buckets(snapshots, ahead, key));
  }

  // The planner: what it removes has newer ones kept for it under every rule
  // given, and the newest of a group is removed only if every number is zero.
  method Forget(snapshots: seq<Snapshot>, p: Policy, cal: Calendar) returns (plan: Plan)
    requires DistinctIds(snapshots)
    ensures forall i: nat :: i < |snapshots| ==> (i in plan.keep <==> i !in plan.remove)
    ensures forall i :: i in plan.remove && p.keepLast.Some? ==>
              i < |snapshots| && |NotOlder(snapshots, plan.keep, i)| >= p.keepLast.value
    ensures forall i :: i in plan.remove && i < |snapshots| && Counts(p) ==>
              exists j :: j in plan.keep && j < |snapshots| && SameGroup(snapshots[j], snapshots[i])
                          && snapshots[j].startedAt >= snapshots[i].startedAt
  {
    plan := EvaluateRetention(snapshots, p, cal);
    hide Retained, SameGroup;
    forall i | i in plan.remove && p.keepLast.Some?
      ensures i < |snapshots| && |NotOlder(snapshots, plan.keep, i)| >= p.keepLast.value
    {
      var kept := LastKeepsNewest(snapshots, p, cal, i);
      Sets.SubsetSize(kept, NotOlder(snapshots, plan.keep, i));
    }
    forall i | i in plan.remove && i < |snapshots| && Counts(p)
      ensures exists j :: j in plan.keep && j < |snapshots| && SameGroup(snapshots[j], snapshots[i])
                          && snapshots[j].startedAt >= snapshots[i].startedAt
    {
      var j := SomeoneKept(snapshots, p, cal, i);
    }
  }

  // The kept ones of i's group that are not older.
  function NotOlder(snapshots: seq<Snapshot>, keep: seq<nat>, i: nat): set<nat>
    requires i < |snapshots|
  {
    set j | j in keep && j < |snapshots| && SameGroup(snapshots[j], snapshots[i])
            && snapshots[j].startedAt >= snapshots[i].startedAt
  }

  // Some rule has a number above zero.
  predicate Counts(p: Policy) {
    || (p.keepLast.Some? && p.keepLast.value >= 1) || (p.keepHourly.Some? && p.keepHourly.value >= 1)
    || (p.keepDaily.Some? && p.keepDaily.value >= 1) || (p.keepWeekly.Some? && p.keepWeekly.value >= 1)
    || (p.keepMonthly.Some? && p.keepMonthly.value >= 1)
  }

  lemma SomeoneKept(snapshots: seq<Snapshot>, p: Policy, cal: Calendar, i: nat) returns (j: nat)
    requires DistinctIds(snapshots) && i < |snapshots| && Counts(p) && !Retained(snapshots, p, cal, i)
    ensures KeptInstead(snapshots, p, cal, j, i)
  {
    var kept;
    if p.keepLast.Some? && p.keepLast.value >= 1 {
      kept := LastKeepsNewest(snapshots, p, cal, i);
    } else if p.keepHourly.Some? && p.keepHourly.value >= 1 {
      kept := BucketsKeepNewest(snapshots, p, cal, cal.hour, p.keepHourly.value, i);
    } else if p.keepDaily.Some? && p.keepDaily.value >= 1 {
      kept := BucketsKeepNewest(snapshots, p, cal, cal.day, p.keepDaily.value, i);
    } else if p.keepWeekly.Some? && p.keepWeekly.value >= 1 {
      kept := BucketsKeepNewest(snapshots, p, cal, cal.week, p.keepWeekly.value, i);
    } else {
      kept := BucketsKeepNewest(snapshots, p, cal, cal.month, p.keepMonthly.value, i);
    }
    assert kept != {};
    j := Sets.Some(kept);
  }
}
