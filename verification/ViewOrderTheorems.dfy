// What the view order guarantees: dependencies first, cycles left to the end,
// one result whatever the order of the input.
module ViewOrderTheorems {
  import opened Names
  import opened ViewOrder
  import Sets

  // ------------------------------------------------------- dependencies first

  // At its place, each view is the least of the ready ones.
  lemma {:induction false} KahnPlaces(views: Views, edges: Edges, visited: set<Oid>, k: nat)
    requires k < |Kahn(views, edges, visited)|
    ensures var order := Kahn(views, edges, visited);
            var before := visited + Members(order[..k]);
            Ready(views, edges, before) <= views.Keys && IsLeast(views, Ready(views, edges, before), order[k])
    decreases k
  {
    var v := Least(views, Ready(views, edges, visited));
    var rest := Kahn(views, edges, visited + {v});
    if k == 0 {
      assert visited + Members([]) == visited;
    } else {
      KahnPlaces(views, edges, visited + {v}, k - 1);
      assert ([v] + rest)[..k] == [v] + rest[..k - 1];
      assert visited + {v} + Members(rest[..k - 1]) == visited + Members([v] + rest[..k - 1]);
    }
  }

  // The sort is a permutation: every view once.
  lemma EveryViewOnce(views: Views, edges: Edges, out: seq<View>)
    requires Keyed(views) && Sorted(views, edges, out)
    ensures Lists(views, views.Keys, out)
  {
    hide Kahn, Lists;
    var order := Kahn(views, edges, {});
    var n := |order|;
    KahnInjective(views, edges, {});
    assert Images(views, order, out[..n]);
    ImagesListed(views, order, out[..n]);
    ListsAppend(views, Members(order), views.Keys - Members(order), out[..n], out[n..]);
    assert out[..n] + out[n..] == out;
    assert Members(order) + (views.Keys - Members(order)) == views.Keys;
  }

  predicate Injective(order: seq<Oid>) {
    forall i, j :: 0 <= i < j < |order| ==> order[i] != order[j]
  }

  lemma ImagesListed(views: Views, order: seq<Oid>, out: seq<View>)
    requires Keyed(views) && Images(views, order, out) && Injective(order)
    ensures Lists(views, Members(order), out)
  {
  }

  lemma ListsAppend(views: Views, oids: set<Oid>, more: set<Oid>, out: seq<View>, rest: seq<View>)
    requires Lists(views, oids, out) && Lists(views, more, rest) && oids !! more
    ensures Lists(views, oids + more, out + rest)
  {
    var all := out + rest;
    forall oid | oid in oids + more ensures exists i :: 0 <= i < |all| && all[i].oid == oid {
      if oid in oids {
        var i :| 0 <= i < |out| && out[i].oid == oid;
        assert all[i].oid == oid;
      } else {
        var i :| 0 <= i < |rest| && rest[i].oid == oid;
        assert all[|out| + i].oid == oid;
      }
    }
  }

  lemma {:induction false} KahnInjective(views: Views, edges: Edges, visited: set<Oid>)
    ensures Injective(Kahn(views, edges, visited))
    decreases views.Keys - visited
  {
    var ready := Ready(views, edges, visited);
    if ready == {} {
    } else {
      var v := Least(views, ready);
      assert v in views.Keys - visited && v !in views.Keys - (visited + {v});
      KahnInjective(views, edges, visited + {v});
      var rest := Kahn(views, edges, visited + {v});
      assert forall k :: 0 <= k < |rest| ==> rest[k] !in visited + {v};
      assert Kahn(views, edges, visited) == [v] + rest;
    }
  }

  ghost function OidsOf(out: seq<View>): set<Oid> {
    set i | 0 <= i < |out| :: out[i].oid
  }

  // A view outside the fallback comes after all it refers to, and it was the
  // least by (schema, name, oid) of the views whose references were done.
  lemma ReferencedFirst(views: Views, edges: Edges, out: seq<View>, i: nat)
    requires Keyed(views) && Sorted(views, edges, out) && i < |out| && out[i].oid !in Leftover(views, edges)
    ensures var before := OidsOf(out[..i]);
            && References(edges, out[i].oid) <= before
            && Ready(views, edges, before) <= views.Keys
            && IsLeast(views, Ready(views, edges, before), out[i].oid)
  {
    hide Kahn;
    var order := Kahn(views, edges, {});
    if i >= |order| {
      RestIsLeftover(views, edges, out, i);
      assert false;
    }
    KahnPlaces(views, edges, {}, i);
    assert OidsOf(out[..i]) == {} + Members(order[..i]) by {
      forall k | 0 <= k < i ensures out[..i][k].oid == order[..i][k] {
      }
      SameOids(out[..i], order[..i]);
    }
  }

  lemma RestIsLeftover(views: Views, edges: Edges, out: seq<View>, i: nat)
    requires Sorted(views, edges, out) && |Kahn(views, edges, {})| <= i < |out|
    ensures out[i].oid in Leftover(views, edges)
  {
  }

  lemma SameOids(out: seq<View>, order: seq<Oid>)
    requires |out| == |order| && forall k :: 0 <= k < |out| ==> out[k].oid == order[k]
    ensures OidsOf(out) == Members(order)
  {
  }

  // ------------------------------------------------------------------ cycles

  ghost predicate RefersInto(edges: Edges, v: Oid, s: set<Oid>) {
    exists r :: r in s && (v, r) in edges
  }

  ghost predicate SelfSupporting(edges: Edges, s: set<Oid>) {
    forall v :: v in s ==> RefersInto(edges, v, s)
  }

  ghost predicate AllRelevant(views: Views, edges: Edges) {
    forall e :: e in edges ==> Relevant(views, e)
  }

  lemma {:induction false} NobodyReadyAtTheEnd(views: Views, edges: Edges, visited: set<Oid>)
    ensures Ready(views, edges, visited + Members(Kahn(views, edges, visited))) == {}
    decreases views.Keys - visited
  {
    var ready := Ready(views, edges, visited);
    if ready == {} {
      assert visited + Members([]) == visited;
    } else {
      var v := Least(views, ready);
      assert v in views.Keys - visited && v !in views.Keys - (visited + {v});
      NobodyReadyAtTheEnd(views, edges, visited + {v});
      var rest := Kahn(views, edges, visited + {v});
      assert visited + {v} + Members(rest) == visited + Members([v] + rest);
    }
  }

  // A set in which each view needs another member is never begun.
  lemma {:induction false} NeverBegun(views: Views, edges: Edges, visited: set<Oid>, s: set<Oid>)
    requires SelfSupporting(edges, s) && s !! visited
    ensures s !! Members(Kahn(views, edges, visited))
    decreases views.Keys - visited
  {
    var ready := Ready(views, edges, visited);
    if ready == {} {
    } else {
      var v := Least(views, ready);
      assert v in views.Keys - visited && v !in views.Keys - (visited + {v});
      NeverBegun(views, edges, visited + {v}, s);
      assert Members([v] + Kahn(views, edges, visited + {v})) == {v} + Members(Kahn(views, edges, visited + {v}));
    }
  }

  // The fallback takes exactly the greatest set of views in which each one
  // refers to another member.
  lemma FallbackIsGreatest(views: Views, edges: Edges)
    requires AllRelevant(views, edges)
    ensures SelfSupporting(edges, Leftover(views, edges))
    ensures forall s: set<Oid> :: s <= views.Keys && SelfSupporting(edges, s) ==> s <= Leftover(views, edges)
  {
    hide Kahn;
    var order := Kahn(views, edges, {});
    NobodyReadyAtTheEnd(views, edges, {});
    assert {} + Members(order) == Members(order);
    forall v | v in Leftover(views, edges) ensures RefersInto(edges, v, Leftover(views, edges)) {
      assert v !in Ready(views, edges, Members(order));
      var r :| r in References(edges, v) && r !in Members(order);
      assert (v, r) in edges && Relevant(views, (v, r));
    }
    forall s: set<Oid> | s <= views.Keys && SelfSupporting(edges, s) ensures s <= Leftover(views, edges) {
      NeverBegun(views, edges, {}, s);
    }
  }

  ghost predicate Walk(edges: Edges, path: seq<Oid>) {
    forall k :: 0 <= k < |path| - 1 ==> (path[k], path[k + 1]) in edges
  }

  ghost predicate Cycle(edges: Edges, path: seq<Oid>) {
    path != [] && Walk(edges, path) && (path[|path| - 1], path[0]) in edges
  }

  lemma WalkOn(edges: Edges, path: seq<Oid>, r: Oid)
    requires path != [] && Walk(edges, path) && (path[|path| - 1], r) in edges
    ensures Walk(edges, path + [r])
  {
  }

  lemma {:induction false} LongWalk(edges: Edges, s: set<Oid>, n: nat) returns (path: seq<Oid>)
    requires SelfSupporting(edges, s) && s != {}
    ensures |path| == n + 1 && Walk(edges, path) && (forall k :: 0 <= k < |path| ==> path[k] in s)
  {
    if n == 0 {
      path := [Sets.Some(s)];
    } else {
      path := LongWalk(edges, s, n - 1);
      hide Walk;
      assert RefersInto(edges, path[n - 1], s);
      var r :| r in s && (path[n - 1], r) in edges;
      WalkOn(edges, path, r);
      path := path + [r];
    }
  }

  lemma {:induction false} DistinctSize(path: seq<Oid>)
    requires forall i, j :: 0 <= i < j < |path| ==> path[i] != path[j]
    ensures |Members(path)| == |path|
  {
    if path == [] {
    } else {
      DistinctSize(path[1..]);
      assert path == [path[0]] + path[1..];
      assert Members(path) == {path[0]} + Members(path[1..]);
      assert path[0] !in path[1..];
    }
  }

  lemma SomeRepeat(path: seq<Oid>, s: set<Oid>)
    requires |path| > |s| && forall k :: 0 <= k < |path| ==> path[k] in s
    ensures exists i, j :: 0 <= i < j < |path| && path[i] == path[j]
  {
    if forall i, j :: 0 <= i < j < |path| ==> path[i] != path[j] {
      DistinctSize(path);
      assert Members(path) <= s;
      Sets.SubsetSize(Members(path), s);
    }
  }

  lemma Between(edges: Edges, path: seq<Oid>, i: nat, j: nat)
    requires Walk(edges, path) && i < j < |path| && path[i] == path[j]
    ensures Cycle(edges, path[i..j])
  {
  }

  lemma CycleWithin(edges: Edges, s: set<Oid>) returns (cycle: seq<Oid>)
    requires SelfSupporting(edges, s) && s != {}
    ensures Cycle(edges, cycle)
  {
    var path := LongWalk(edges, s, |s|);
    hide *;
    SomeRepeat(path, s);
    var i, j :| 0 <= i < j < |path| && path[i] == path[j];
    Between(edges, path, i, j);
    cycle := path[i..j];
  }

  lemma CycleSupports(views: Views, edges: Edges, cycle: seq<Oid>, v: Oid)
    requires AllRelevant(views, edges) && Cycle(edges, cycle) && v in Members(cycle)
    ensures v in views && RefersInto(edges, v, Members(cycle))
  {
    var k :| 0 <= k < |cycle| && cycle[k] == v;
    var r := if k + 1 < |cycle| then cycle[k + 1] else cycle[0];
    assert r in Members(cycle) && (v, r) in edges;
    assert Relevant(views, (v, r));
  }

  lemma Supports(edges: Edges, s: set<Oid>)
    requires forall v :: v in s ==> RefersInto(edges, v, s)
    ensures SelfSupporting(edges, s)
  {
  }

  lemma CycleSupportsItself(views: Views, edges: Edges, cycle: seq<Oid>)
    requires AllRelevant(views, edges) && Cycle(edges, cycle)
    ensures SelfSupporting(edges, Members(cycle)) && Members(cycle) <= views.Keys && Members(cycle) != {}
  {
    hide AllRelevant, Walk, RefersInto;
    var members := Members(cycle);
    assert cycle[0] in members;
    hide *;
    forall v | v in members ensures v in views.Keys && RefersInto(edges, v, members) {
      CycleSupports(views, edges, cycle, v);
    }
    assert members <= views.Keys;
    Supports(edges, members);
  }

  // The fallback is used if and only if the views refer to each other in a cycle.
  lemma FallbackOnlyForCycles(views: Views, edges: Edges)
    requires AllRelevant(views, edges)
    ensures Leftover(views, edges) != {} <==> exists cycle :: Cycle(edges, cycle)
  {
    FallbackIsGreatest(views, edges);
    if Leftover(views, edges) != {} {
      var cycle := CycleWithin(edges, Leftover(views, edges));
    }
    if cycle :| Cycle(edges, cycle) {
      CycleSupportsItself(views, edges, cycle);
    }
  }

  // Without cycles, in the whole result a referenced view precedes its users.
  lemma AcyclicInOrder(views: Views, edges: Edges, out: seq<View>)
    requires Keyed(views) && AllRelevant(views, edges) && Sorted(views, edges, out)
    requires !exists cycle :: Cycle(edges, cycle)
    ensures Lists(views, views.Keys, out)
    ensures forall i, j :: 0 <= i < |out| && 0 <= j < |out| && (out[i].oid, out[j].oid) in edges ==> j < i
  {
    FallbackOnlyForCycles(views, edges);
    EveryViewOnce(views, edges, out);
    forall i, j | 0 <= i < |out| && 0 <= j < |out| && (out[i].oid, out[j].oid) in edges ensures j < i {
      ReferencedFirst(views, edges, out, i);
      assert out[j].oid in References(edges, out[i].oid);
      var k :| 0 <= k < i && out[..i][k].oid == out[j].oid;
      assert out[k].oid == out[j].oid;
    }
  }

  // -------------------------------------------------------------- one result

  predicate DistinctOids(list: seq<View>) {
    forall i, j :: 0 <= i < j < |list| ==> list[i].oid != list[j].oid
  }

  predicate DistinctNames(list: seq<View>) {
    forall i, j :: 0 <= i < j < |list| ==> NameOf(list[i]) != NameOf(list[j])
  }

  lemma {:induction false} ViewMapHolds(list: seq<View>)
    requires DistinctOids(list)
    ensures forall v :: v in list <==> v.oid in ViewMap(list) && ViewMap(list)[v.oid] == v
  {
    if list == [] {
    } else {
      var n := |list| - 1;
      ViewMapHolds(list[..n]);
      assert list == list[..n] + [list[n]];
      forall v | v in list[..n] ensures v.oid != list[n].oid {
        var i :| 0 <= i < n && list[i] == v;
      }
    }
  }

  lemma SameMap(list: seq<View>, other: seq<View>)
    requires DistinctOids(list) && DistinctOids(other) && forall v :: v in list <==> v in other
    ensures ViewMap(list) == ViewMap(other)
  {
    ViewMapHolds(list);
    ViewMapHolds(other);
    var a, b := ViewMap(list), ViewMap(other);
    forall oid ensures oid in a <==> oid in b {
      if oid in a {
        assert a[oid].oid == oid && a[oid] in list;
      }
      if oid in b {
        assert b[oid].oid == oid && b[oid] in other;
      }
    }
    forall oid | oid in a ensures a[oid] == b[oid] {
      assert a[oid].oid == oid && a[oid] in list;
    }
  }

  lemma Listed(views: Views, oids: set<Oid>, list: seq<View>, oid: Oid) returns (k: nat)
    requires Lists(views, oids, list) && oid in oids
    ensures k < |list| && list[k].oid == oid
  {
    k :| 0 <= k < |list| && list[k].oid == oid;
  }

  ghost predicate NamesDiffer(views: Views, oids: set<Oid>) {
    forall a, b :: a in oids && b in oids && a in views && b in views && NameOf(views[a]) == NameOf(views[b]) ==> a == b
  }

  lemma SameFirst(views: Views, oids: set<Oid>, out: seq<View>, other: seq<View>)
    requires ByName(out) && ByName(other) && Lists(views, oids, out) && Lists(views, oids, other)
             && NamesDiffer(views, oids)
    requires out != [] && other != []
    ensures out[0] == other[0]
  {
    var k := Listed(views, oids, other, out[0].oid);
    var m := Listed(views, oids, out, other[0].oid);
    SameHead(out, other, k, m);
  }

  lemma {:induction false} SameRest(views: Views, oids: set<Oid>, out: seq<View>, other: seq<View>)
    requires ByName(out) && ByName(other) && Lists(views, oids, out) && Lists(views, oids, other)
             && NamesDiffer(views, oids)
    ensures out == other
    decreases |out|
  {
    hide Lists, NamesDiffer;
    if out == [] {
      if other != [] {
        ListsTail(views, oids, other);
        var k := Listed(views, oids, out, other[0].oid);
      }
    } else if other == [] {
      ListsTail(views, oids, out);
      var k := Listed(views, oids, other, out[0].oid);
    } else {
      SameFirst(views, oids, out, other);
      ListsTail(views, oids, out);
      ListsTail(views, oids, other);
      FewerDiffer(views, oids, out[0].oid);
      SameRest(views, oids - {out[0].oid}, out[1..], other[1..]);
      assert out == [out[0]] + out[1..] && other == [other[0]] + other[1..];
    }
  }

  lemma FewerDiffer(views: Views, oids: set<Oid>, oid: Oid)
    requires NamesDiffer(views, oids)
    ensures NamesDiffer(views, oids - {oid})
  {
  }

  lemma SameHead(out: seq<View>, other: seq<View>, k: nat, m: nat)
    requires ByName(out) && ByName(other) && k < |other| && m < |out|
    requires NameOf(other[k]) == NameOf(out[0]) && NameOf(out[m]) == NameOf(other[0])
    ensures NameOf(out[0]) == NameOf(other[0])
  {
    PairTotal(NameOf(out[0]), NameOf(other[0]));
  }

  // With distinct oids and names the result depends on the views and on the
  // references among them only: not on the order of either list or of the hash
  // map, nor on repeated, foreign or self references, cycles or not.
  lemma OneResult(list: seq<View>, other: seq<View>, deps: seq<(Oid, Oid)>, otherDeps: seq<(Oid, Oid)>,
                  out: seq<View>, otherOut: seq<View>)
    requires DistinctOids(list) && DistinctOids(other) && DistinctNames(list) && forall v :: v in list <==> v in other
    requires forall d :: Relevant(ViewMap(list), d) ==> (d in deps <==> d in otherDeps)
    requires Sorted(ViewMap(list), EdgesOf(ViewMap(list), deps), out)
    requires Sorted(ViewMap(other), EdgesOf(ViewMap(other), otherDeps), otherOut)
    ensures out == otherOut
  {
    hide Kahn, ByName, Lists;
    SameMap(list, other);
    var views := ViewMap(list);
    var edges := EdgesOf(views, deps);
    assert edges == EdgesOf(views, otherDeps);
    var n := |Kahn(views, edges, {})|;
    NamesIdentify(list);
    SameRest(views, Leftover(views, edges), out[n..], otherOut[n..]);
    assert out[..n] == otherOut[..n];
    assert out == out[..n] + out[n..] && otherOut == otherOut[..n] + otherOut[n..];
  }

  lemma NamesIdentify(list: seq<View>)
    requires DistinctOids(list) && DistinctNames(list)
    ensures NamesDiffer(ViewMap(list), ViewMap(list).Keys)
  {
    ViewMapHolds(list);
    var views := ViewMap(list);
    forall a, b | a in views && b in views && NameOf(views[a]) == NameOf(views[b]) ensures a == b {
      assert views[a].oid == a && views[b].oid == b;
      var i :| 0 <= i < |list| && list[i] == views[a];
      var j :| 0 <= j < |list| && list[j] == views[b];
    }
  }
}
