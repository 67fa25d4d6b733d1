// The view order said of the lists that go in and come out: which view stands
// where, by its own fields and the pairs that say what it refers to.
module ViewOrderFields {
  import opened Names
  import opened ViewOrder
  import opened ViewOrderTheorems

  // A pair (v, w) says that the definition of v refers to w.
  predicate RefersTo(deps: seq<(Oid, Oid)>, v: View, w: View) {
    (v.oid, w.oid) in deps && v.oid != w.oid
  }

  ghost predicate EarlierName(v: View, w: View) {
    && (v.schema != w.schema ==> exists n: nat :: ComesBefore(v.schema, w.schema, n))
    && (v.schema == w.schema && v.name != w.name ==> exists n: nat :: ComesBefore(v.name, w.name, n))
  }

  // By schema, then name, then oid.
  ghost predicate Earlier(v: View, w: View) {
    EarlierName(v, w) && (v.schema == w.schema && v.name == w.name ==> v.oid <= w.oid)
  }

  // All that v refers to stands before place i.
  ghost predicate Served(list: seq<View>, deps: seq<(Oid, Oid)>, out: seq<View>, v: View, i: nat)
    requires i <= |out|
  {
    forall w :: w in list && RefersTo(deps, v, w) ==> w in out[..i]
  }

  // The view at place i follows all it refers to, and of all that could stand
  // there it is the earliest.
  ghost predicate InPlace(list: seq<View>, deps: seq<(Oid, Oid)>, out: seq<View>, i: nat)
    requires i < |out|
  {
    && Served(list, deps, out, out[i], i)
    && forall j: nat :: i < j < |out| && Served(list, deps, out, out[j], i) ==> Earlier(out[i], out[j])
  }

  // It refers to another view from place n on, and of these they go by name.
  ghost predicate LeftOver(deps: seq<(Oid, Oid)>, out: seq<View>, n: nat, i: nat)
    requires n <= i < |out|
  {
    && (exists j: nat :: n <= j < |out| && RefersTo(deps, out[i], out[j]))
    && forall j: nat :: i < j < |out| ==> EarlierName(out[i], out[j])
  }

  ghost predicate InOrder(list: seq<View>, deps: seq<(Oid, Oid)>, out: seq<View>, n: nat)
    requires n <= |out|
  {
    && (forall i: nat :: i < n ==> InPlace(list, deps, out, i))
    && (forall i: nat :: n <= i < |out| ==> LeftOver(deps, out, n, i))
  }

  // Views of the list that refer to each other round and round.
  ghost predicate Circle(list: seq<View>, deps: seq<(Oid, Oid)>, path: seq<View>) {
    && path != [] && (forall k :: 0 <= k < |path| ==> path[k] in list)
    && (forall k :: 0 <= k < |path| - 1 ==> RefersTo(deps, path[k], path[k + 1]))
    && RefersTo(deps, path[|path| - 1], path[0])
  }

  // ---------------------------------------------------------------- the parts

  lemma EdgesMean(list: seq<View>, deps: seq<(Oid, Oid)>, v: View, w: View)
    requires DistinctOids(list) && v in list && w in list
    ensures (v.oid, w.oid) in EdgesOf(ViewMap(list), deps) <==> RefersTo(deps, v, w)
  {
    ViewMapHolds(list);
  }

  lemma OneOfEach(list: seq<View>, out: seq<View>)
    requires DistinctOids(list) && Lists(ViewMap(list), ViewMap(list).Keys, out)
    ensures |out| == |list| && forall v :: v in out <==> v in list
  {
    ViewMapHolds(list);
    var views := ViewMap(list);
    forall v | v in list ensures v in out {
      var i :| 0 <= i < |out| && out[i].oid == v.oid;
      assert out[i] == views[v.oid] == v;
    }
    forall v | v in out ensures v in list {
      var i :| 0 <= i < |out| && out[i] == v;
      assert v == views[v.oid];
    }
    SameSize(list, out);
  }

  lemma SameSize(list: seq<View>, out: seq<View>)
    requires DistinctOids(list) && DistinctOids(out) && forall v :: v in out <==> v in list
    ensures |out| == |list|
  {
    var a := seq(|list|, i requires 0 <= i < |list| => list[i].oid);
    var b := seq(|out|, i requires 0 <= i < |out| => out[i].oid);
    DistinctSize(a);
    DistinctSize(b);
    forall x ensures x in Members(a) <==> x in Members(b) {
      if x in a {
        var i :| 0 <= i < |a| && a[i] == x;
        assert list[i] in out;
        var j :| 0 <= j < |out| && out[j] == list[i];
        assert b[j] == x;
      }
      if x in b {
        var i :| 0 <= i < |b| && b[i] == x;
        assert out[i] in list;
        var j :| 0 <= j < |list| && list[j] == out[i];
        assert a[j] == x;
      }
    }
    assert Members(a) == Members(b);
  }

  lemma OidBefore(out: seq<View>, i: nat, w: View)
    requires i <= |out| && w in out && forall a, b :: 0 <= a < b < |out| ==> out[a].oid != out[b].oid
    ensures w.oid in OidsOf(out[..i]) <==> w in out[..i]
  {
    if w.oid in OidsOf(out[..i]) {
      var k :| 0 <= k < i && out[..i][k].oid == w.oid;
      var m :| 0 <= m < |out| && out[m] == w;
      assert k == m;
      assert out[..i][k] == w;
    }
    if w in out[..i] {
      var k :| 0 <= k < i && out[..i][k] == w;
    }
  }

  // Served means that the references are done.
  lemma ServedMeans(list: seq<View>, deps: seq<(Oid, Oid)>, out: seq<View>, v: View, i: nat)
    requires DistinctOids(list) && Lists(ViewMap(list), ViewMap(list).Keys, out) && i <= |out| && v in list
    ensures Served(list, deps, out, v, i) <==> References(EdgesOf(ViewMap(list), deps), v.oid) <= OidsOf(out[..i])
  {
    var views, edges := ViewMap(list), EdgesOf(ViewMap(list), deps);
    ViewMapHolds(list);
    OneOfEach(list, out);
    hide Lists, ViewMap;
    if Served(list, deps, out, v, i) {
      forall r | r in References(edges, v.oid) ensures r in OidsOf(out[..i]) {
        var w := views[r];
        assert w.oid == r by { KeyedMap(list, r); }
        assert w in list && RefersTo(deps, v, w);
        OidBefore(out, i, w);
      }
    }
    if References(edges, v.oid) <= OidsOf(out[..i]) {
      forall w | w in list && RefersTo(deps, v, w) ensures w in out[..i] {
        EdgesMean(list, deps, v, w);
        assert w.oid in References(edges, v.oid);
        OidBefore(out, i, w);
      }
    }
  }

  lemma KeyedMap(list: seq<View>, oid: Oid)
    requires oid in ViewMap(list)
    ensures ViewMap(list)[oid].oid == oid
  {
    assert Keyed(ViewMap(list));
  }

  lemma Leads(views: Views, a: Oid, b: Oid)
    requires Keyed(views) && a in views && b in views && NoLater(views, a, b)
    ensures Earlier(views[a], views[b])
  {
    OrderedByFields(views, a, b);
    hide ComesBefore, NoLater;
  }

  // A view of the greedy part.
  lemma GreedyPlace(list: seq<View>, deps: seq<(Oid, Oid)>, out: seq<View>, i: nat)
    requires DistinctOids(list) && Sorted(ViewMap(list), EdgesOf(ViewMap(list), deps), out)
    requires i < |Kahn(ViewMap(list), EdgesOf(ViewMap(list), deps), {})| <= |out|
    ensures InPlace(list, deps, out, i)
  {
    var views, edges := ViewMap(list), EdgesOf(ViewMap(list), deps);
    EveryViewOnce(views, edges, out);
    OneOfEach(list, out);
    KahnPlacesOut(views, edges, out, i);
    hide Kahn, Sorted, Lists, Served, Earlier, NoLater;
    ViewMapHolds(list);
    assert out[i] in out;
    ServedMeans(list, deps, out, out[i], i);
    forall j: nat | i < j < |out| && Served(list, deps, out, out[j], i) ensures Earlier(out[i], out[j]) {
      assert out[j] in out;
      ServedMeans(list, deps, out, out[j], i);
      NotYet(views, out, i, j);
      assert out[j].oid in Ready(views, edges, OidsOf(out[..i]));
      Leads(views, out[i].oid, out[j].oid);
    }
  }

  lemma NotYet(views: Views, out: seq<View>, i: nat, j: nat)
    requires Lists(views, views.Keys, out) && i < j < |out|
    ensures out[j].oid !in OidsOf(out[..i]) && out[j].oid in views
  {
  }

  lemma KahnPlacesOut(views: Views, edges: Edges, out: seq<View>, i: nat)
    requires Keyed(views) && Sorted(views, edges, out) && i < |Kahn(views, edges, {})| <= |out|
    ensures var before := OidsOf(out[..i]);
            && References(edges, out[i].oid) <= before
            && Ready(views, edges, before) <= views.Keys
            && IsLeast(views, Ready(views, edges, before), out[i].oid)
  {
    var order := Kahn(views, edges, {});
    assert out[i].oid == order[i] && order[i] in Members(order);
    ReferencedFirst(views, edges, out, i);
  }

  // A view of the rest.
  lemma RestPlace(list: seq<View>, deps: seq<(Oid, Oid)>, out: seq<View>, i: nat)
    requires Sorted(ViewMap(list), EdgesOf(ViewMap(list), deps), out)
    requires |Kahn(ViewMap(list), EdgesOf(ViewMap(list), deps), {})| <= i < |out|
    ensures LeftOver(deps, out, |Kahn(ViewMap(list), EdgesOf(ViewMap(list), deps), {})|, i)
  {
    var views, edges := ViewMap(list), EdgesOf(ViewMap(list), deps);
    var j := RestRefers(views, deps, out, i);
    hide Kahn, Sorted, EarlierName, ViewMap, EdgesOf;
    forall j: nat | i < j < |out| ensures EarlierName(out[i], out[j]) {
      RestByName(views, edges, out, i, j);
    }
  }

  lemma RestRefers(views: Views, deps: seq<(Oid, Oid)>, out: seq<View>, i: nat) returns (j: nat)
    requires Sorted(views, EdgesOf(views, deps), out) && |Kahn(views, EdgesOf(views, deps), {})| <= i < |out|
    ensures |Kahn(views, EdgesOf(views, deps), {})| <= j < |out| && RefersTo(deps, out[i], out[j])
  {
    var edges := EdgesOf(views, deps);
    RestIsLeftover(views, edges, out, i);
    FallbackIsGreatest(views, edges);
    hide Kahn, Leftover, Sorted;
    assert RefersInto(edges, out[i].oid, Leftover(views, edges));
    var r :| r in Leftover(views, edges) && (out[i].oid, r) in edges;
    j := LeftoverAt(views, edges, out, r);
  }

  lemma LeftoverAt(views: Views, edges: Edges, out: seq<View>, r: Oid) returns (j: nat)
    requires Sorted(views, edges, out) && r in Leftover(views, edges)
    ensures |Kahn(views, edges, {})| <= j < |out| && out[j].oid == r
  {
    var n := |Kahn(views, edges, {})|;
    hide Kahn;
    var k :| 0 <= k < |out[n..]| && out[n..][k].oid == r;
    j := n + k;
  }

  lemma RestByName(views: Views, edges: Edges, out: seq<View>, i: nat, j: nat)
    requires Sorted(views, edges, out) && |Kahn(views, edges, {})| <= i < j < |out|
    ensures EarlierName(out[i], out[j])
  {
    var n := |Kahn(views, edges, {})|;
    hide Kahn;
    FallbackByFields(out[n..], i - n, j - n);
    hide ComesBefore;
  }

  lemma AllInOrder(list: seq<View>, deps: seq<(Oid, Oid)>, out: seq<View>)
    requires DistinctOids(list) && Sorted(ViewMap(list), EdgesOf(ViewMap(list), deps), out)
    ensures var n := |Kahn(ViewMap(list), EdgesOf(ViewMap(list), deps), {})|;
            n <= |out| && InOrder(list, deps, out, n)
  {
    var views, edges := ViewMap(list), EdgesOf(ViewMap(list), deps);
    var n := |Kahn(views, edges, {})|;
    assert n <= |out|;
    hide Kahn, Sorted, InPlace, LeftOver;
    forall i: nat | i < n ensures InPlace(list, deps, out, i) {
      GreedyPlace(list, deps, out, i);
    }
    forall i: nat | n <= i < |out| ensures LeftOver(deps, out, n, i) {
      RestPlace(list, deps, out, i);
    }
  }

  // ------------------------------------------------------------------ circles

  lemma CircleIsCycle(list: seq<View>, deps: seq<(Oid, Oid)>, path: seq<View>) returns (cycle: seq<Oid>)
    requires DistinctOids(list) && Circle(list, deps, path)
    ensures Cycle(EdgesOf(ViewMap(list), deps), cycle)
  {
    cycle := seq(|path|, k requires 0 <= k < |path| => path[k].oid);
    hide ViewMap;
    forall k | 0 <= k < |path| - 1 ensures (cycle[k], cycle[k + 1]) in EdgesOf(ViewMap(list), deps) {
      EdgesMean(list, deps, path[k], path[k + 1]);
    }
    EdgesMean(list, deps, path[|path| - 1], path[0]);
  }

  lemma CycleIsCircle(list: seq<View>, deps: seq<(Oid, Oid)>, cycle: seq<Oid>) returns (path: seq<View>)
    requires DistinctOids(list) && Cycle(EdgesOf(ViewMap(list), deps), cycle)
    ensures Circle(list, deps, path)
  {
    var views := ViewMap(list);
    CycleInViews(views, deps, cycle);
    path := seq(|cycle|, k requires 0 <= k < |cycle| => views[cycle[k]]);
    forall k | 0 <= k < |path| ensures path[k].oid == cycle[k] && path[k] in list {
      KeyedMap(list, cycle[k]);
      ViewMapHolds(list);
      assert views[path[k].oid] == path[k];
    }
    hide ViewMap;
    forall k | 0 <= k < |path| - 1 ensures RefersTo(deps, path[k], path[k + 1]) {
      assert (cycle[k], cycle[k + 1]) in EdgesOf(views, deps);
    }
  }

  lemma CycleInViews(views: Views, deps: seq<(Oid, Oid)>, cycle: seq<Oid>)
    requires Cycle(EdgesOf(views, deps), cycle)
    ensures forall k :: 0 <= k < |cycle| ==> cycle[k] in views
  {
    forall k | 0 <= k < |cycle| ensures cycle[k] in views {
      if k < |cycle| - 1 {
        assert (cycle[k], cycle[k + 1]) in EdgesOf(views, deps);
      }
    }
  }

  lemma FallbackExactly(list: seq<View>, deps: seq<(Oid, Oid)>, out: seq<View>)
    requires DistinctOids(list) && Sorted(ViewMap(list), EdgesOf(ViewMap(list), deps), out)
    ensures |Kahn(ViewMap(list), EdgesOf(ViewMap(list), deps), {})| < |out| <==> exists path :: Circle(list, deps, path)
  {
    var views, edges := ViewMap(list), EdgesOf(ViewMap(list), deps);
    FallbackOnlyForCycles(views, edges);
    if path: seq<View> :| Circle(list, deps, path) {
      var cycle := CircleIsCycle(list, deps, path);
    }
    if cycle: seq<Oid> :| Cycle(edges, cycle) {
      var path := CycleIsCircle(list, deps, cycle);
    }
    var n := |Kahn(views, edges, {})|;
    if n < |out| {
      RestIsLeftover(views, edges, out, n);
    }
    hide Kahn, Cycle, Circle;
    if Leftover(views, edges) != {} {
      var r :| r in Leftover(views, edges);
      var j := LeftoverAt(views, edges, out, r);
    }
  }

  // ------------------------------------------------------------------ the sort

  // Every view once; those up to n in order, which are all of them exactly if no
  // views refer to each other in a circle.
  method OrderViews(list: seq<View>, deps: seq<(Oid, Oid)>) returns (out: seq<View>, ghost n: nat)
    requires forall i, j :: 0 <= i < j < |list| ==> list[i].oid != list[j].oid
    ensures |out| == |list| && (forall v :: v in out <==> v in list)
    ensures n <= |out| && InOrder(list, deps, out, n)
    ensures n == |out| <==> !exists path :: Circle(list, deps, path)
  {
    out := SortViewsTopologically(list, deps);
    n := |Kahn(ViewMap(list), EdgesOf(ViewMap(list), deps), {})|;
    AllInOrder(list, deps, out);
    EveryViewOnce(ViewMap(list), EdgesOf(ViewMap(list), deps), out);
    OneOfEach(list, out);
    FallbackExactly(list, deps, out);
  }
}
