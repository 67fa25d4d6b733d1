// The order in which views are created: a referenced view before its users.
module ViewOrder {
  import opened Names
  import Sets

  newtype Oid = x: int | -0x8000_0000_0000_0000 <= x < 0x8000_0000_0000_0000

  datatype View = View(oid: Oid, schema: string, name: string, definition: string, isMaterialized: bool)

  type Views = map<Oid, View>

  // An edge (v, r): view v refers to view r.
  type Edges = set<(Oid, Oid)>

  predicate Keyed(views: Views) {
    forall oid :: oid in views ==> views[oid].oid == oid
  }

  function NameOf(v: View): (string, string) {
    (v.schema, v.name)
  }

  // The (schema, name, oid) order.
  predicate NoLater(views: Views, a: Oid, b: Oid)
    requires a in views && b in views
  {
    if NameOf(views[a]) == NameOf(views[b]) then a <= b else PairAtMost(NameOf(views[a]), NameOf(views[b]))
  }

  lemma NoLaterTotal(views: Views, a: Oid, b: Oid)
    requires a in views && b in views
    ensures NoLater(views, a, b) || NoLater(views, b, a)
    ensures NoLater(views, a, b) && NoLater(views, b, a) ==> a == b
  {
    PairTotal(NameOf(views[a]), NameOf(views[b]));
  }

  lemma NoLaterTransitive(views: Views, a: Oid, b: Oid, c: Oid)
    requires a in views && b in views && c in views && NoLater(views, a, b) && NoLater(views, b, c)
    ensures NoLater(views, a, c)
  {
    var x, y, z := NameOf(views[a]), NameOf(views[b]), NameOf(views[c]);
    PairTotal(x, y);
    if x != y && y != z {
      PairTransitive(x, y, z);
    }
  }

  ghost predicate IsLeast(views: Views, candidates: set<Oid>, v: Oid)
    requires candidates <= views.Keys
  {
    v in candidates && forall u :: u in candidates ==> NoLater(views, v, u)
  }

  lemma {:induction false} LeastExists(views: Views, candidates: set<Oid>)
    requires candidates <= views.Keys && candidates != {}
    ensures exists v :: IsLeast(views, candidates, v)
    decreases |candidates|
  {
    var w := Sets.Some(candidates);
    var rest := candidates - {w};
    NoLaterTotal(views, w, w);
    if rest == {} {
      assert candidates == {w};
      assert IsLeast(views, candidates, w);
    } else {
      LeastExists(views, rest);
      var u :| IsLeast(views, rest, u);
      NoLaterTotal(views, w, u);
      var v := if NoLater(views, w, u) then w else u;
      forall x | x in candidates ensures NoLater(views, v, x) {
        if x != w && v == w {
          NoLaterTransitive(views, w, u, x);
        }
      }
      assert IsLeast(views, candidates, v);
    }
  }

  // ------------------------------------------------------- the specification

  ghost function References(edges: Edges, v: Oid): set<Oid> {
    set e | e in edges && e.0 == v :: e.1
  }

  ghost function Ready(views: Views, edges: Edges, visited: set<Oid>): set<Oid> {
    set v | v in views && v !in visited && References(edges, v) <= visited
  }

  ghost function Least(views: Views, candidates: set<Oid>): (v: Oid)
    requires candidates <= views.Keys && candidates != {}
    ensures IsLeast(views, candidates, v)
  {
    LeastExists(views, candidates);
    var v :| IsLeast(views, candidates, v);
    v
  }

  // From the visited views on, the least of the ready ones, again and again.
  ghost function Kahn(views: Views, edges: Edges, visited: set<Oid>): (order: seq<Oid>)
    ensures forall k :: 0 <= k < |order| ==> order[k] in views && order[k] !in visited
    decreases views.Keys - visited
  {
    var ready := Ready(views, edges, visited);
    if ready == {} then [] else
      var v := Least(views, ready);
      assert v in views.Keys - visited && v !in views.Keys - (visited + {v});
      [v] + Kahn(views, edges, visited + {v})
  }

  ghost function Members(order: seq<Oid>): set<Oid> {
    set v | v in order
  }

  ghost function Leftover(views: Views, edges: Edges): set<Oid> {
    views.Keys - Members(Kahn(views, edges, {}))
  }

  ghost predicate ByName(out: seq<View>) {
    forall i, j :: 0 <= i < j < |out| ==> PairAtMost(NameOf(out[i]), NameOf(out[j]))
  }

  // What the sort returns: the greedy order, then what is left, by name.
  ghost predicate Sorted(views: Views, edges: Edges, out: seq<View>) {
    var order := Kahn(views, edges, {});
    && |order| <= |out|
    && (forall k :: 0 <= k < |order| ==> out[k] == views[order[k]])
    && ByName(out[|order|..])
    && Lists(views, views.Keys - Members(order), out[|order|..])
  }

  // Each of the views with these oids, once.
  ghost predicate Lists(views: Views, oids: set<Oid>, out: seq<View>) {
    && (forall i :: 0 <= i < |out| ==> out[i].oid in oids && out[i].oid in views && out[i] == views[out[i].oid])
    && (forall i, j :: 0 <= i < j < |out| ==> out[i].oid != out[j].oid)
    && (forall oid :: oid in oids ==> exists i :: 0 <= i < |out| && out[i].oid == oid)
  }

  // ------------------------------------------------------------- the method

  // Collected by oid; a later view replaces an earlier one of the same oid.
  function ViewMap(list: seq<View>): (views: Views)
    ensures Keyed(views)
  {
    if list == [] then map[] else ViewMap(list[..|list| - 1])[list[|list| - 1].oid := list[|list| - 1]]
  }

  predicate Relevant(views: Views, d: (Oid, Oid)) {
    d.0 in views && d.1 in views && d.0 != d.1
  }

  ghost function EdgesOf(views: Views, deps: seq<(Oid, Oid)>): Edges {
    set d | d in deps && Relevant(views, d)
  }

  ghost predicate Dependents(views: Views, edges: Edges, outDeps: map<Oid, seq<Oid>>) {
    && outDeps.Keys == views.Keys
    && (forall r, v :: r in outDeps ==> (v in outDeps[r] <==> (v, r) in edges))
  }

  ghost predicate Pending(views: Views, edges: Edges, visited: set<Oid>, inDeps: map<Oid, set<Oid>>) {
    && inDeps.Keys == views.Keys
    && (forall v :: v in inDeps ==> inDeps[v] == References(edges, v) - visited)
  }

  // The views not yet visited that wait for nothing.
  ghost function Free(inDeps: map<Oid, set<Oid>>, visited: set<Oid>): set<Oid> {
    set v | v in inDeps && v !in visited && inDeps[v] == {}
  }

  method SortViewsTopologically(list: seq<View>, deps: seq<(Oid, Oid)>) returns (out: seq<View>)
    ensures Sorted(ViewMap(list), EdgesOf(ViewMap(list), deps), out)
  {
    hide Sorted, Kahn, Lists, ByName;
    var views := Collect(list);
    ghost var edges := EdgesOf(views, deps);
    var inDeps, outDeps := Graph(views, deps);
    var visited;
    out, visited := Schedule(views, edges, inDeps, outDeps);
    if |out| < |views| {
      var remaining := Remaining(views, visited);
      SortSorts(views, views.Keys - visited, remaining);
      Assembled(views, edges, out, SortByName(remaining));
      out := out + SortByName(remaining);
    } else {
      Exhausted(views, edges);
      NothingLeft(views);
      Assembled(views, edges, out, []);
      assert out + [] == out;
    }
  }

  lemma NothingLeft(views: Views)
    ensures ByName([]) && Lists(views, {}, [])
  {
  }

  lemma Assembled(views: Views, edges: Edges, front: seq<View>, rest: seq<View>)
    requires Images(views, Kahn(views, edges, {}), front)
    requires ByName(rest) && Lists(views, views.Keys - Members(Kahn(views, edges, {})), rest)
    ensures Sorted(views, edges, front + rest)
  {
  }

  method Collect(list: seq<View>) returns (views: Views)
    ensures views == ViewMap(list) && Keyed(views)
  {
    views := map[];
    for i := 0 to |list|
      invariant views == ViewMap(list[..i])
    {
      assert list[..i + 1][..i] == list[..i];
      views := views[list[i].oid := list[i]];
    }
    assert list[..|list|] == list;
  }

  method Graph(views: Views, deps: seq<(Oid, Oid)>) returns (inDeps: map<Oid, set<Oid>>, outDeps: map<Oid, seq<Oid>>)
    ensures Pending(views, EdgesOf(views, deps), {}, inDeps)
    ensures Dependents(views, EdgesOf(views, deps), outDeps)
  {
    inDeps := map oid | oid in views :: {};
    outDeps := map oid | oid in views :: [];
    NoEdges(views, inDeps, outDeps);
    hide EdgesOf, Pending, Dependents;
    for i := 0 to |deps|
      invariant Pending(views, EdgesOf(views, deps[..i]), {}, inDeps)
      invariant Dependents(views, EdgesOf(views, deps[..i]), outDeps)
    {
      var (v, r) := deps[i];
      EdgesStep(views, deps, i);
      ghost var edges := EdgesOf(views, deps[..i]);
      if v in views && r in views && v != r {
        PendingStep(views, edges, inDeps, v, r);
        DependentsStep(views, edges, outDeps, v, r);
        inDeps := inDeps[v := inDeps[v] + {r}];
        outDeps := outDeps[r := outDeps[r] + [v]];
      }
    }
    assert deps[..|deps|] == deps;
  }

  lemma NoEdges(views: Views, inDeps: map<Oid, set<Oid>>, outDeps: map<Oid, seq<Oid>>)
    requires inDeps == (map oid | oid in views :: {}) && outDeps == (map oid | oid in views :: [])
    ensures Pending(views, EdgesOf(views, []), {}, inDeps) && Dependents(views, EdgesOf(views, []), outDeps)
  {
  }

  lemma EdgesStep(views: Views, deps: seq<(Oid, Oid)>, i: nat)
    requires i < |deps|
    ensures EdgesOf(views, deps[..i + 1])
            == EdgesOf(views, deps[..i]) + if Relevant(views, deps[i]) then {deps[i]} else {}
  {
  }

  lemma PendingStep(views: Views, edges: Edges, inDeps: map<Oid, set<Oid>>, v: Oid, r: Oid)
    requires Pending(views, edges, {}, inDeps) && v in views
    ensures v in inDeps && Pending(views, edges + {(v, r)}, {}, inDeps[v := inDeps[v] + {r}])
  {
  }

  lemma DependentsStep(views: Views, edges: Edges, outDeps: map<Oid, seq<Oid>>, v: Oid, r: Oid)
    requires Dependents(views, edges, outDeps) && r in views
    ensures r in outDeps && Dependents(views, edges + {(v, r)}, outDeps[r := outDeps[r] + [v]])
  {
  }

  // The views named by an order of oids.
  ghost predicate Images(views: Views, order: seq<Oid>, out: seq<View>) {
    |out| == |order| && forall k :: 0 <= k < |order| ==> order[k] in views && out[k] == views[order[k]]
  }

  method Schedule(views: Views, ghost edges: Edges, pendingOf: map<Oid, set<Oid>>, outDeps: map<Oid, seq<Oid>>)
    returns (out: seq<View>, visited: set<Oid>)
    requires Pending(views, edges, {}, pendingOf) && Dependents(views, edges, outDeps)
    requires forall e :: e in edges ==> Relevant(views, e)
    ensures Images(views, Kahn(views, edges, {}), out) && visited == Members(Kahn(views, edges, {}))
  {
    hide Kahn, Ready, References, Pending, NoLater;
    var inDeps := pendingOf;
    var ready := InitiallyReady(views, edges, inDeps);
    out, visited := [], {};
    ghost var done: seq<Oid> := [];
    assert [] + Kahn(views, edges, {}) == Kahn(views, edges, {});
    while ready != {}
      invariant Pending(views, edges, visited, inDeps) && ready == Free(inDeps, visited)
      invariant ready == Ready(views, edges, visited) && ready <= views.Keys
      invariant visited == Members(done) && visited <= views.Keys && Images(views, done, out)
      invariant done + Kahn(views, edges, visited) == Kahn(views, edges, {})
      decreases views.Keys - visited
    {
      LeastExists(views, ready);
      var v :| v in ready && forall u :: u in ready ==> NoLater(views, v, u);
      KahnStep(views, edges, visited, v);
      assert v in views.Keys - visited;
      assert done + ([v] + Kahn(views, edges, visited + {v})) == done + [v] + Kahn(views, edges, visited + {v});
      assert Members(done + [v]) == visited + {v};
      done := done + [v];
      inDeps, ready := Release(views, edges, inDeps, outDeps, visited, ready, v);
      visited := visited + {v};
      out := out + [views[v]];
    }
    KahnStops(views, edges, visited);
    assert done + [] == done;
  }

  method InitiallyReady(views: Views, ghost edges: Edges, inDeps: map<Oid, set<Oid>>) returns (ready: set<Oid>)
    requires Pending(views, edges, {}, inDeps)
    ensures ready == Free(inDeps, {}) && ready == Ready(views, edges, {}) && ready <= views.Keys
  {
    ready := set v | v in inDeps && inDeps[v] == {};
    FreeIsReady(views, edges, {}, inDeps);
    assert ready == Free(inDeps, {});
  }

  // The inner loop: v is done, and its dependents no longer wait for it.
  method Release(views: Views, ghost edges: Edges, pendingOf: map<Oid, set<Oid>>, outDeps: map<Oid, seq<Oid>>,
                 done: set<Oid>, readyBefore: set<Oid>, v: Oid)
    returns (inDeps: map<Oid, set<Oid>>, ready: set<Oid>)
    requires Pending(views, edges, done, pendingOf) && Dependents(views, edges, outDeps) && v in views
    requires forall e :: e in edges ==> Relevant(views, e)
    requires readyBefore == Free(pendingOf, done)
    ensures Pending(views, edges, done + {v}, inDeps) && ready == Free(inDeps, done + {v})
    ensures ready == Ready(views, edges, done + {v}) && ready <= views.Keys
  {
    hide References, Ready;
    var visited := done + {v};
    inDeps, ready := pendingOf, readyBefore - {v};
    var dependents := outDeps[v];
    for i := 0 to |dependents|
      invariant inDeps.Keys == views.Keys == pendingOf.Keys
      invariant Waiting(pendingOf, v, dependents[..i], inDeps)
      invariant ready == Free(inDeps, visited)
    {
      var u := dependents[i];
      assert u in dependents && (u, v) in edges;
      var pending := inDeps[u] - {v};
      WaitingStep(pendingOf, v, dependents, i, inDeps);
      FreeStep(inDeps, visited, u, pending);
      hide *;
      inDeps := inDeps[u := pending];
      if pending == {} && u !in visited {
        ready := ready + {u};
      }
    }
    assert dependents[..|dependents|] == dependents;
    PendingAfter(views, edges, done, pendingOf, outDeps, v, inDeps);
    FreeIsReady(views, edges, visited, inDeps);
  }

  ghost predicate Waiting(pendingOf: map<Oid, set<Oid>>, v: Oid, released: seq<Oid>, inDeps: map<Oid, set<Oid>>) {
    && inDeps.Keys == pendingOf.Keys
    && forall u :: u in inDeps ==> inDeps[u] == if u in released then pendingOf[u] - {v} else pendingOf[u]
  }

  lemma WaitingStep(pendingOf: map<Oid, set<Oid>>, v: Oid, dependents: seq<Oid>, i: nat, inDeps: map<Oid, set<Oid>>)
    requires i < |dependents| && dependents[i] in inDeps && Waiting(pendingOf, v, dependents[..i], inDeps)
    ensures Waiting(pendingOf, v, dependents[..i + 1], inDeps[dependents[i] := inDeps[dependents[i]] - {v}])
  {
  }

  // Taking entries away from one set of references can only make its view free.
  lemma FreeStep(inDeps: map<Oid, set<Oid>>, visited: set<Oid>, u: Oid, pending: set<Oid>)
    requires u in inDeps && pending <= inDeps[u]
    ensures Free(inDeps[u := pending], visited)
            == Free(inDeps, visited) + if pending == {} && u !in visited then {u} else {}
  {
  }

  lemma PendingAfter(views: Views, edges: Edges, done: set<Oid>, pendingOf: map<Oid, set<Oid>>,
                     outDeps: map<Oid, seq<Oid>>, v: Oid, inDeps: map<Oid, set<Oid>>)
    requires Pending(views, edges, done, pendingOf) && Dependents(views, edges, outDeps) && v in views
    requires Waiting(pendingOf, v, outDeps[v], inDeps)
    ensures Pending(views, edges, done + {v}, inDeps)
  {
  }

  lemma FreeIsReady(views: Views, edges: Edges, visited: set<Oid>, inDeps: map<Oid, set<Oid>>)
    requires Pending(views, edges, visited, inDeps)
    ensures Free(inDeps, visited) == Ready(views, edges, visited) && Ready(views, edges, visited) <= views.Keys
  {
    forall v | v in views && v !in visited ensures inDeps[v] == {} <==> References(edges, v) <= visited {
      if inDeps[v] == {} {
        forall r | r in References(edges, v) ensures r in visited {
          assert r !in inDeps[v];
        }
      }
    }
  }

  lemma KahnStep(views: Views, edges: Edges, visited: set<Oid>, v: Oid)
    requires Ready(views, edges, visited) <= views.Keys && IsLeast(views, Ready(views, edges, visited), v)
    ensures Kahn(views, edges, visited) == [v] + Kahn(views, edges, visited + {v})
  {
    var least := Least(views, Ready(views, edges, visited));
    NoLaterTotal(views, v, least);
  }

  lemma KahnStops(views: Views, edges: Edges, visited: set<Oid>)
    requires Ready(views, edges, visited) == {}
    ensures Kahn(views, edges, visited) == []
  {
  }

  lemma {:induction false} KahnDistinct(views: Views, edges: Edges, visited: set<Oid>)
    ensures |Members(Kahn(views, edges, visited))| == |Kahn(views, edges, visited)|
    decreases views.Keys - visited
  {
    var ready := Ready(views, edges, visited);
    if ready == {} {
    } else {
      var v := Least(views, ready);
      assert v in views.Keys - visited && v !in views.Keys - (visited + {v});
      KahnDistinct(views, edges, visited + {v});
      var rest := Kahn(views, edges, visited + {v});
      assert Members([v] + rest) == {v} + Members(rest);
    }
  }

  // No view is left over when the order is as long as the list of views.
  lemma Exhausted(views: Views, edges: Edges)
    requires |Kahn(views, edges, {})| >= |views|
    ensures views.Keys - Members(Kahn(views, edges, {})) == {}
  {
    var members := Members(Kahn(views, edges, {}));
    KahnDistinct(views, edges, {});
    assert members <= views.Keys && |views.Keys| == |views|;
    Sets.SubsetSize(members, views.Keys);
  }

  // The values of the hash map, in whatever order it yields them.
  method Remaining(views: Views, visited: set<Oid>) returns (remaining: seq<View>)
    requires Keyed(views)
    ensures Lists(views, views.Keys - visited, remaining)
  {
    remaining := [];
    var left := set oid | oid in views && oid !in visited :: views[oid];
    ghost var taken: set<Oid> := {};
    while left != {}
      invariant forall v :: v in left ==> v.oid in views && v.oid !in visited && v == views[v.oid]
      invariant forall oid :: oid in taken <==> oid in views && oid !in visited && views[oid] !in left
      invariant Lists(views, taken, remaining)
      decreases |left|
    {
      var v :| v in left;
      ListsSnoc(views, taken, remaining, v.oid);
      remaining := remaining + [v];
      left := left - {v};
      taken := taken + {v.oid};
    }
    forall oid ensures oid in taken <==> oid in views.Keys - visited {
    }
    assert taken == views.Keys - visited;
  }

  lemma ListsSnoc(views: Views, oids: set<Oid>, list: seq<View>, oid: Oid)
    requires Keyed(views) && Lists(views, oids, list) && oid in views && oid !in oids
    ensures Lists(views, oids + {oid}, list + [views[oid]])
  {
    var longer := list + [views[oid]];
    forall u | u in oids + {oid} ensures exists i :: 0 <= i < |longer| && longer[i].oid == u {
      if u == oid {
        assert longer[|list|].oid == u;
      } else {
        var i :| 0 <= i < |list| && list[i].oid == u;
        assert longer[i].oid == u;
      }
    }
  }

  lemma ListsCons(views: Views, oids: set<Oid>, v: View, list: seq<View>)
    requires Lists(views, oids, list) && v.oid in views && v == views[v.oid] && v.oid !in oids
    ensures Lists(views, oids + {v.oid}, [v] + list)
  {
    var longer := [v] + list;
    forall u | u in oids + {v.oid} ensures exists i :: 0 <= i < |longer| && longer[i].oid == u {
      if u == v.oid {
        assert longer[0].oid == u;
      } else {
        var i :| 0 <= i < |list| && list[i].oid == u;
        assert longer[i + 1].oid == u;
      }
    }
  }

  lemma ListsTail(views: Views, oids: set<Oid>, list: seq<View>)
    requires Lists(views, oids, list) && list != []
    ensures list[0].oid in oids && Lists(views, oids - {list[0].oid}, list[1..])
  {
  }

  // Vec::sort_by on (schema, name): a stable sort.
  function SortByName(list: seq<View>): seq<View> {
    if list == [] then [] else InsertByName(list[0], SortByName(list[1..]))
  }

  function InsertByName(v: View, sorted: seq<View>): (out: seq<View>)
    ensures forall i :: 0 <= i < |out| ==> out[i] == v || out[i] in sorted
  {
    if sorted == [] || PairAtMost(NameOf(v), NameOf(sorted[0])) then [v] + sorted
    else [sorted[0]] + InsertByName(v, sorted[1..])
  }

  lemma {:induction false} InsertKeepsOrder(v: View, sorted: seq<View>)
    requires ByName(sorted)
    ensures ByName(InsertByName(v, sorted))
  {
    if sorted == [] {
    } else if PairAtMost(NameOf(v), NameOf(sorted[0])) {
      forall j | 0 < j < |sorted| ensures PairAtMost(NameOf(v), NameOf(sorted[j])) {
        PairTransitive(NameOf(v), NameOf(sorted[0]), NameOf(sorted[j]));
      }
    } else {
      PairTotal(NameOf(v), NameOf(sorted[0]));
      InsertKeepsOrder(v, sorted[1..]);
      var rest := InsertByName(v, sorted[1..]);
      forall j | 0 <= j < |rest| ensures PairAtMost(NameOf(sorted[0]), NameOf(rest[j])) {
        if rest[j] != v {
          var k :| 0 <= k < |sorted[1..]| && sorted[1..][k] == rest[j];
          assert rest[j] == sorted[k + 1];
        }
      }
    }
  }

  lemma {:induction false} InsertLists(views: Views, oids: set<Oid>, v: View, sorted: seq<View>)
    requires Lists(views, oids, sorted) && v.oid in views && v == views[v.oid] && v.oid !in oids
    ensures Lists(views, oids + {v.oid}, InsertByName(v, sorted))
    decreases |sorted|
  {
    hide Lists;
    if sorted == [] || PairAtMost(NameOf(v), NameOf(sorted[0])) {
      ListsCons(views, oids, v, sorted);
    } else {
      ListsTail(views, oids, sorted);
      var h := sorted[0];
      HeadListed(views, oids, sorted);
      InsertLists(views, oids - {h.oid}, v, sorted[1..]);
      ListsCons(views, oids - {h.oid} + {v.oid}, h, InsertByName(v, sorted[1..]));
      assert oids - {h.oid} + {v.oid} + {h.oid} == oids + {v.oid};
    }
  }

  lemma HeadListed(views: Views, oids: set<Oid>, list: seq<View>)
    requires Lists(views, oids, list) && list != []
    ensures list[0].oid in oids && list[0].oid in views && list[0] == views[list[0].oid]
  {
  }

  lemma {:induction false} SortSorts(views: Views, oids: set<Oid>, list: seq<View>)
    requires Lists(views, oids, list)
    ensures ByName(SortByName(list)) && Lists(views, oids, SortByName(list))
    decreases |list|
  {
    hide ByName, InsertByName, PairAtMost;
    if list == [] {
      NothingLeft(views);
    } else {
      var h := list[0];
      hide Lists;
      ListsTail(views, oids, list);
      HeadListed(views, oids, list);
      SortSorts(views, oids - {h.oid}, list[1..]);
      InsertKeepsOrder(h, SortByName(list[1..]));
      InsertLists(views, oids - {h.oid}, h, SortByName(list[1..]));
      Sets.PutBack(oids, h.oid);
    }
  }

  // Views go by schema, then by name, then by oid.
  lemma OrderedByFields(views: Views, a: Oid, b: Oid)
    requires a in views && b in views && NoLater(views, a, b)
    ensures var v, w := views[a], views[b];
            && (v.schema != w.schema ==> exists n: nat :: ComesBefore(v.schema, w.schema, n))
            && (v.schema == w.schema && v.name != w.name ==> exists n: nat :: ComesBefore(v.name, w.name, n))
            && (v.schema == w.schema && v.name == w.name ==> a <= b)
  {
    AtMostMeans(views[a].schema, views[b].schema);
    AtMostMeans(views[a].name, views[b].name);
    hide AtMost, ComesBefore;
  }

  // And so do those that are left over at the end.
  lemma FallbackByFields(out: seq<View>, i: nat, j: nat)
    requires ByName(out) && i < j < |out|
    ensures out[i].schema != out[j].schema ==> exists n: nat :: ComesBefore(out[i].schema, out[j].schema, n)
    ensures out[i].schema == out[j].schema ==> exists n: nat :: ComesBefore(out[i].name, out[j].name, n)
  {
    AtMostMeans(out[i].schema, out[j].schema);
    AtMostMeans(out[i].name, out[j].name);
    hide AtMost, ComesBefore;
    assert PairAtMost(NameOf(out[i]), NameOf(out[j]));
  }
}
