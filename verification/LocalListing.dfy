// Walking the local repository tree: listing objects and cleaning up.
module LocalListing {
  import opened Wrappers
  import opened Names
  import opened TempNames
  import opened LocalFiles

  // Every entry stands in a directory.
  ghost predicate IsTree(tree: Tree) {
    && [] in tree && tree[[]].Dir?
    && forall p :: p in tree && p != [] ==> Parent(p) in tree && tree[Parent(p)].Dir?
  }

  function Parent(p: Path): Path
    requires p != []
  {
    p[..|p| - 1]
  }

  function PathString(p: Path): string {
    if p == [] then "" else if |p| == 1 then p[0] else p[0] + "/" + PathString(p[1..])
  }

  // The names, with one slash between each two.
  lemma {:induction false} PathStringReads(p: Path, name: string)
    ensures PathString([name]) == name
    ensures p != [] ==> PathString(p + [name]) == PathString(p) + "/" + name
  {
    if |p| > 1 {
      PathStringReads(p[1..], name);
      assert (p + [name])[1..] == p[1..] + [name];
    } else if |p| == 1 {
      assert (p + [name])[1..] == [name];
    }
  }

  function Children(tree: Tree, dir: Path): set<Path> {
    set p | p in tree && |p| == |dir| + 1 && dir <= p
  }

  lemma {:induction false} AncestorsAreDirs(tree: Tree, p: Path, n: nat)
    requires IsTree(tree) && p in tree && n < |p|
    ensures p[..n] in tree && tree[p[..n]].Dir?
    decreases |p|
  {
    var parent := Parent(p);
    if n < |parent| {
      AncestorsAreDirs(tree, parent, n);
      assert parent[..n] == p[..n];
    } else {
      assert p[..n] == parent;
    }
  }

  // Entries still to visit, or below one of them.
  ghost predicate Under(pending: set<Path>, p: Path) {
    exists a :: a in pending && a <= p
  }

  predicate Wanted(tree: Tree, target: Path, p: Path) {
    p in tree && tree[p].File? && p != [] && target <= p && !IsTemp(NameOf(p))
  }

  predicate Once(paths: seq<Path>) {
    forall i, j :: 0 <= i < j < |paths| ==> paths[i] != paths[j]
  }

  // What is found so far is what is wanted outside the pending entries.
  ghost predicate Walked(tree: Tree, target: Path, found: seq<Path>, pending: set<Path>) {
    && Once(found)
    && (forall p :: p in found <==> Wanted(tree, target, p) && !Under(pending, p))
    && Frontier(tree, target, pending)
  }

  ghost predicate Frontier(tree: Tree, target: Path, pending: set<Path>) {
    && (forall a :: a in pending ==> a in tree && target <= a)
    && (forall a, b :: a in pending && b in pending && a <= b ==> a == b)
  }

  ghost function Below(tree: Tree, pending: set<Path>): set<Path> {
    set p | p in tree && Under(pending, p)
  }

  ghost function Expanded(tree: Tree, pending: set<Path>, dir: Path): set<Path> {
    pending - {dir} + Children(tree, dir)
  }

  lemma UnderExpanded(tree: Tree, target: Path, pending: set<Path>, dir: Path, p: Path)
    requires IsTree(tree) && Frontier(tree, target, pending) && dir in pending && p in tree
    ensures Under(Expanded(tree, pending, dir), p) <==> Under(pending, p) && p != dir
  {
    var expanded := Expanded(tree, pending, dir);
    if Under(pending, p) && p != dir {
      var a :| a in pending && a <= p;
      if a == dir {
        var n := |dir| + 1;
        if n < |p| {
          AncestorsAreDirs(tree, p, n);
        } else {
          assert p[..n] == p;
        }
        assert p[..n] in Children(tree, dir);
      } else {
        assert a in expanded;
      }
    }
    if Under(expanded, p) {
      var a :| a in expanded && a <= p;
      if a in Children(tree, dir) {
        assert dir <= a <= p;
      } else {
        assert a in pending && a != dir;
      }
      assert Under(pending, p);
      assert p == dir ==> a == dir || |a| > |p|;
    }
  }

  lemma FrontierExpanded(tree: Tree, target: Path, pending: set<Path>, dir: Path)
    requires Frontier(tree, target, pending) && dir in pending
    ensures Frontier(tree, target, Expanded(tree, pending, dir))
  {
  }

  // A directory gives way to its entries.
  lemma DirWalked(tree: Tree, target: Path, found: seq<Path>, pending: set<Path>, dir: Path)
    requires IsTree(tree) && Walked(tree, target, found, pending) && dir in pending && tree[dir].Dir?
    ensures Walked(tree, target, found, Expanded(tree, pending, dir))
    ensures Below(tree, Expanded(tree, pending, dir)) < Below(tree, pending)
  {
    assert dir in tree;
    hide Expanded, Under, Frontier;
    FrontierExpanded(tree, target, pending, dir);
    forall p | p in tree ensures Under(Expanded(tree, pending, dir), p) <==> Under(pending, p) && p != dir {
      UnderExpanded(tree, target, pending, dir, p);
    }
    SelfUnder(pending, dir);
    assert dir in Below(tree, pending);
  }

  lemma SelfUnder(pending: set<Path>, a: Path)
    requires a in pending
    ensures Under(pending, a)
  {
  }

  lemma UnderWithout(tree: Tree, target: Path, pending: set<Path>, file: Path, p: Path)
    requires IsTree(tree) && Frontier(tree, target, pending) && file in pending && tree[file].File? && p in tree
    ensures Under(pending - {file}, p) <==> Under(pending, p) && p != file
  {
    if Under(pending, p) && p != file {
      var a :| a in pending && a <= p;
      assert a == file ==> p[..|file|] == file && |file| < |p|;
      if a == file {
        AncestorsAreDirs(tree, p, |file|);
        assert false;
      }
      assert a in pending - {file};
    }
    if Under(pending - {file}, p) {
      var a :| a in pending - {file} && a <= p;
      assert Under(pending, p);
      assert p != file;
    }
  }

  // A file is found, unless it is temporary.
  lemma FileWalked(tree: Tree, target: Path, found: seq<Path>, pending: set<Path>, file: Path)
    requires IsTree(tree) && Walked(tree, target, found, pending) && file in pending && tree[file].File? && file != []
    ensures Walked(tree, target, if IsTemp(NameOf(file)) then found else found + [file], pending - {file})
  {
    hide Under;
    forall p | p in tree ensures Under(pending - {file}, p) <==> Under(pending, p) && p != file {
      UnderWithout(tree, target, pending, file, p);
    }
    SelfUnder(pending, file);
    assert file !in found;
  }

  lemma WalkStarts(tree: Tree, target: Path)
    requires target in tree
    ensures Walked(tree, target, [], {target})
  {
  }

  lemma WalkEnds(tree: Tree, target: Path, found: seq<Path>)
    requires Walked(tree, target, found, {})
    ensures Once(found) && forall p :: p in found <==> Wanted(tree, target, p)
  {
  }

  // ------------------------------------------- directories that cannot be read

  // The walk passes over a directory whose entries cannot be read, so of the
  // tree below `target` it sees what lies under readable directories only.
  predicate Concealed(target: Path, unreadable: set<Path>, p: Path) {
    exists d :: d in unreadable && target <= d < p
  }

  function Visible(tree: Tree, target: Path, unreadable: set<Path>): Tree {
    map p | p in tree && !Concealed(target, unreadable, p) :: tree[p]
  }

  lemma VisibleIsTree(tree: Tree, target: Path, unreadable: set<Path>)
    requires IsTree(tree)
    ensures IsTree(Visible(tree, target, unreadable))
    ensures target in tree ==> target in Visible(tree, target, unreadable)
  {
    forall p | p in tree && p != [] && Concealed(target, unreadable, Parent(p))
      ensures Concealed(target, unreadable, p)
    {
      ConcealedBelow(target, unreadable, p);
    }
    hide Concealed;
  }

  lemma ConcealedBelow(target: Path, unreadable: set<Path>, p: Path)
    requires p != [] && Concealed(target, unreadable, Parent(p))
    ensures Concealed(target, unreadable, p)
  {
    var d :| d in unreadable && target <= d < Parent(p);
    assert d < p;
  }

  lemma VisibleChildren(tree: Tree, target: Path, unreadable: set<Path>, dir: Path)
    requires dir in Visible(tree, target, unreadable) && target <= dir
    ensures Children(Visible(tree, target, unreadable), dir) == if dir in unreadable then {} else Children(tree, dir)
  {
    forall p | p in Children(tree, dir) ensures Concealed(target, unreadable, p) <==> dir in unreadable {
      assert target <= dir < p;
      if d :| d in unreadable && target <= d < p {
        PrefixOfChild(d, dir, p);
      }
    }
  }

  lemma PrefixOfChild(d: Path, dir: Path, p: Path)
    requires d < p && dir < p && |p| == |dir| + 1
    ensures d == dir || d < dir
  {
    assert d == p[..|d|] && dir == p[..|dir|];
  }

  function Strings(paths: seq<Path>): seq<string> {
    seq(|paths|, i requires 0 <= i < |paths| => PathString(paths[i]))
  }

  method ReadDir(tree: Tree, dir: Path) returns (entries: set<Path>)
    ensures entries == Children(tree, dir)
  {
    entries := set p | p in tree && |p| == |dir| + 1 && dir <= p;
  }

  // What a listing of `target` shows: of a directory, the object files at any
  // depth; of a file, nothing; of a name that is not there, the files beside it
  // whose path text begins with it, temporary or not.
  ghost predicate Shown(tree: Tree, target: Path, unreadable: set<Path>, p: Path) {
    if target in tree then tree[target].Dir? && Wanted(Visible(tree, target, unreadable), target, p)
    else if target != [] && Parent(target) in tree then BeginsWith(tree, target, p)
    else false
  }

  predicate BeginsWith(tree: Tree, target: Path, p: Path)
    requires target != []
  {
    p in Children(tree, Parent(target)) && tree[p].File? && PathString(target) <= PathString(p)
  }

  // Fails only where the entries beside a missing name cannot be read. The
  // result is sorted, except beside a missing name.
  method ListObjects(tree: Tree, target: Path, unreadable: set<Path>)
    returns (results: Option<seq<string>>, ghost found: seq<Path>)
    requires IsTree(tree)
    ensures results.None? <==>
              target !in tree && Parent(target) in tree && (tree[Parent(target)].File? || Parent(target) in unreadable)
    ensures results.Some? ==> Once(found) && (forall p :: p in found <==> Shown(tree, target, unreadable, p))
    ensures results.Some? ==> multiset(results.value) == multiset(Strings(found))
    ensures results.Some? && target in tree ==>
              results.value == SortedStrings(Strings(found)) && Ascending(results.value)
  {
    if target in tree && tree[target].Dir? {
      var all, walked := ListTree(tree, target, unreadable);
      return Some(all), walked;
    }
    if target in tree || Parent(target) !in tree {
      return Some([]), [];
    }
    if tree[Parent(target)].File? || Parent(target) in unreadable {
      return None, [];
    }
    var entries := ReadDir(tree, Parent(target));
    var list: seq<string> := [];
    found := [];
    while entries != {}
      invariant entries <= Children(tree, Parent(target)) && list == Strings(found) && Once(found)
      invariant forall p :: p in found <==> BeginsWith(tree, target, p) && p !in entries
      decreases |entries|
    {
      var entry :| entry in entries;
      assert entry in Children(tree, Parent(target));
      if PathString(target) <= PathString(entry) && tree[entry].File? {
        list := list + [PathString(entry)];
        found := found + [entry];
      }
      entries := entries - {entry};
    }
    results := Some(list);
  }

  // The recursive listing of a directory: the object files at any depth under
  // readable directories, each once, sorted as strings, and no temporary file.
  method ListTree(tree: Tree, target: Path, unreadable: set<Path>)
    returns (results: seq<string>, ghost found: seq<Path>)
    requires IsTree(tree) && target in tree && tree[target].Dir?
    ensures Once(found) && forall p :: p in found <==> Wanted(Visible(tree, target, unreadable), target, p)
    ensures results == SortedStrings(Strings(found)) && Ascending(results)
  {
    hide Wanted, Once, Strings, PathString, Visible, SortedStrings, Ascending;
    results, found := WalkTree(tree, target, unreadable);
    StringsAscend(results);
    results := SortedStrings(results);
  }

  // The outer loop: until the stack is empty.
  method WalkTree(tree: Tree, target: Path, unreadable: set<Path>)
    returns (results: seq<string>, ghost found: seq<Path>)
    requires IsTree(tree) && target in tree && tree[target].Dir?
    ensures Once(found) && forall p :: p in found <==> Wanted(Visible(tree, target, unreadable), target, p)
    ensures results == Strings(found)
  {
    WalkBegins(tree, target, unreadable);
    hide *;
    ghost var seen := Visible(tree, target, unreadable);
    results, found := [], [];
    var dirs := [target];
    ghost var pending := {target};
    while dirs != []
      invariant results == Strings(found) && Walked(seen, target, found, pending)
      invariant Stack(seen, dirs, pending)
      decreases Below(seen, pending)
    {
      results, found, dirs, pending := WalkDirectory(tree, target, unreadable, found, dirs, pending, results);
    }
    StackEmpty(seen, pending);
    WalkEnds(seen, target, found);
  }

  lemma WalkBegins(tree: Tree, target: Path, unreadable: set<Path>)
    requires IsTree(tree) && target in tree && tree[target].Dir?
    ensures var seen := Visible(tree, target, unreadable);
            && IsTree(seen) && Walked(seen, target, [], {target}) && Stack(seen, [target], {target})
            && Strings([]) == []
  {
    VisibleIsTree(tree, target, unreadable);
    var seen := Visible(tree, target, unreadable);
    WalkStarts(seen, target);
    StackStarts(seen, target);
    hide Walked, IsTree, Stack;
  }

  // One directory off the stack.
  method WalkDirectory(tree: Tree, target: Path, unreadable: set<Path>, ghost found: seq<Path>, stack: seq<Path>,
                       ghost pending: set<Path>, results: seq<string>)
    returns (results': seq<string>, ghost found': seq<Path>, dirs': seq<Path>, ghost pending': set<Path>)
    requires IsTree(Visible(tree, target, unreadable)) && results == Strings(found)
    requires Walked(Visible(tree, target, unreadable), target, found, pending)
    requires stack != [] && Stack(Visible(tree, target, unreadable), stack, pending)
    ensures results' == Strings(found') && Walked(Visible(tree, target, unreadable), target, found', pending')
    ensures Stack(Visible(tree, target, unreadable), dirs', pending')
    ensures Below(Visible(tree, target, unreadable), pending') < Below(Visible(tree, target, unreadable), pending)
  {
    ghost var seen := Visible(tree, target, unreadable);
    VisibleAgrees(tree, target, unreadable);
    hide Walked, Under, Below, Expanded, Children, IsTree, Stack, OnStack, Visible, Strings;
    var dir, dirs := stack[|stack| - 1], stack[..|stack| - 1];
    assert stack == dirs + [dir];
    PopStack(seen, dirs, dir, pending);
    InFrontier(seen, target, found, pending, dir);
    DirWalked(seen, target, found, pending, dir);
    var entries := ReadDir(tree, dir);
    VisibleChildren(tree, target, unreadable, dir);
    if dir in unreadable {
      entries := {};
    }
    EntriesJoin(seen, target, found, pending, dirs, dir);
    results', found', dirs', pending' :=
      WalkEntries(tree, seen, target, found, dirs, entries, Expanded(seen, pending, dir), results);
    FewerBelow(seen, pending', Expanded(seen, pending, dir));
  }

  // The inner loop: directories go on the stack, object files into the result.
  method WalkEntries(tree: Tree, ghost seen: Tree, ghost target: Path, ghost found: seq<Path>, dirs: seq<Path>,
                     toRead: set<Path>, ghost pending: set<Path>, results: seq<string>)
    returns (results': seq<string>, ghost found': seq<Path>, dirs': seq<Path>, ghost pending': set<Path>)
    requires IsTree(seen) && forall p :: p in seen ==> p in tree && seen[p] == tree[p]
    requires results == Strings(found) && Walked(seen, target, found, pending) && OnStack(seen, dirs, toRead, pending)
    ensures results' == Strings(found') && Walked(seen, target, found', pending')
    ensures Stack(seen, dirs', pending') && pending' <= pending
  {
    hide Walked, Under, IsTree, IsTemp, Stack, OnStack;
    results', found', dirs', pending' := results, found, dirs, pending;
    var entries := toRead;
    while entries != {}
      invariant results' == Strings(found') && Walked(seen, target, found', pending')
      invariant OnStack(seen, dirs', entries, pending') && pending' <= pending
      decreases |entries|
    {
      var entry :| entry in entries;
      TakeEntry(seen, dirs', entries, pending', entry);
      if tree[entry].Dir? {
        dirs' := dirs' + [entry];
      } else {
        FileWalked(seen, target, found', pending', entry);
        if !IsTemp(NameOf(entry)) {
          results' := results' + [PathString(entry)];
          found' := found' + [entry];
        }
        pending' := pending' - {entry};
      }
      entries := entries - {entry};
    }
    StackAgain(seen, dirs', pending');
  }

  lemma StackStarts(tree: Tree, target: Path)
    requires target in tree && tree[target].Dir?
    ensures Stack(tree, [target], {target})
  {
  }

  lemma InFrontier(tree: Tree, target: Path, found: seq<Path>, pending: set<Path>, dir: Path)
    requires Walked(tree, target, found, pending) && dir in pending
    ensures target <= dir
  {
  }

  // The pending entries are the directories on the stack ...
  ghost predicate Stack(tree: Tree, dirs: seq<Path>, pending: set<Path>) {
    OnStack(tree, dirs, {}, pending)
  }

  // ... and, while a directory is read, those of its entries not yet seen.
  ghost predicate OnStack(tree: Tree, dirs: seq<Path>, entries: set<Path>, pending: set<Path>) {
    && Once(dirs)
    && (forall d :: d in dirs ==> d in tree && tree[d].Dir? && d !in entries)
    && (forall e :: e in entries ==> e in tree && e != [])
    && (forall a :: a in pending <==> a in dirs || a in entries)
  }

  lemma PopStack(tree: Tree, dirs: seq<Path>, dir: Path, pending: set<Path>)
    requires Stack(tree, dirs + [dir], pending)
    ensures dir in pending && dir in tree && tree[dir].Dir? && Stack(tree, dirs, pending - {dir})
  {
    var stack := dirs + [dir];
    assert stack[|dirs|] == dir;
    assert forall i :: 0 <= i < |dirs| ==> dirs[i] == stack[i];
    forall d ensures d in stack <==> d in dirs || d == dir {
    }
    assert dir !in dirs;
  }

  lemma EntriesJoin(tree: Tree, target: Path, found: seq<Path>, pending: set<Path>, dirs: seq<Path>, dir: Path)
    requires Walked(tree, target, found, pending) && dir in pending && Stack(tree, dirs, pending - {dir})
    ensures OnStack(tree, dirs, Children(tree, dir), Expanded(tree, pending, dir))
  {
  }

  lemma TakeEntry(tree: Tree, dirs: seq<Path>, entries: set<Path>, pending: set<Path>, entry: Path)
    requires OnStack(tree, dirs, entries, pending) && entry in entries
    ensures entry in tree && entry in pending && entry != []
    ensures tree[entry].Dir? ==> OnStack(tree, dirs + [entry], entries - {entry}, pending)
    ensures OnStack(tree, dirs, entries - {entry}, pending - {entry})
  {
  }

  lemma StackAgain(tree: Tree, dirs: seq<Path>, pending: set<Path>)
    requires OnStack(tree, dirs, {}, pending)
    ensures Stack(tree, dirs, pending)
  {
  }

  lemma StackEmpty(tree: Tree, pending: set<Path>)
    requires Stack(tree, [], pending)
    ensures pending == {}
  {
  }

  lemma FewerBelow(tree: Tree, fewer: set<Path>, pending: set<Path>)
    requires fewer <= pending
    ensures Below(tree, fewer) <= Below(tree, pending)
  {
  }

  // ----------------------------------------------------------------- cleanup

  predicate Removable(tree: Tree, p: Path, now: int, host: string, alive: set<nat>) {
    && p in tree && tree[p].File? && p != [] && IsTemp(NameOf(p))
    && !InFlight(NameOf(p), now - tree[p].modified, host, alive)
  }

  // What cleanup is to remove and has, given the entries still to visit.
  ghost function Removed(tree: Tree, now: int, host: string, alive: set<nat>, pending: set<Path>): set<Path> {
    set p | p in tree && Removable(tree, p, now, host, alive) && !Under(pending, p)
  }

  lemma RemovedByDir(tree: Tree, now: int, host: string, alive: set<nat>, pending: set<Path>, dir: Path)
    requires IsTree(tree) && Frontier(tree, [], pending) && dir in pending && tree[dir].Dir?
    ensures Removed(tree, now, host, alive, Expanded(tree, pending, dir)) == Removed(tree, now, host, alive, pending)
    ensures Frontier(tree, [], Expanded(tree, pending, dir))
    ensures Below(tree, Expanded(tree, pending, dir)) < Below(tree, pending)
  {
    FrontierExpanded(tree, [], pending, dir);
    assert dir in tree;
    hide Expanded, Under, Frontier;
    forall p | p in tree ensures Under(Expanded(tree, pending, dir), p) <==> Under(pending, p) && p != dir {
      UnderExpanded(tree, [], pending, dir, p);
    }
    SelfUnder(pending, dir);
    assert dir in Below(tree, pending);
  }

  lemma RemovedByFile(tree: Tree, now: int, host: string, alive: set<nat>, pending: set<Path>, file: Path)
    requires IsTree(tree) && Frontier(tree, [], pending) && file in pending && tree[file].File?
    ensures file !in Removed(tree, now, host, alive, pending)
    ensures Removed(tree, now, host, alive, pending - {file})
            == Removed(tree, now, host, alive, pending) + if Removable(tree, file, now, host, alive) then {file} else {}
    ensures Frontier(tree, [], pending - {file})
  {
    SelfUnder(pending, file);
    forall p | p in tree ensures Under(pending - {file}, p) <==> Under(pending, p) && p != file {
      UnderWithout(tree, [], pending, file, p);
    }
  }

  // A directory is read before anything below it is removed.
  lemma UntouchedChildren(before: Tree, seen: Tree, now: int, host: string, alive: set<nat>, pending: set<Path>,
                          dir: Path)
    requires dir in pending
    ensures Children(before - Removed(seen, now, host, alive, pending), dir) == Children(before, dir)
  {
    forall p | p in Children(before, dir) ensures Under(pending, p) {
      assert dir in pending && dir <= p;
    }
  }

  class LocalBackend {
    var tree: Tree
    const host: string

    constructor (tree: Tree, host: string)
      ensures this.tree == tree && this.host == host
    {
      this.tree, this.host := tree, host;
    }

    // Removes exactly the temporary files that are old, unreadable by name or
    // left by a process of this machine that is gone, under readable
    // directories, and counts them.
    method CleanupTempFiles(now: int, alive: set<nat>, unreadable: set<Path>) returns (cleaned: nat)
      requires IsTree(tree)
      modifies this
      ensures var gone := Removed(Visible(old(tree), [], unreadable), now, host, alive, {});
              tree == old(tree) - gone && cleaned == |gone|
      ensures forall p :: p in tree ==> p in old(tree) && tree[p] == old(tree)[p]
      ensures forall p :: p in old(tree) ==>
                (p !in tree <==>
                   && old(tree)[p].File? && p != [] && ".tmp_" <= p[|p| - 1] && !Concealed([], unreadable, p)
                   && !InFlight(p[|p| - 1], now - old(tree)[p].modified, host, alive))
    {
      CleanupMeans(tree, unreadable, now, host, alive);
      hide Cleaning, Removed, Below, Expanded, Children, IsTree, Removable, OnStack, Stack, Visible;
      ghost var before := tree;
      ghost var seen := Visible(before, [], unreadable);
      var dirs: seq<Path> := [[]];
      ghost var pending: set<Path> := {[]};
      cleaned := 0;
      CleanupStarts(tree, unreadable, now, host, alive);
      while dirs != []
        invariant Cleaning(before, seen, tree, cleaned, now, host, alive, pending)
        invariant Stack(seen, dirs, pending)
        decreases Below(seen, pending)
      {
        var dir := dirs[|dirs| - 1];
        assert dirs == dirs[..|dirs| - 1] + [dir];
        dirs := dirs[..|dirs| - 1];
        PopStack(seen, dirs, dir, pending);
        ghost var outer := pending;
        var entries := ReadDir(tree, dir);
        if dir in unreadable {
          entries := {};
        }
        CleaningDir(before, unreadable, tree, cleaned, now, host, alive, outer, dirs, dir);
        pending := Expanded(seen, outer, dir);
        while entries != {}
          invariant Cleaning(before, seen, tree, cleaned, now, host, alive, pending)
          invariant OnStack(seen, dirs, entries, pending)
          invariant pending <= Expanded(seen, outer, dir)
          decreases |entries|
        {
          var entry :| entry in entries;
          TakeEntry(seen, dirs, entries, pending, entry);
          StillThere(before, seen, tree, cleaned, now, host, alive, pending, entry);
          if tree[entry].Dir? {
            dirs := dirs + [entry];
          } else {
            CleaningFile(before, seen, tree, cleaned, now, host, alive, pending, entry);
            if Removable(tree, entry, now, host, alive) {
              tree := tree - {entry};
              cleaned := cleaned + 1;
            }
            pending := pending - {entry};
          }
          entries := entries - {entry};
        }
        StackAgain(seen, dirs, pending);
        FewerBelow(seen, pending, Expanded(seen, outer, dir));
      }
      StackEmpty(seen, pending);
      CleaningEnds(before, seen, tree, cleaned, now, host, alive);
    }
  }

  lemma CleanupMeans(tree: Tree, unreadable: set<Path>, now: int, host: string, alive: set<nat>)
    ensures forall p :: p in tree ==>
              (p in Removed(Visible(tree, [], unreadable), now, host, alive, {}) <==>
                 && tree[p].File? && p != [] && ".tmp_" <= p[|p| - 1] && !Concealed([], unreadable, p)
                 && !InFlight(p[|p| - 1], now - tree[p].modified, host, alive))
  {
    hide InFlight, Concealed;
  }

  // How far a cleanup of `before`, of which it sees `seen`, has come.
  ghost predicate Cleaning(before: Tree, seen: Tree, tree: Tree, cleaned: nat, now: int, host: string, alive: set<nat>,
                           pending: set<Path>)
  {
    && tree == before - Removed(seen, now, host, alive, pending)
    && cleaned == |Removed(seen, now, host, alive, pending)|
    && Frontier(seen, [], pending)
    && IsTree(seen) && (forall p :: p in seen ==> p in before && seen[p] == before[p])
  }

  lemma CleanupStarts(tree: Tree, unreadable: set<Path>, now: int, host: string, alive: set<nat>)
    requires IsTree(tree)
    ensures var seen := Visible(tree, [], unreadable);
            Cleaning(tree, seen, tree, 0, now, host, alive, {[]}) && Stack(seen, [[]], {[]})
  {
    var base: Path := [];
    var seen := Visible(tree, base, unreadable);
    VisibleIsTree(tree, base, unreadable);
    RootStands(seen, now, host, alive, base);
    hide Visible, IsTree, Removed, Frontier, Stack, Removable;
    assert tree - {} == tree;
    assert forall p :: p in seen ==> p in tree && seen[p] == tree[p] by {
      VisibleAgrees(tree, base, unreadable);
    }
  }

  lemma VisibleAgrees(tree: Tree, target: Path, unreadable: set<Path>)
    ensures var seen := Visible(tree, target, unreadable); forall p :: p in seen ==> p in tree && seen[p] == tree[p]
  {
  }

  // With the root pending, nothing is removed yet.
  lemma RootStands(seen: Tree, now: int, host: string, alive: set<nat>, base: Path)
    requires IsTree(seen) && base == []
    ensures Removed(seen, now, host, alive, {base}) == {} && Frontier(seen, base, {base}) && Stack(seen, [base], {base})
  {
    hide Removable;
    forall p | p in seen ensures Under({base}, p) {
      assert base in {base} && base <= p;
    }
  }

  lemma CleaningEnds(before: Tree, seen: Tree, tree: Tree, cleaned: nat, now: int, host: string, alive: set<nat>)
    requires Cleaning(before, seen, tree, cleaned, now, host, alive, {})
    ensures tree == before - Removed(seen, now, host, alive, {}) && cleaned == |Removed(seen, now, host, alive, {})|
  {
  }

  lemma CleaningDir(before: Tree, unreadable: set<Path>, tree: Tree, cleaned: nat, now: int, host: string,
                    alive: set<nat>, pending: set<Path>, dirs: seq<Path>, dir: Path)
    requires var seen := Visible(before, [], unreadable);
             && Cleaning(before, seen, tree, cleaned, now, host, alive, pending)
             && dir in pending && dir in seen && seen[dir].Dir? && Stack(seen, dirs, pending - {dir})
    ensures var seen := Visible(before, [], unreadable);
            && Cleaning(before, seen, tree, cleaned, now, host, alive, Expanded(seen, pending, dir))
            && OnStack(seen, dirs, if dir in unreadable then {} else Children(tree, dir), Expanded(seen, pending, dir))
            && Below(seen, Expanded(seen, pending, dir)) < Below(seen, pending)
  {
    var seen := Visible(before, [], unreadable);
    VisibleChildren(before, [], unreadable, dir);
    RemovedByDir(seen, now, host, alive, pending, dir);
    ChildrenJoin(seen, pending, dirs, dir);
    if dir !in unreadable {
      UntouchedChildren(before, seen, now, host, alive, pending, dir);
    }
    hide Visible, Expanded, Below, Children, Removed, IsTree;
  }

  lemma CleaningFile(before: Tree, seen: Tree, tree: Tree, cleaned: nat, now: int, host: string, alive: set<nat>,
                     pending: set<Path>, file: Path)
    requires Cleaning(before, seen, tree, cleaned, now, host, alive, pending)
    requires file in pending && file in seen && seen[file].File?
    ensures if Removable(tree, file, now, host, alive)
            then Cleaning(before, seen, tree - {file}, cleaned + 1, now, host, alive, pending - {file})
            else Cleaning(before, seen, tree, cleaned, now, host, alive, pending - {file})
  {
    StillThere(before, seen, tree, cleaned, now, host, alive, pending, file);
    RemovedByFile(seen, now, host, alive, pending, file);
    SameVerdict(seen, tree, file, now, host, alive);
    hide Removable, Removed, Frontier, IsTree;
    TakeAway(before, Removed(seen, now, host, alive, pending), file);
  }

  lemma TakeAway(tree: Tree, gone: set<Path>, file: Path)
    requires file !in gone
    ensures |gone + {file}| == |gone| + 1 && gone + {} == gone
    ensures tree - (gone + {file}) == tree - gone - {file}
  {
  }

  lemma ChildrenJoin(tree: Tree, pending: set<Path>, dirs: seq<Path>, dir: Path)
    requires Frontier(tree, [], pending) && dir in pending && Stack(tree, dirs, pending - {dir})
    ensures OnStack(tree, dirs, Children(tree, dir), Expanded(tree, pending, dir))
  {
  }

  lemma StillThere(before: Tree, seen: Tree, tree: Tree, cleaned: nat, now: int, host: string, alive: set<nat>,
                   pending: set<Path>, entry: Path)
    requires Cleaning(before, seen, tree, cleaned, now, host, alive, pending) && entry in pending && entry in seen
    ensures entry in tree && tree[entry] == seen[entry]
  {
    SelfUnder(pending, entry);
  }

  lemma SameVerdict(before: Tree, tree: Tree, entry: Path, now: int, host: string, alive: set<nat>)
    requires entry in before && entry in tree && before[entry] == tree[entry]
    ensures Removable(before, entry, now, host, alive) == Removable(tree, entry, now, host, alive)
  {
  }

  // In every reachable state of writers, crashes and cleanups, whatever the
  // listing of a directory shows is complete.
  lemma ListedIsWhole(cfg: Config, s: State, run: seq<Action>, target: Path, p: Path)
    requires Start(cfg, s) && TmpsApart(cfg, s) && IsRun(cfg, s, run)
    requires Wanted(After(cfg, s, run).tree, target, p)
    ensures Whole(cfg, After(cfg, s, run), p)
  {
    ObjectsWhole(cfg, s, run, p);
  }
}
