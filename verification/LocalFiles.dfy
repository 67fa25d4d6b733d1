// Objects as local files: writers that write a temporary file and rename it,
// on several machines over one shared tree, with crashes and cleanups anywhere.
module LocalFiles {
  import opened Wrappers
  import opened Codecs
  import opened TempNames

  type Path = seq<string>

  datatype Node = Dir | File(data: bytes, modified: int)
  type Tree = map<Path, Node>

  function NameOf(p: Path): string
    requires p != []
  {
    p[|p| - 1]
  }

  predicate IsObject(p: Path) {
    p != [] && !IsTemp(NameOf(p))
  }

  // ----------------------------------------------------------------- writers

  datatype Stage = Ready | Writing(done: nat) | Synced | Finished | Crashed

  // One put_object call, by a process on a machine.
  datatype Writer = Writer(machine: nat, pid: nat, random: nat, target: Path, data: bytes, stage: Stage)

  // The host id of each machine, and the files there were at the start.
  datatype Config = Config(hosts: nat -> string, initial: Tree)

  datatype State = State(tree: Tree, writers: seq<Writer>, now: int)

  function TmpPath(cfg: Config, w: Writer): Path
    requires w.target != []
  {
    w.target[..|w.target| - 1] + [TmpName(cfg.hosts(w.machine), w.pid, w.random)]
  }

  predicate Live(w: Writer) {
    w.stage.Writing? || w.stage.Synced?
  }

  predicate IsHostId(id: string) {
    id != [] && forall i :: 0 <= i < |id| ==> Plain(id[i])
  }

  ghost predicate Hosts(hosts: nat -> string) {
    forall m :: IsHostId(hosts(m))
  }

  predicate ValidWriter(w: Writer) {
    IsObject(w.target) && w.pid < U32 && (w.stage.Writing? ==> w.stage.done <= |w.data|)
  }

  // Process id and random number tell apart the calls on one machine.
  predicate Apart(w: Writer, v: Writer) {
    w.machine != v.machine || w.pid != v.pid || w.random != v.random
  }

  ghost predicate Start(cfg: Config, s: State) {
    && s.tree == cfg.initial
    && (forall i :: 0 <= i < |s.writers| ==> ValidWriter(s.writers[i]) && s.writers[i].stage == Ready)
    && (forall i, j :: 0 <= i < j < |s.writers| ==> Apart(s.writers[i], s.writers[j]))
  }

  // ------------------------------------------------------------------- steps

  datatype Action =
    | Open(i: nat)
    | Write(i: nat, upTo: nat)
    | Sync(i: nat)
    | Rename(i: nat)
    | Crash(i: nat)
    | Clean(machine: nat, cleaner: nat, alive: set<nat>, path: Path)
    | Delete(path: Path)
    | Tick(seconds: nat)

  // What the written part of a temporary file is.
  function Written(w: Writer): bytes
    requires ValidWriter(w)
  {
    if w.stage.Writing? then w.data[..w.stage.done] else w.data
  }

  predicate RecentFile(s: State, p: Path, later: int) {
    p in s.tree && s.tree[p].File? ==> s.now + later - s.tree[p].modified < RECENT
  }

  const INIT := 1

  // Time may pass only while every live writer has written within the hour;
  // a cleanup knows the processes alive on its own machine, itself, the first
  // process and the writers there among them.
  ghost predicate Enabled(cfg: Config, s: State, a: Action) {
    match a
    case Open(i) => i < |s.writers| && s.writers[i].stage == Ready && ValidWriter(s.writers[i])
    case Write(i, upTo) =>
      i < |s.writers| && s.writers[i].stage.Writing? && s.writers[i].stage.done < upTo <= |s.writers[i].data|
      && ValidWriter(s.writers[i])
    case Sync(i) => i < |s.writers| && s.writers[i].stage == Writing(|s.writers[i].data|) && ValidWriter(s.writers[i])
    case Rename(i) =>
      i < |s.writers| && s.writers[i].stage == Synced && ValidWriter(s.writers[i])
      && (s.writers[i].target in s.tree ==> s.tree[s.writers[i].target].File?)
    case Crash(i) => i < |s.writers| && s.writers[i].stage != Finished
    case Clean(machine, cleaner, alive, path) =>
      path in s.tree && s.tree[path].File? && path != [] && IsTemp(NameOf(path))
      && INIT in alive && cleaner in alive
      && (forall i :: 0 <= i < |s.writers| && Live(s.writers[i]) && s.writers[i].machine == machine ==>
            s.writers[i].pid in alive)
    case Delete(path) => path in s.tree && s.tree[path].File? && IsObject(path)
    case Tick(seconds) =>
      forall i :: 0 <= i < |s.writers| && Live(s.writers[i]) && s.writers[i].target != [] ==>
        RecentFile(s, TmpPath(cfg, s.writers[i]), seconds)
  }

  function At(s: State, i: nat, stage: Stage): seq<Writer>
    requires i < |s.writers|
  {
    s.writers[i := s.writers[i].(stage := stage)]
  }

  ghost function Apply(cfg: Config, s: State, a: Action): State
    requires Enabled(cfg, s, a)
  {
    match a
    case Open(i) => s.(tree := s.tree[TmpPath(cfg, s.writers[i]) := File([], s.now)], writers := At(s, i, Writing(0)))
    case Write(i, upTo) =>
      s.(tree := s.tree[TmpPath(cfg, s.writers[i]) := File(s.writers[i].data[..upTo], s.now)],
         writers := At(s, i, Writing(upTo)))
    case Sync(i) => s.(writers := At(s, i, Synced))
    case Rename(i) =>
      var w, tmp := s.writers[i], TmpPath(cfg, s.writers[i]);
      if tmp in s.tree then s.(tree := (s.tree - {tmp})[w.target := s.tree[tmp]], writers := At(s, i, Finished))
      else s.(writers := At(s, i, Crashed))
    case Crash(i) => s.(writers := At(s, i, Crashed))
    case Clean(machine, _, alive, path) =>
      if InFlight(NameOf(path), s.now - s.tree[path].modified, cfg.hosts(machine), alive) then s
      else s.(tree := s.tree - {path})
    case Delete(path) => s.(tree := s.tree - {path})
    case Tick(seconds) => s.(now := s.now + seconds)
  }

  ghost predicate IsRun(cfg: Config, s: State, run: seq<Action>)
    decreases |run|
  {
    run == [] || (Enabled(cfg, s, run[0]) && IsRun(cfg, Apply(cfg, s, run[0]), run[1..]))
  }

  ghost function After(cfg: Config, s: State, run: seq<Action>): State
    requires IsRun(cfg, s, run)
    decreases |run|
  {
    if run == [] then s else After(cfg, Apply(cfg, s, run[0]), run[1..])
  }

  // --------------------------------------------------------------- invariant

  // What an object file holds: what it held at the start, or all of what one
  // finished writer wrote.
  ghost predicate Whole(cfg: Config, s: State, p: Path)
    requires p in s.tree && s.tree[p].File?
  {
    || (p in cfg.initial && cfg.initial[p].File? && s.tree[p].data == cfg.initial[p].data)
    || exists i :: 0 <= i < |s.writers| && FinishedWith(s.writers[i], p, s.tree[p].data)
  }

  predicate FinishedWith(w: Writer, p: Path, data: bytes) {
    w.stage == Finished && w.target == p && w.data == data
  }

  // Temporary paths are not drawn twice.
  ghost predicate TmpsApart(cfg: Config, s: State) {
    forall i, j :: 0 <= i < j < |s.writers| && s.writers[i].target != [] && s.writers[j].target != [] ==>
      TmpPath(cfg, s.writers[i]) != TmpPath(cfg, s.writers[j])
  }

  // A live writer's temporary file, while it is there, holds what it wrote.
  ghost predicate TmpHolds(cfg: Config, s: State, w: Writer)
    requires ValidWriter(w)
  {
    var tmp := TmpPath(cfg, w);
    tmp in s.tree ==> s.tree[tmp].File? && s.tree[tmp].data == Written(w)
  }

  ghost predicate WholeInv(cfg: Config, s: State) {
    && (forall i :: 0 <= i < |s.writers| ==> ValidWriter(s.writers[i]))
    && TmpsApart(cfg, s)
    && (forall i :: 0 <= i < |s.writers| && Live(s.writers[i]) ==> TmpHolds(cfg, s, s.writers[i]))
    && (forall p :: p in s.tree && s.tree[p].File? && IsObject(p) ==> Whole(cfg, s, p))
  }

  // A live writer's temporary file is there, recent, and holds what it wrote.
  ghost predicate TmpIntact(cfg: Config, s: State, w: Writer)
    requires ValidWriter(w)
  {
    var tmp := TmpPath(cfg, w);
    tmp in s.tree && TmpHolds(cfg, s, w) && 0 <= s.now - s.tree[tmp].modified < RECENT
  }

  ghost predicate Inv(cfg: Config, s: State) {
    && WholeInv(cfg, s)
    && (forall i :: 0 <= i < |s.writers| && Live(s.writers[i]) ==> TmpIntact(cfg, s, s.writers[i]))
  }

  // Machines that share the tree have different host ids.
  ghost predicate DistinctHosts(hosts: nat -> string) {
    forall m, n :: hosts(m) == hosts(n) ==> m == n
  }

  lemma TmpIsTemp(cfg: Config, w: Writer)
    requires w.target != []
    ensures IsTemp(NameOf(TmpPath(cfg, w))) && !IsObject(TmpPath(cfg, w))
  {
    assert TmpName(cfg.hosts(w.machine), w.pid, w.random)[..5] == TMP;
  }

  lemma TmpApart(cfg: Config, w: Writer, v: Writer)
    requires Hosts(cfg.hosts) && DistinctHosts(cfg.hosts) && ValidWriter(w) && ValidWriter(v) && Apart(w, v)
    ensures TmpPath(cfg, w) != TmpPath(cfg, v)
  {
    if TmpPath(cfg, w) == TmpPath(cfg, v) {
      assert NameOf(TmpPath(cfg, w)) == NameOf(TmpPath(cfg, v));
      NamesDiffer(cfg.hosts(w.machine), w.pid, w.random, cfg.hosts(v.machine), v.pid, v.random);
    }
  }

  // --------------------------------------------------------------- the steps

  // The writer that takes the step.
  function Actor(a: Action): Option<nat> {
    match a
    case Open(i) => Some(i)
    case Write(i, _) => Some(i)
    case Sync(i) => Some(i)
    case Rename(i) => Some(i)
    case Crash(i) => Some(i)
    case _ => None
  }

  lemma StepWriters(cfg: Config, s: State, a: Action, i: nat)
    requires Enabled(cfg, s, a) && i < |s.writers| && ValidWriter(s.writers[i])
    ensures var t := Apply(cfg, s, a);
            && |t.writers| == |s.writers| && ValidWriter(t.writers[i])
            && t.writers[i].(stage := s.writers[i].stage) == s.writers[i]
            && (Actor(a) != Some(i) ==> t.writers[i] == s.writers[i])
  {
    hide InFlight, TmpPath;
  }

  lemma OwnStepHolds(cfg: Config, s: State, a: Action)
    requires Enabled(cfg, s, a) && Actor(a).Some? && ValidWriter(s.writers[Actor(a).value])
    requires Live(s.writers[Actor(a).value]) ==> TmpHolds(cfg, s, s.writers[Actor(a).value])
    ensures var w := Apply(cfg, s, a).writers[Actor(a).value];
            ValidWriter(w) && (Live(w) ==> TmpHolds(cfg, Apply(cfg, s, a), w))
  {
  }

  // A step changes a temporary file only if it is the writer's own, or by
  // removing it.
  lemma OtherStepHolds(cfg: Config, s: State, a: Action, w: Writer)
    requires Enabled(cfg, s, a) && ValidWriter(w) && TmpHolds(cfg, s, w)
    requires Actor(a).Some? ==>
               ValidWriter(s.writers[Actor(a).value]) && TmpPath(cfg, w) != TmpPath(cfg, s.writers[Actor(a).value])
    ensures TmpHolds(cfg, Apply(cfg, s, a), w)
    ensures var tmp, t := TmpPath(cfg, w), Apply(cfg, s, a);
            tmp in s.tree && !(a.Clean? && a.path == tmp) ==> tmp in t.tree && t.tree[tmp] == s.tree[tmp]
  {
    TmpIsTemp(cfg, w);
    hide TmpPath, InFlight, Written;
  }

  // The object files a step changes: a rename puts its whole data at its
  // target, a delete removes one; nothing else touches any.
  lemma StepObjects(cfg: Config, s: State, a: Action, p: Path)
    requires WholeInv(cfg, s) && Enabled(cfg, s, a) && IsObject(p)
    ensures var t := Apply(cfg, s, a);
            if a.Rename? && s.writers[a.i].target == p && TmpPath(cfg, s.writers[a.i]) in s.tree then
              p in t.tree && t.tree[p].File? && t.tree[p].data == s.writers[a.i].data
              && t.writers[a.i].stage == Finished
            else if a == Delete(p) then p !in t.tree
            else (p in t.tree <==> p in s.tree) && (p in s.tree ==> t.tree[p] == s.tree[p])
  {
    if Actor(a).Some? {
      TmpIsTemp(cfg, s.writers[Actor(a).value]);
    }
    if a.Rename? {
      assert TmpHolds(cfg, s, s.writers[a.i]);
    }
    hide TmpPath, InFlight, Whole, TmpsApart;
  }

  lemma StepHolds(cfg: Config, s: State, a: Action, i: nat)
    requires WholeInv(cfg, s) && Enabled(cfg, s, a) && i < |s.writers|
    ensures var t := Apply(cfg, s, a);
            && |t.writers| == |s.writers| && ValidWriter(t.writers[i])
            && (Live(t.writers[i]) ==> TmpHolds(cfg, t, t.writers[i]))
  {
    hide TmpHolds, Whole, Apply, TmpPath;
    StepWriters(cfg, s, a, i);
    if Actor(a) == Some(i) {
      OwnStepHolds(cfg, s, a);
    } else if Live(s.writers[i]) {
      OtherStepHolds(cfg, s, a, s.writers[i]);
    }
  }

  lemma StepApart(cfg: Config, s: State, a: Action)
    requires WholeInv(cfg, s) && Enabled(cfg, s, a)
    ensures TmpsApart(cfg, Apply(cfg, s, a))
  {
    hide TmpHolds, Whole, Apply, Enabled;
    var t := Apply(cfg, s, a);
    SameWriters(cfg, s, a);
    forall i: nat | i < |s.writers|
      ensures t.writers[i].target == s.writers[i].target != []
              && TmpPath(cfg, t.writers[i]) == TmpPath(cfg, s.writers[i])
    {
      StepWriters(cfg, s, a, i);
    }
  }

  lemma SameWriters(cfg: Config, s: State, a: Action)
    requires Enabled(cfg, s, a)
    ensures |Apply(cfg, s, a).writers| == |s.writers|
  {
    hide InFlight, TmpPath;
  }

  // Finished writers stay finished.
  lemma FinishedStays(cfg: Config, s: State, a: Action, p: Path, i: nat, data: bytes)
    requires Enabled(cfg, s, a) && i < |s.writers| && FinishedWith(s.writers[i], p, data)
    ensures i < |Apply(cfg, s, a).writers| && FinishedWith(Apply(cfg, s, a).writers[i], p, data)
  {
    hide InFlight, TmpPath;
  }

  lemma StepWhole(cfg: Config, s: State, a: Action, p: Path)
    requires WholeInv(cfg, s) && Enabled(cfg, s, a) && IsObject(p)
    requires p in Apply(cfg, s, a).tree && Apply(cfg, s, a).tree[p].File?
    ensures Whole(cfg, Apply(cfg, s, a), p)
  {
    StepObjects(cfg, s, a, p);
    var t := Apply(cfg, s, a);
    if a.Rename? && s.writers[a.i].target == p && TmpPath(cfg, s.writers[a.i]) in s.tree {
      StepWriters(cfg, s, a, a.i);
      assert FinishedWith(t.writers[a.i], p, t.tree[p].data);
    } else {
      assert Whole(cfg, s, p);
      if i :| 0 <= i < |s.writers| && FinishedWith(s.writers[i], p, s.tree[p].data) {
        FinishedStays(cfg, s, a, p, i, s.tree[p].data);
      }
    }
  }

  lemma StepWholeInv(cfg: Config, s: State, a: Action)
    requires WholeInv(cfg, s) && Enabled(cfg, s, a)
    ensures WholeInv(cfg, Apply(cfg, s, a))
  {
    hide TmpHolds, Whole, Enabled, Apply, TmpsApart;
    var t := Apply(cfg, s, a);
    StepApart(cfg, s, a);
    SameWriters(cfg, s, a);
    forall i: nat | i < |t.writers|
      ensures ValidWriter(t.writers[i]) && (Live(t.writers[i]) ==> TmpHolds(cfg, t, t.writers[i]))
    {
      StepHolds(cfg, s, a, i);
    }
    forall p | p in t.tree && t.tree[p].File? && IsObject(p) ensures Whole(cfg, t, p) {
      StepWhole(cfg, s, a, p);
    }
  }

  // -------------------------------------------------------- crash atomicity

  lemma {:induction false} RunWhole(cfg: Config, s: State, run: seq<Action>)
    requires WholeInv(cfg, s) && IsRun(cfg, s, run)
    ensures WholeInv(cfg, After(cfg, s, run))
    decreases |run|
  {
    hide WholeInv, Enabled, Apply;
    if run == [] {
    } else {
      StepWholeInv(cfg, s, run[0]);
      RunWhole(cfg, Apply(cfg, s, run[0]), run[1..]);
    }
  }

  // In every run, whatever crashes and whatever is cleaned up, on machines with
  // any host ids, shared or not: every object file holds old or new bytes in
  // full, as long as no temporary path is drawn twice.
  lemma ObjectsWhole(cfg: Config, s: State, run: seq<Action>, p: Path)
    requires Start(cfg, s) && TmpsApart(cfg, s) && IsRun(cfg, s, run)
    requires IsObject(p) && p in After(cfg, s, run).tree && After(cfg, s, run).tree[p].File?
    ensures Whole(cfg, After(cfg, s, run), p)
    ensures var e := After(cfg, s, run);
            || (p in s.tree && s.tree[p].File? && e.tree[p].data == s.tree[p].data)
            || exists i :: 0 <= i < |e.writers| && e.writers[i].stage == Finished && e.writers[i].target == p
                           && e.writers[i].data == e.tree[p].data
  {
    StartWhole(cfg, s);
    RunWhole(cfg, s, run);
    hide IsRun, After;
  }

  lemma StartWhole(cfg: Config, s: State)
    requires Start(cfg, s) && TmpsApart(cfg, s)
    ensures WholeInv(cfg, s)
  {
    hide TmpsApart;
  }

  // ------------------------------------------------- live temporary files

  // No cleanup removes a live writer's file.
  lemma CleanSpares(cfg: Config, s: State, a: Action, w: Writer)
    requires Hosts(cfg.hosts) && DistinctHosts(cfg.hosts) && a.Clean? && Enabled(cfg, s, a)
    requires w in s.writers && Live(w) && ValidWriter(w) && TmpIntact(cfg, s, w) && a.path == TmpPath(cfg, w)
    ensures Apply(cfg, s, a) == s
  {
    var id := cfg.hosts(w.machine);
    assert NameOf(a.path) == TmpName(id, w.pid, w.random);
    SparedExactly(id, w.pid, w.random, s.now - s.tree[a.path].modified, cfg.hosts(a.machine), a.alive);
  }

  lemma OwnStepTmp(cfg: Config, s: State, a: Action)
    requires Enabled(cfg, s, a) && Actor(a).Some? && ValidWriter(s.writers[Actor(a).value])
    requires Live(s.writers[Actor(a).value]) ==> TmpIntact(cfg, s, s.writers[Actor(a).value])
    ensures var w := Apply(cfg, s, a).writers[Actor(a).value];
            ValidWriter(w) && (Live(w) ==> TmpIntact(cfg, Apply(cfg, s, a), w))
  {
    OwnStepHolds(cfg, s, a);
  }

  lemma Clock(cfg: Config, s: State, a: Action)
    requires Enabled(cfg, s, a)
    ensures Apply(cfg, s, a).now == s.now + if a.Tick? then a.seconds else 0
  {
    hide InFlight, TmpPath;
  }

  lemma OtherStepTmp(cfg: Config, s: State, a: Action, w: Writer)
    requires Hosts(cfg.hosts) && DistinctHosts(cfg.hosts) && Enabled(cfg, s, a)
    requires w in s.writers && Live(w) && ValidWriter(w) && TmpIntact(cfg, s, w)
    requires Actor(a).Some? ==>
               ValidWriter(s.writers[Actor(a).value]) && TmpPath(cfg, w) != TmpPath(cfg, s.writers[Actor(a).value])
    ensures TmpIntact(cfg, Apply(cfg, s, a), w)
  {
    OtherStepHolds(cfg, s, a, w);
    Clock(cfg, s, a);
    if a.Clean? && a.path == TmpPath(cfg, w) {
      CleanSpares(cfg, s, a, w);
    }
    assert a.Tick? ==> RecentFile(s, TmpPath(cfg, w), a.seconds);
    hide TmpPath, InFlight, Apply, TmpHolds;
  }

  lemma StepTmp(cfg: Config, s: State, a: Action, i: nat)
    requires Hosts(cfg.hosts) && DistinctHosts(cfg.hosts) && Inv(cfg, s) && Enabled(cfg, s, a) && i < |s.writers|
    ensures var t := Apply(cfg, s, a);
            && |t.writers| == |s.writers| && ValidWriter(t.writers[i])
            && (Live(t.writers[i]) ==> TmpIntact(cfg, t, t.writers[i]))
  {
    hide TmpIntact, TmpHolds, Whole, Apply, TmpPath, DistinctHosts, Hosts;
    StepWriters(cfg, s, a, i);
    var w := s.writers[i];
    if Actor(a) == Some(i) {
      OwnStepTmp(cfg, s, a);
    } else if Live(w) {
      assert w in s.writers;
      OtherStepTmp(cfg, s, a, w);
    }
  }

  lemma StepInv(cfg: Config, s: State, a: Action)
    requires Hosts(cfg.hosts) && DistinctHosts(cfg.hosts) && Inv(cfg, s) && Enabled(cfg, s, a)
    ensures Inv(cfg, Apply(cfg, s, a))
  {
    StepWholeInv(cfg, s, a);
    var t := Apply(cfg, s, a);
    SameWriters(cfg, s, a);
    hide TmpIntact, WholeInv, Enabled, Apply;
    forall i: nat | i < |t.writers|
      ensures Live(t.writers[i]) ==> ValidWriter(t.writers[i]) && TmpIntact(cfg, t, t.writers[i])
    {
      StepTmp(cfg, s, a, i);
    }
  }

  // Where no two machines share a host id, besides, every live writer's
  // temporary file is there and holds what was written.
  lemma {:induction false} RunInv(cfg: Config, s: State, run: seq<Action>)
    requires Hosts(cfg.hosts) && DistinctHosts(cfg.hosts) && Inv(cfg, s) && IsRun(cfg, s, run)
    ensures Inv(cfg, After(cfg, s, run))
    decreases |run|
  {
    hide Inv, Enabled, Apply;
    if run == [] {
    } else {
      StepInv(cfg, s, run[0]);
      RunInv(cfg, Apply(cfg, s, run[0]), run[1..]);
    }
  }

  lemma StartInv(cfg: Config, s: State)
    requires Hosts(cfg.hosts) && DistinctHosts(cfg.hosts) && Start(cfg, s)
    ensures Inv(cfg, s)
  {
    forall i, j | 0 <= i < j < |s.writers| ensures TmpPath(cfg, s.writers[i]) != TmpPath(cfg, s.writers[j]) {
      TmpApart(cfg, s.writers[i], s.writers[j]);
    }
    StartWhole(cfg, s);
  }

  // ----------------------------------------------------------- one put alone

  // The temporary file lies beside its target, under a temporary name.
  lemma TmpBeside(cfg: Config, w: Writer)
    requires w.target != []
    ensures var tmp := TmpPath(cfg, w);
            && |tmp| == |w.target| && tmp[..|tmp| - 1] == w.target[..|w.target| - 1]
            && tmp[|tmp| - 1] == TmpName(cfg.hosts(w.machine), w.pid, w.random) && ".tmp_" <= tmp[|tmp| - 1]
  {
    hide TmpName;
    TmpIsTemp(cfg, w);
  }

  lemma FirstStep(cfg: Config, s: State, a: Action, rest: seq<Action>) returns (run: seq<Action>)
    requires Enabled(cfg, s, a) && IsRun(cfg, Apply(cfg, s, a), rest)
    ensures IsRun(cfg, s, run) && After(cfg, s, run) == After(cfg, Apply(cfg, s, a), rest)
  {
    hide Enabled, Apply;
    run := [a] + rest;
    assert run[1..] == rest;
  }

  // A writer that is left alone, however long it pauses within the hour, puts its
  // data at its target, new or not, and leaves nothing else behind.
  lemma PutStores(cfg: Config, s: State, w: Writer, pause: nat) returns (run: seq<Action>)
    requires s.writers == [w] && w.stage == Ready && ValidWriter(w) && pause < 3600
    requires w.target in s.tree ==> s.tree[w.target].File?
    ensures IsRun(cfg, s, run)
    ensures var e := After(cfg, s, run);
            && w.target in e.tree && e.tree[w.target].File? && e.tree[w.target].data == w.data
            && e.tree - {w.target} == s.tree - {TmpPath(cfg, w), w.target}
            && e.writers == [w.(stage := Finished)]
  {
    TmpIsTemp(cfg, w);
    hide IsRun, After, TmpName, IsTemp;
    var s1 := Apply(cfg, s, Open(0));
    var s2 := Apply(cfg, s1, Tick(pause));
    var s3 := if w.data == [] then s2 else Apply(cfg, s2, Write(0, |w.data|));
    run := SyncedStores(cfg, s3, w, if w.data == [] then 0 else pause);
    if w.data != [] {
      run := FirstStep(cfg, s2, Write(0, |w.data|), run);
    }
    run := FirstStep(cfg, s1, Tick(pause), run);
    run := FirstStep(cfg, s, Open(0), run);
  }

  lemma SyncedStores(cfg: Config, s: State, w: Writer, pause: nat) returns (run: seq<Action>)
    requires ValidWriter(w) && s.writers == [w.(stage := Writing(|w.data|))]
    requires var tmp := TmpPath(cfg, w);
             tmp in s.tree && s.tree[tmp].File? && s.tree[tmp].data == w.data
             && s.now + pause - s.tree[tmp].modified < 3600
    requires w.target in s.tree ==> s.tree[w.target].File?
    ensures IsRun(cfg, s, run)
    ensures var e := After(cfg, s, run);
            && w.target in e.tree && e.tree[w.target].File? && e.tree[w.target].data == w.data
            && e.tree - {w.target} == s.tree - {TmpPath(cfg, w), w.target}
            && e.writers == [w.(stage := Finished)]
  {
    TmpIsTemp(cfg, w);
    var s1 := Apply(cfg, s, Sync(0));
    var s2 := Apply(cfg, s1, Tick(pause));
    var s3 := Apply(cfg, s2, Rename(0));
    assert IsRun(cfg, s3, []) && After(cfg, s3, []) == s3;
    hide IsRun, After, TmpName, IsTemp;
    run := FirstStep(cfg, s2, Rename(0), []);
    run := FirstStep(cfg, s1, Tick(pause), run);
    run := FirstStep(cfg, s, Sync(0), run);
  }

  // ------------------------------------------------------- shared host ids

  ghost predicate LiveFilesKept(cfg: Config, s: State) {
    forall i :: 0 <= i < |s.writers| && Live(s.writers[i]) && s.writers[i].target != [] ==>
      TmpPath(cfg, s.writers[i]) in s.tree
  }

  ghost predicate KeptInEveryRun(hosts: nat -> string) {
    forall cfg: Config, s: State, run: seq<Action> ::
      cfg.hosts == hosts && Start(cfg, s) && IsRun(cfg, s, run) ==> LiveFilesKept(cfg, After(cfg, s, run))
  }

  lemma TwoSteps(cfg: Config, s: State, a: Action, b: Action)
    requires Enabled(cfg, s, a) && Enabled(cfg, Apply(cfg, s, a), b)
    ensures IsRun(cfg, s, [a, b]) && After(cfg, s, [a, b]) == Apply(cfg, Apply(cfg, s, a), b)
  {
    hide Enabled, Apply;
    var t := Apply(cfg, s, a);
    assert [a, b][1..] == [b] && [b][1..] == [];
    assert IsRun(cfg, t, [b]) && After(cfg, t, [b]) == Apply(cfg, t, b);
  }

  // Two machines with one id: a cleanup on the second takes the first one's
  // process for dead and removes its file while it is being written.
  lemma SharedIdLosesFile(hosts: nat -> string, m: nat, n: nat)
    requires Hosts(hosts) && hosts(m) == hosts(n) && m != n
    ensures !KeptInEveryRun(hosts)
  {
    var cfg := Config(hosts, map[[] := Dir, ["blobs"] := Dir]);
    var w := Writer(m, 4242, 7, ["blobs", "x"], [0], Ready);
    var s := State(cfg.initial, [w], 0);
    assert IsObject(w.target) by { assert "x"[0] != TMP[0]; }
    var clean := Clean(n, 77, {INIT, 77}, TmpPath(cfg, w));
    FileTaken(cfg, s, w, clean);
    TwoSteps(cfg, s, Open(0), clean);
    hide Enabled, Apply, IsRun, After, Hosts, TmpPath;
    var e := After(cfg, s, [Open(0), clean]);
    assert Live(e.writers[0]);
    SameTmp(cfg, w, e.writers[0]);
    FileLost(cfg, s, [Open(0), clean]);
  }

  lemma SameTmp(cfg: Config, w: Writer, v: Writer)
    requires w.target != [] && v == w.(stage := v.stage)
    ensures TmpPath(cfg, v) == TmpPath(cfg, w)
  {
  }

  lemma FileLost(cfg: Config, s: State, run: seq<Action>)
    requires Start(cfg, s) && IsRun(cfg, s, run) && !LiveFilesKept(cfg, After(cfg, s, run))
    ensures !KeptInEveryRun(cfg.hosts)
  {
    hide Start, IsRun, After, LiveFilesKept;
  }

  lemma FileTaken(cfg: Config, s: State, w: Writer, clean: Action)
    requires Hosts(cfg.hosts) && ValidWriter(w) && w.stage == Ready && s.writers == [w]
    requires clean.Clean? && clean.path == TmpPath(cfg, w)
    requires cfg.hosts(clean.machine) == cfg.hosts(w.machine) && clean.machine != w.machine
    requires w.pid !in clean.alive && INIT in clean.alive && clean.cleaner in clean.alive
    ensures Enabled(cfg, s, Open(0)) && Enabled(cfg, Apply(cfg, s, Open(0)), clean)
    ensures var e := Apply(cfg, Apply(cfg, s, Open(0)), clean);
            |e.writers| == 1 && e.writers[0] == w.(stage := Writing(0)) && TmpPath(cfg, w) !in e.tree
  {
    TmpIsTemp(cfg, w);
    SparedExactly(cfg.hosts(w.machine), w.pid, w.random, 0, cfg.hosts(clean.machine), clean.alive);
    assert NameOf(TmpPath(cfg, w)) == TmpName(cfg.hosts(w.machine), w.pid, w.random);
    hide InFlight, TmpName, IsTemp;
    var t := Apply(cfg, s, Open(0));
    assert t.writers == [w.(stage := Writing(0))] && t.tree[TmpPath(cfg, w)] == File([], s.now);
  }

  // Cleanups never take a live writer's file, in any run of any writers, if and
  // only if no two machines share a host id.
  lemma KeptExactly(hosts: nat -> string)
    requires Hosts(hosts)
    ensures KeptInEveryRun(hosts) <==> DistinctHosts(hosts)
  {
    if DistinctHosts(hosts) {
      forall cfg: Config, s: State, run: seq<Action> | cfg.hosts == hosts && Start(cfg, s) && IsRun(cfg, s, run)
        ensures LiveFilesKept(cfg, After(cfg, s, run))
      {
        StartInv(cfg, s);
        RunInv(cfg, s, run);
        InvKeeps(cfg, After(cfg, s, run));
      }
    } else {
      var m, n :| hosts(m) == hosts(n) && m != n;
      SharedIdLosesFile(hosts, m, n);
    }
  }

  lemma InvKeeps(cfg: Config, s: State)
    requires Inv(cfg, s)
    ensures LiveFilesKept(cfg, s)
  {
  }

  // Whatever the machines are called, their ids are host ids.
  lemma AnyHosts(variable: nat -> Option<string>, system: nat -> Option<string>)
    ensures Hosts((m: nat) => HostId(variable(m), system(m)))
  {
    var hosts := (m: nat) => HostId(variable(m), system(m));
    forall m: nat ensures IsHostId(hosts(m)) {
      assert hosts(m) == HostId(variable(m), system(m));
    }
  }

  // Two machines called db.1 and db-1 have one id.
  lemma DottedNamesCollide(hosts: nat -> string, m: nat, n: nat)
    requires Hosts(hosts) && m != n
    requires hosts(m) == HostId(Some("db.1"), None) && hosts(n) == HostId(Some("db-1"), None)
    ensures !KeptInEveryRun(hosts)
  {
    assert SanitizeHostname("db.1") == SanitizeHostname("db-1");
    SharedIdLosesFile(hosts, m, n);
  }
}
