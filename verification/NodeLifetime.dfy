/** Who may free the one Go node: C++ nodes, builds under way and the global
    node over any sequence of constructions, builds, cancellations, moves, frees
    and destructions (src/node.cpp, src/ipfs_bindings/ipfs_node.go). */
module NodeLifetime {
  import opened Wrappers
  import opened NodeStart

  /** A `build_` whose callback has not run, by the node_impl it made. `holds`:
      its allocate_node succeeded. `result`: what Go reported, once it has.
      `aborting`: it was cancelled before Go's report was run. */
  datatype Build = Build(holds: bool, result: Option<int>, aborting: bool)

  /** `nodes` are the C++ node objects with their `_impl`; `impls` the
      node_impls allocated now, `freed` those deleted; they are never confused
      because each gets a new name from `next`. */
  datatype Process = Process(
    go: GoState, nodes: map<nat, Option<nat>>, builds: map<nat, Build>,
    impls: set<nat>, freed: set<nat>, next: nat)

  const INIT: Process := Process(FRESH, map[], map[], {}, {}, 0)

  datatype Action =
    | Construct(n: nat, st: Stages)   // node::node, blocking
    | StartBuild                      // node::build_
    | ReportExists(p: nat)            // Go reports that its allocation failed
    | FinishStart(st: Stages)         // start_node returns and Go reports
    | CancelBuild(p: nat)
    | Deliver(p: nat, n: nat)         // the build's callback runs, making n if it may
    | Move(n: nat, m: nat)            // node m(std::move(n))
    | Assign(n: nat, m: nat)          // m = std::move(n)
    | Free(n: nat)                    // n.free()
    | Destroy(n: nat)                 // ~node, of n

  ghost predicate Enabled(s: Process, a: Action)
  {
    match a
    case Construct(n, _) => n !in s.nodes
    case StartBuild => true
    case ReportExists(p) => p in s.builds && !s.builds[p].holds && s.builds[p].result.None?
    case FinishStart(_) => s.go.node.Some? && s.go.node.value.starting
    case CancelBuild(p) => p in s.builds && !s.builds[p].aborting
    case Deliver(p, n) => p in s.builds && (s.builds[p].aborting || s.builds[p].result.Some?) && n !in s.nodes
    case Move(n, m) => n in s.nodes && m !in s.nodes
    case Assign(n, m) => n in s.nodes && m in s.nodes && n != m
    case Free(n) => n in s.nodes
    case Destroy(n) => n in s.nodes
  }

  /** Deleting a node_impl that is not allocated is undefined. */
  ghost predicate Owned(s: Process, p: nat) { p in s.impls }

  /** `node::free` throws when there is no Go node (in the destructor that is
      assert(false)), and must not overtake a start. */
  ghost predicate FreeSafe(s: Process, n: nat)
    requires n in s.nodes
  {
    s.nodes[n].Some? ==>
      s.go.node.Some? && !s.go.node.value.starting && Owned(s, s.nodes[n].value)
      && (s.go.node.value.collector ==> s.go.collectors > 0)
  }

  /** The one-time registrations do not panic in a start that begins here. */
  ghost predicate StartSafe(g: GoState) {
    g.collectors == 0 && (!g.metrics ==> g.gauges == 0)
    && (!g.mpromeInjected ==> g.injections == 0) && (!g.pluginsInjected ==> g.pluginInjections == 0)
  }

  ghost predicate Safe(s: Process, a: Action)
    requires Enabled(s, a)
  {
    match a
    case Construct(_, _) => s.go.node.None? ==> StartSafe(s.go)
    case FinishStart(_) => StartSafe(s.go)
    case Deliver(p, _) => Owned(s, p)
    case Assign(n, m) => s.nodes[m].Some? ==> Owned(s, s.nodes[m].value)
    case Free(n) => FreeSafe(s, n)
    case Destroy(n) => FreeSafe(s, n)
    case _ => true
  }

  ghost function Delete(s: Process, p: nat): Process {
    s.(impls := s.impls - {p}, freed := s.freed + {p})
  }

  ghost function Allocated(g: GoState, p: nat): GoState {
    g.(node := Some(NodeState(p, true, false, false, false)))
  }

  /** The constructor: a failed start throws, which deletes the node_impl. */
  ghost function ConstructNode(s: Process, n: nat, st: Stages): Process {
    var s1 := s.(next := s.next + 1);
    if s.go.node.Some? then s1.(freed := s.freed + {s.next})
    else
      var g := Allocated(s.go, s.next);
      if StartCode(g, st) == IPFS_SUCCESS
      then s1.(go := Started(g, st), impls := s.impls + {s.next}, nodes := s.nodes[n := Some(s.next)])
      else s1.(go := Started(g, st), freed := s.freed + {s.next})
  }

  ghost function BuildNode(s: Process): Process {
    var holds := s.go.node.None?;
    s.(next := s.next + 1,
       go := if holds then Allocated(s.go, s.next) else s.go,
       impls := s.impls + {s.next},
       builds := s.builds[s.next := Build(holds, None, false)])
  }

  /** Go reports to the build it works for, unless that was told of an abort. */
  ghost function FinishBuild(s: Process, st: Stages): Process
    requires s.go.node.Some?
  {
    var p := s.go.node.value.arg;
    s.(go := Started(s.go, st),
       builds := if p in s.builds then s.builds[p := s.builds[p].(result := Some(StartCode(s.go, st)))] else s.builds)
  }

  /** The build's callback: an error deletes the node_impl, success hands it to
      the node that the user gets. */
  ghost function DeliverBuild(s: Process, p: nat, n: nat): Process
    requires p in s.builds
  {
    var s1 := s.(builds := s.builds - {p});
    if !s.builds[p].aborting && s.builds[p].result == Some(IPFS_SUCCESS)
    then s1.(nodes := s.nodes[n := Some(p)])
    else Delete(s1, p)
  }

  ghost function FreeNode(s: Process, n: nat): Process
    requires n in s.nodes
  {
    if s.nodes[n].None? then s
    else Delete(s.(go := Freed(s.go), nodes := s.nodes[n := None]), s.nodes[n].value)
  }

  ghost function AssignNode(s: Process, n: nat, m: nat): Process
    requires n in s.nodes && m in s.nodes
  {
    var s1 := if s.nodes[m].Some? then Delete(s, s.nodes[m].value) else s;
    s1.(nodes := s.nodes[m := s.nodes[n]][n := None])
  }

  ghost function Apply(s: Process, a: Action): Process
    requires Enabled(s, a) && Safe(s, a)
  {
    match a
    case Construct(n, st) => ConstructNode(s, n, st)
    case StartBuild => BuildNode(s)
    case ReportExists(p) => s.(builds := s.builds[p := s.builds[p].(result := Some(IPFS_NODE_EXISTS))])
    case FinishStart(st) => FinishBuild(s, st)
    case CancelBuild(p) => s.(builds := s.builds[p := s.builds[p].(aborting := true)])
    case Deliver(p, n) => DeliverBuild(s, p, n)
    case Move(n, m) => s.(nodes := s.nodes[m := s.nodes[n]][n := None])
    case Assign(n, m) => AssignNode(s, n, m)
    case Free(n) => FreeNode(s, n)
    case Destroy(n) => var s1 := FreeNode(s, n); s1.(nodes := s1.nodes - {n})
  }

  datatype Reached = At(s: Process) | Crashed | NotARun

  ghost function Exec(s: Process, run: seq<Action>): Reached
    decreases |run|
  {
    if run == [] then At(s)
    else if !Enabled(s, run[0]) then NotARun
    else if !Safe(s, run[0]) then Crashed
    else Exec(Apply(s, run[0]), run[1..])
  }

  // ----- The invariant -----------------------------------------------------

  /** A C++ node with a node_impl is the one the Go node was started for, and
      that start has succeeded. */
  ghost predicate NodesOk(s: Process) {
    && (forall n :: n in s.nodes && s.nodes[n].Some? ==>
          && s.go.node.Some? && s.go.node.value.arg == s.nodes[n].value
          && !s.go.node.value.starting && s.go.node.value.collector
          && s.nodes[n].value in s.impls && s.nodes[n].value !in s.builds)
    && (forall n, m :: n in s.nodes && m in s.nodes && s.nodes[n].Some? && s.nodes[m].Some? ==> n == m)
  }

  ghost predicate BuildsOk(s: Process) {
    forall p :: p in s.builds ==>
      var b := s.builds[p];
      && p in s.impls
      && (b.holds ==> s.go.node.Some? && s.go.node.value.arg == p && (b.result.None? <==> s.go.node.value.starting))
      && (b.result == Some(IPFS_SUCCESS) ==> b.holds && s.go.node.value.collector)
      && (b.result.Some? && !b.holds ==> b.result == Some(IPFS_NODE_EXISTS))
  }

  /** Every node_impl is allocated or deleted, never both; those allocated have
      exactly one owner, a build under way or a node. */
  ghost predicate ImplsOk(s: Process) {
    && (forall p: nat :: p < s.next <==> p in s.impls || p in s.freed)
    && (forall p :: p in s.impls ==> p !in s.freed)
    && (forall p :: p in s.impls ==> p in s.builds || InNode(s, p))
    && (s.go.node.Some? ==> s.go.node.value.arg < s.next)
    && (s.go.node.Some? && s.go.node.value.arg in s.builds ==> s.builds[s.go.node.value.arg].holds)
  }

  ghost predicate InNode(s: Process, p: nat) {
    exists n :: n in s.nodes && s.nodes[n] == Some(p)
  }

  ghost predicate Inv(s: Process) {
    FlagsOk(s.go) && NodesOk(s) && BuildsOk(s) && ImplsOk(s)
  }

  lemma InvSafe(s: Process, a: Action)
    requires Inv(s) && Enabled(s, a)
    ensures Safe(s, a)
  {}

  lemma StepKeepsFlags(s: Process, a: Action)
    requires Inv(s) && Enabled(s, a) && Safe(s, a)
    ensures FlagsOk(Apply(s, a).go)
  {
    match a
    case Construct(n, st) => if s.go.node.None? { StartedKeepsFlags(Allocated(s.go, s.next), st); }
    case FinishStart(st) => StartedKeepsFlags(s.go, st);
    case _ =>
  }

  lemma StepKeepsNodes(s: Process, a: Action)
    requires Inv(s) && Enabled(s, a) && Safe(s, a)
    ensures NodesOk(Apply(s, a))
  {
    match a
    case Construct(n, st) => SuccessMeansAllPassed(Allocated(s.go, s.next), st);
    case _ =>
  }

  lemma StepKeepsBuilds(s: Process, a: Action)
    requires Inv(s) && Enabled(s, a) && Safe(s, a)
    ensures BuildsOk(Apply(s, a))
  {
    match a
    case FinishStart(st) => SuccessMeansAllPassed(s.go, st);
    case _ =>
  }

  lemma StepKeepsOwner(s: Process, a: Action, p: nat)
    requires Inv(s) && Enabled(s, a) && Safe(s, a) && p in Apply(s, a).impls && InNode(s, p)
    ensures InNode(Apply(s, a), p)
  {
    var n :| n in s.nodes && s.nodes[n] == Some(p);
    var m := if (a.Move? || a.Assign?) && a.n == n then a.m else n;
    assert m in Apply(s, a).nodes && Apply(s, a).nodes[m] == Some(p);
  }

  lemma StepFindsOwner(s: Process, a: Action, p: nat)
    requires Inv(s) && Enabled(s, a) && Safe(s, a) && p in Apply(s, a).impls && !InNode(s, p)
    ensures p in Apply(s, a).builds || InNode(Apply(s, a), p)
  {
    var s' := Apply(s, a);
    if p !in s'.builds {
      if a.Construct? { assert s'.nodes[a.n] == Some(p); }
      if a.Deliver? { assert s'.nodes[a.n] == Some(p); }
    }
  }

  lemma StepKeepsNames(s: Process, a: Action)
    requires Inv(s) && Enabled(s, a) && Safe(s, a)
    ensures var s' := Apply(s, a);
      && (forall p: nat :: p < s'.next <==> p in s'.impls || p in s'.freed)
      && (forall p :: p in s'.impls ==> p !in s'.freed)
  {}

  lemma StepKeepsImpls(s: Process, a: Action)
    requires Inv(s) && Enabled(s, a) && Safe(s, a)
    ensures ImplsOk(Apply(s, a))
  {
    var s' := Apply(s, a);
    StepKeepsNames(s, a);
    forall p | p in s'.impls ensures p in s'.builds || InNode(s', p) {
      if InNode(s, p) { StepKeepsOwner(s, a, p); } else { StepFindsOwner(s, a, p); }
    }
  }

  lemma StepKeeps(s: Process, a: Action)
    requires Inv(s) && Enabled(s, a)
    ensures Safe(s, a) && Inv(Apply(s, a))
  {
    InvSafe(s, a);
    StepKeepsFlags(s, a);
    StepKeepsNodes(s, a);
    StepKeepsBuilds(s, a);
    StepKeepsImpls(s, a);
  }

  /** Over all sequences: no destructor asserts, no registration panics, no
      node_impl is deleted twice. */
  lemma {:induction false} NoRunCrashes(s: Process, run: seq<Action>)
    requires Inv(s)
    ensures !Exec(s, run).Crashed?
    ensures Exec(s, run).At? ==> Inv(Exec(s, run).s)
    decreases |run|
  {
    if run != [] && Enabled(s, run[0]) {
      StepKeeps(s, run[0]);
      NoRunCrashes(Apply(s, run[0]), run[1..]);
    }
  }

  // ----- What the invariant means ------------------------------------------

  /** The node_impl `p` keeps the Go node alive: a C++ node has it, or a build
      under way whose allocation succeeded. */
  ghost predicate Holder(s: Process, p: nat) {
    InNode(s, p) || (p in s.builds && s.builds[p].holds)
  }

  /** There is at most one holder, and while there is one there is a Go node;
      so an operation started through a C++ node never meets IPFS_NO_NODE. */
  lemma SingleHolder(s: Process, p: nat, q: nat)
    requires Inv(s) && Holder(s, p)
    ensures s.go.node.Some? && s.go.node.value.arg == p
    ensures Holder(s, q) ==> p == q
  {}

  /** Over all runs, each one-time registration succeeded at most once and at
      most one collector is registered. */
  lemma RegisteredAtMostOnce(run: seq<Action>)
    requires Exec(INIT, run).At?
    ensures var g := Exec(INIT, run).s.go;
      g.injections <= 1 && g.pluginInjections <= 1 && g.gauges <= 1 && g.collectors <= 1
      && (g.collectors == 1 ==> g.node.Some?)
  {
    NoRunCrashes(INIT, run);
  }

  /** What was registered stays so. */
  ghost predicate NothingUndone(g: GoState, g': GoState) {
    && (g.mpromeInjected ==> g'.mpromeInjected) && (g.pluginsInjected ==> g'.pluginsInjected)
    && (g.metrics ==> g'.metrics)
    && g.injections <= g'.injections && g.pluginInjections <= g'.pluginInjections && g.gauges <= g'.gauges
  }

  lemma StartUndoesNothing(g: GoState, st: Stages)
    requires g.node.Some?
    ensures NothingUndone(g, Started(g, st))
  {}

  lemma StepUndoesNothing(s: Process, a: Action)
    requires Enabled(s, a) && Safe(s, a)
    ensures NothingUndone(s.go, Apply(s, a).go)
  {
    match a
    case Construct(n, st) => StartUndoesNothing(Allocated(s.go, s.next), st);
    case FinishStart(st) => StartUndoesNothing(s.go, st);
    case _ =>
  }

  lemma {:induction false} RunUndoesNothing(s: Process, run: seq<Action>)
    requires Exec(s, run).At?
    ensures NothingUndone(s.go, Exec(s, run).s.go)
    decreases |run|
  {
    if run != [] { StepUndoesNothing(s, run[0]); RunUndoesNothing(Apply(s, run[0]), run[1..]); }
  }

  lemma {:induction false} RunSplits(s: Process, run: seq<Action>, k: nat)
    requires k <= |run| && Exec(s, run).At?
    ensures Exec(s, run[..k]).At? && Exec(s, run) == Exec(Exec(s, run[..k]).s, run[k..])
    decreases k
  {
    if k > 0 {
      RunSplits(Apply(s, run[0]), run[1..], k - 1);
      assert run[1..][..k - 1] == run[..k][1..] && run[1..][k - 1..] == run[k..];
    } else {
      assert run[k..] == run;
    }
  }

  /** From any point of a run on, over frees and restarts, no flag is cleared and
      no count of registrations falls. So the counts are those of the process,
      and RegisteredAtMostOnce bounds them. */
  lemma RegistrationsAreForGood(run: seq<Action>, k: nat)
    requires k <= |run| && Exec(INIT, run).At?
    ensures Exec(INIT, run[..k]).At? && NothingUndone(Exec(INIT, run[..k]).s.go, Exec(INIT, run).s.go)
  {
    RunSplits(INIT, run, k);
    RunUndoesNothing(Exec(INIT, run[..k]).s, run[k..]);
  }

  /** Over all runs, every node_impl ever made is either deleted, once, or has
      exactly one owner; when no build is under way and no node has one, none
      is left. */
  lemma EveryImplIsReleasedOnce(run: seq<Action>, p: nat)
    requires Exec(INIT, run).At? && p < Exec(INIT, run).s.next
    ensures var s := Exec(INIT, run).s;
      && (p in s.freed <==> p !in s.impls)
      && (p in s.impls <==> (p in s.builds || InNode(s, p)))
      && !(p in s.builds && InNode(s, p))
  {
    NoRunCrashes(INIT, run);
  }

  /** A build is told of its own start: success iff every stage passed, and
      otherwise the code of the stage that failed. */
  lemma BuildIsToldItsStart(s: Process, p: nat, st: Stages)
    requires Inv(s) && p in s.builds && s.builds[p].holds && s.builds[p].result.None?
    ensures Enabled(s, FinishStart(st)) && Safe(s, FinishStart(st))
    ensures var r := Apply(s, FinishStart(st)).builds[p].result; var n := Passed(s.go, st);
      r == Some(if n == 12 then IPFS_SUCCESS else StageCode(n))
      && (r == Some(IPFS_SUCCESS) <==> HasServers(s.go, st) && st.coreApi)
  {
    InvSafe(s, FinishStart(st));
    PassesServers(s.go, st);
    PassesOneMore(s.go, st, 11);
    SuccessMeansAllPassed(s.go, st);
  }

  // ----- Restarting --------------------------------------------------------

  /** A Go node that nobody will ever free: no C++ node has it, and the build
      it was started for, if still under way, is to be told an error. */
  ghost predicate Doomed(s: Process) {
    && s.go.node.Some?
    && var p := s.go.node.value.arg;
      && !InNode(s, p)
      && (p in s.builds ==>
            s.builds[p].aborting || (s.builds[p].result.Some? && s.builds[p].result != Some(IPFS_SUCCESS)))
  }

  lemma StepKeepsDoomed(s: Process, a: Action)
    requires Inv(s) && Doomed(s) && Enabled(s, a) && Safe(s, a)
    ensures Doomed(Apply(s, a))
  {
    var p := s.go.node.value.arg;
    var s' := Apply(s, a);
    assert forall n :: n in s.nodes ==> s.nodes[n].None?;
    assert s'.go.node.Some? && s'.go.node.value.arg == p;
    assert !InNode(s', p);
  }

  lemma {:induction false} DoomedForEver(s: Process, run: seq<Action>)
    requires Inv(s) && Doomed(s) && Exec(s, run).At?
    ensures Doomed(Exec(s, run).s)
    decreases |run|
  {
    if run != [] {
      StepKeeps(s, run[0]);
      StepKeepsDoomed(s, run[0]);
      DoomedForEver(Apply(s, run[0]), run[1..]);
    }
  }

  /** Some continuation lets a start past allocate_node. */
  ghost predicate Restartable(s: Process) {
    exists run :: Exec(s, run).At? && Exec(s, run).s.go.node.None?
  }

  ghost function NewName(s: Process): (n: nat)
    ensures n !in s.nodes
  {
    FreshName(s.nodes.Keys);
    var n :| n !in s.nodes; n
  }

  lemma FreshName(used: set<nat>)
    ensures exists n: nat :: n !in used
  {
    var bound := UpTo(used);
    assert bound !in used;
  }

  lemma {:induction false} UpTo(used: set<nat>) returns (bound: nat)
    ensures forall n :: n in used ==> n < bound
    decreases |used|
  {
    if used == {} {
      bound := 0;
    } else {
      var n :| n in used;
      var b := UpTo(used - {n});
      bound := if n < b then b else n + 1;
      assert forall m :: m in used ==> m == n || m in used - {n};
    }
  }

  lemma RecoverFromNode(s: Process, n: nat)
    requires Inv(s) && n in s.nodes && s.nodes[n].Some?
    ensures Restartable(s)
  {
    var run := [Free(n)];
    InvSafe(s, Free(n));
    assert Exec(Apply(s, Free(n)), run[1..]) == At(Apply(s, Free(n)));
    assert Exec(s, run).s.go.node.None?;
  }

  lemma RecoverFirst(s: Process, a: Action)
    requires Inv(s) && Enabled(s, a) && Safe(s, a) && Restartable(Apply(s, a))
    ensures Restartable(s)
  {
    var rest :| Exec(Apply(s, a), rest).At? && Exec(Apply(s, a), rest).s.go.node.None?;
    assert ([a] + rest)[1..] == rest;
    assert Exec(s, [a] + rest) == Exec(Apply(s, a), rest);
  }

  lemma RecoverFromReport(s: Process, p: nat)
    requires Inv(s) && p in s.builds && !s.builds[p].aborting && s.builds[p].result == Some(IPFS_SUCCESS)
    ensures Restartable(s)
  {
    var n := NewName(s);
    var a := Deliver(p, n);
    StepKeeps(s, a);
    RecoverFromNode(Apply(s, a), n);
    RecoverFirst(s, a);
  }

  lemma RecoverFromBuild(s: Process, p: nat)
    requires Inv(s) && p in s.builds && s.builds[p].holds && !s.builds[p].aborting && s.builds[p].result.None?
    ensures Restartable(s)
  {
    var a := FinishStart(ALL_WELL);
    StepKeeps(s, a);
    SuccessMeansAllPassed(s.go, ALL_WELL);
    RecoverFromReport(Apply(s, a), p);
    RecoverFirst(s, a);
  }

  /** A new start can get past allocate_node, now or after some continuation,
      if and only if the present Go node is not doomed. */
  lemma RestartableExactlyUnlessDoomed(s: Process)
    requires Inv(s)
    ensures Restartable(s) <==> !Doomed(s)
  {
    if Restartable(s) && Doomed(s) {
      var run :| Exec(s, run).At? && Exec(s, run).s.go.node.None?;
      DoomedForEver(s, run);
      assert false;
    }
    if !Doomed(s) {
      if s.go.node.None? {
        assert Exec(s, []) == At(s);
      } else {
        var p := s.go.node.value.arg;
        if InNode(s, p) {
          var n :| n in s.nodes && s.nodes[n] == Some(p);
          RecoverFromNode(s, n);
        } else if s.builds[p].result.None? {
          RecoverFromBuild(s, p);
        } else {
          RecoverFromReport(s, p);
        }
      }
    }
  }

  /** A step that makes the node doomed: a start that fails after allocate_node,
      cancelling the build that holds the node, or assigning over its owner. */
  ghost predicate Dooms(s: Process, a: Action)
    requires Enabled(s, a)
  {
    match a
    case Construct(n, st) => s.go.node.None? && StartCode(Allocated(s.go, s.next), st) != IPFS_SUCCESS
    case FinishStart(st) => StartCode(s.go, st) != IPFS_SUCCESS
    case CancelBuild(p) => s.builds[p].holds
    case Assign(n, m) => s.nodes[m].Some?
    case _ => false
  }

  lemma DoomedExactlyBy(s: Process, a: Action)
    requires Inv(s) && !Doomed(s) && Enabled(s, a) && Safe(s, a)
    ensures Doomed(Apply(s, a)) <==> Dooms(s, a)
  {
    StepKeeps(s, a);
    var s' := Apply(s, a);
    if s.go.node.Some? && InNode(s, s.go.node.value.arg) {
      var n :| n in s.nodes && s.nodes[n] == Some(s.go.node.value.arg);
      var m := if (a.Move? || a.Assign?) && a.n == n then a.m else n;
      assert m in s'.nodes ==> s'.nodes[m] == s.nodes[n] || s'.nodes[m].None?;
    }
    if a.Construct? && s.go.node.None? && !Dooms(s, a) {
      assert s'.nodes[a.n] == Some(s.next);
    }
    if a.Deliver? && a.n in s'.nodes {
      assert s'.nodes[a.n] == Some(a.p);
    }
  }

  /** The plainest case: one configuration that does not parse, and no later
      start in this process can succeed. */
  lemma OneBadConfigEndsAllStarts(n: nat, st: Stages)
    requires !st.parse
    ensures var s := ConstructNode(INIT, n, st);
      Exec(INIT, [Construct(n, st)]) == At(s) && !Restartable(s)
  {
    var a := Construct(n, st);
    InvSafe(INIT, a);
    var s := Apply(INIT, a);
    assert [a][1..] == [];
    assert Exec(s, []) == At(s);
    assert !StagePasses(Allocated(FRESH, 0), st, 0);
    StepKeeps(INIT, a);
    RestartableExactlyUnlessDoomed(s);
  }
}
