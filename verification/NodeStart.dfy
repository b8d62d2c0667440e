/** Starting and freeing the one Go node of a process
    (src/ipfs_bindings/ipfs_node.go): the global flags, the stages of
    `start_node` and what each failure leaves behind. */
module NodeStart {
  import opened Wrappers

  // include/ipfs_error_codes.h
  const IPFS_SUCCESS: int := 0
  const IPFS_NODE_EXISTS: int := 1
  const IPFS_PARSE_CONFIG_FAIL: int := 2
  const IPFS_READ_CONFIG_FAILED: int := 3
  const IPFS_CREATE_REPO_FAILED: int := 4
  const IPFS_OPEN_REPO_FAILED: int := 5
  const IPFS_PLUGINS_FAILED: int := 6
  const IPFS_API_ACCESS_FAILED: int := 7
  const IPFS_START_NODE_FAILED: int := 8
  const IPFS_MPROME_INJECT_FAILED: int := 9
  const IPFS_NO_NODE: int := 12
  const IPFS_GC_FAILED: int := 20
  const IPFS_API_FAILED: int := 21
  const IPFS_GATEWAY_FAILED: int := 22
  const IPFS_BUILD_ENV_FAILED: int := 24

  /** The results of the foreign calls that one start makes. */
  datatype Stages = Stages(
    parse: bool, inject: bool, loadPlugins: bool, injectPlugins: bool,
    isInitialized: bool, initRepo: bool, openRepo: bool, readConfig: bool,
    newNode: bool, startPlugins: bool, runGC: bool, serveApi: bool,
    serveGateway: bool, coreApi: bool)

  const ALL_WELL: Stages :=
    Stages(true, true, true, true, true, true, true, true, true, true, true, true, true, true)

  /** `*g_node`. `arg` is `state_cb_arg`, the C++ node_impl it was started for. */
  datatype NodeState = NodeState(arg: nat, starting: bool, cctx: bool, built: bool, collector: bool)

  /** The process-wide variables, and what the libraries they guard have seen:
      how often each one-time registration succeeded, and how many collectors
      are registered now. */
  datatype GoState = GoState(
    mpromeInjected: bool, pluginsInjected: bool, metrics: bool, node: Option<NodeState>,
    injections: nat, pluginInjections: nat, gauges: nat, collectors: nat)

  const FRESH: GoState := GoState(false, false, false, None, 0, 0, 0, 0)

  /** A one-time registration has happened iff its flag is set, and then once;
      a collector is registered iff the node has one. */
  ghost predicate FlagsOk(g: GoState) {
    && g.injections == (if g.mpromeInjected then 1 else 0)
    && g.pluginInjections == (if g.pluginsInjected then 1 else 0)
    && g.gauges == (if g.metrics then 1 else 0)
    && g.collectors == (if g.node.Some? && g.node.value.collector then 1 else 0)
    && (g.node.Some? && g.node.value.starting ==> !g.node.value.collector)
  }

  /** The stages of `start_node` in order: does it pass? */
  predicate StagePasses(g: GoState, st: Stages, k: nat)
    requires k < 12
  {
    match k
    case 0 => st.parse
    case 1 => g.mpromeInjected || st.inject
    case 2 => st.loadPlugins && (g.pluginsInjected || st.injectPlugins)
    case 3 => st.isInitialized || st.initRepo
    case 4 => st.openRepo
    case 5 => st.readConfig
    case 6 => st.newNode
    case 7 => st.startPlugins
    case 8 => st.runGC
    case 9 => st.serveApi
    case 10 => st.serveGateway
    case _ => st.coreApi
  }

  /** And what is returned if that is the first that does not. */
  function StageCode(k: nat): int {
    match k
    case 0 => IPFS_PARSE_CONFIG_FAIL
    case 1 => IPFS_MPROME_INJECT_FAILED
    case 2 => IPFS_BUILD_ENV_FAILED
    case 3 => IPFS_CREATE_REPO_FAILED
    case 4 => IPFS_OPEN_REPO_FAILED
    case 5 => IPFS_READ_CONFIG_FAILED
    case 6 => IPFS_START_NODE_FAILED
    case 7 => IPFS_PLUGINS_FAILED
    case 8 => IPFS_GC_FAILED
    case 9 => IPFS_API_FAILED
    case 10 => IPFS_GATEWAY_FAILED
    case 11 => IPFS_API_ACCESS_FAILED
    case _ => IPFS_SUCCESS
  }

  /** How many stages pass before the first one that fails. */
  ghost function PassedFrom(g: GoState, st: Stages, k: nat): (n: nat)
    requires k <= 12
    ensures k <= n <= 12
    ensures forall i :: k <= i < n ==> StagePasses(g, st, i)
    ensures n < 12 ==> !StagePasses(g, st, n)
    decreases 12 - k
  {
    if k == 12 || !StagePasses(g, st, k) then k else PassedFrom(g, st, k + 1)
  }

  ghost function Passed(g: GoState, st: Stages): (n: nat)
    ensures n <= 12
    ensures forall i :: 0 <= i < n ==> StagePasses(g, st, i)
    ensures n < 12 ==> !StagePasses(g, st, n)
  {
    PassedFrom(g, st, 0)
  }

  ghost function StartCode(g: GoState, st: Stages): int { StageCode(Passed(g, st)) }

  /** What a start leaves that got through `n` stages: every registration that
      lies before the failing stage has happened and stays. */
  ghost function StartedAt(g: GoState, n: nat): GoState
    requires g.node.Some?
  {
    GoState(
      g.mpromeInjected || n >= 2,
      g.pluginsInjected || n >= 3,
      g.metrics || n >= 11,
      Some(NodeState(g.node.value.arg, false, n >= 3, n >= 7, n >= 11)),
      g.injections + (if !g.mpromeInjected && n >= 2 then 1 else 0),
      g.pluginInjections + (if !g.pluginsInjected && n >= 3 then 1 else 0),
      g.gauges + (if !g.metrics && n >= 11 then 1 else 0),
      g.collectors + (if n >= 11 then 1 else 0))
  }

  ghost function Started(g: GoState, st: Stages): GoState
    requires g.node.Some?
  {
    StartedAt(g, Passed(g, st))
  }

  lemma StopsAt(g: GoState, st: Stages, k: nat)
    requires k <= 12
    requires forall i :: 0 <= i < k ==> StagePasses(g, st, i)
    requires k < 12 ==> !StagePasses(g, st, k)
    ensures Passed(g, st) == k && StartCode(g, st) == StageCode(k)
  {}

  lemma ReachesExactly(g: GoState, st: Stages, k: nat)
    requires k <= 12
    ensures Passed(g, st) >= k <==> forall i :: 0 <= i < k ==> StagePasses(g, st, i)
  {}

  /** Only a node that never failed gets a success. */
  lemma SuccessMeansAllPassed(g: GoState, st: Stages)
    requires g.node.Some?
    ensures StartCode(g, st) == IPFS_SUCCESS <==> Passed(g, st) == 12
    ensures StartCode(g, st) == IPFS_SUCCESS ==> Started(g, st).node.value.collector
    ensures StartCode(g, st) == IPFS_SUCCESS <==> forall k :: 0 <= k < 12 ==> StagePasses(g, st, k)
  {
    ReachesExactly(g, st, 12);
  }

  // How far a start gets, in the source's own terms: the global environment, the
  // core node, the servers.

  predicate HasEnvironment(g: GoState, st: Stages) {
    && st.parse && (g.mpromeInjected || st.inject)
    && st.loadPlugins && (g.pluginsInjected || st.injectPlugins)
  }

  predicate HasCoreNode(g: GoState, st: Stages) {
    && HasEnvironment(g, st)
    && (st.isInitialized || st.initRepo) && st.openRepo && st.readConfig && st.newNode
  }

  predicate HasServers(g: GoState, st: Stages) {
    HasCoreNode(g, st) && st.startPlugins && st.runGC && st.serveApi && st.serveGateway
  }

  lemma PassesOneMore(g: GoState, st: Stages, k: nat)
    requires k < 12
    ensures Passed(g, st) > k <==> Passed(g, st) >= k && StagePasses(g, st, k)
  {}

  lemma PassesEnvironment(g: GoState, st: Stages)
    ensures Passed(g, st) >= 2 <==> st.parse && (g.mpromeInjected || st.inject)
    ensures Passed(g, st) >= 3 <==> HasEnvironment(g, st)
  {
    PassesOneMore(g, st, 0);
    PassesOneMore(g, st, 1);
    PassesOneMore(g, st, 2);
  }

  lemma PassesCoreNode(g: GoState, st: Stages)
    ensures Passed(g, st) >= 7 <==> HasCoreNode(g, st)
  {
    PassesEnvironment(g, st);
    PassesOneMore(g, st, 3);
    PassesOneMore(g, st, 4);
    PassesOneMore(g, st, 5);
    PassesOneMore(g, st, 6);
  }

  lemma PassesServers(g: GoState, st: Stages)
    ensures Passed(g, st) >= 11 <==> HasServers(g, st)
  {
    PassesCoreNode(g, st);
    PassesOneMore(g, st, 7);
    PassesOneMore(g, st, 8);
    PassesOneMore(g, st, 9);
    PassesOneMore(g, st, 10);
  }

  /** What a start leaves: the registrations of all the stages it got to, and of
      no others; the node, with what had been built by then. */
  lemma StartLeaves(g: GoState, st: Stages)
    requires g.node.Some?
    ensures var g' := Started(g, st);
      && g'.mpromeInjected == (g.mpromeInjected || (st.parse && st.inject))
      && g'.pluginsInjected == (g.pluginsInjected || HasEnvironment(g, st))
      && g'.metrics == (g.metrics || HasServers(g, st))
      && g'.node == Some(NodeState(g.node.value.arg, false, HasEnvironment(g, st), HasCoreNode(g, st), HasServers(g, st)))
      && g'.injections == g.injections + (if g'.mpromeInjected && !g.mpromeInjected then 1 else 0)
      && g'.pluginInjections == g.pluginInjections + (if g'.pluginsInjected && !g.pluginsInjected then 1 else 0)
      && g'.gauges == g.gauges + (if g'.metrics && !g.metrics then 1 else 0)
      && g'.collectors == g.collectors + (if HasServers(g, st) then 1 else 0)
  {
    PassesServers(g, st);
    PassesCoreNode(g, st);
    PassesEnvironment(g, st);
  }

  /** What a start reports, before there is a core node: the code of the first
      thing that failed. */
  lemma EarlyCodes(g: GoState, st: Stages)
    ensures !st.parse ==> StartCode(g, st) == IPFS_PARSE_CONFIG_FAIL
    ensures st.parse && !(g.mpromeInjected || st.inject) ==> StartCode(g, st) == IPFS_MPROME_INJECT_FAILED
    ensures st.parse && (g.mpromeInjected || st.inject) && !HasEnvironment(g, st)
            ==> StartCode(g, st) == IPFS_BUILD_ENV_FAILED
    ensures HasEnvironment(g, st) && !st.isInitialized && !st.initRepo ==> StartCode(g, st) == IPFS_CREATE_REPO_FAILED
    ensures HasEnvironment(g, st) && (st.isInitialized || st.initRepo) && !st.openRepo
            ==> StartCode(g, st) == IPFS_OPEN_REPO_FAILED
    ensures HasEnvironment(g, st) && (st.isInitialized || st.initRepo) && st.openRepo && !st.readConfig
            ==> StartCode(g, st) == IPFS_READ_CONFIG_FAILED
    ensures HasEnvironment(g, st) && (st.isInitialized || st.initRepo) && st.openRepo && st.readConfig && !st.newNode
            ==> StartCode(g, st) == IPFS_START_NODE_FAILED
  {
    PassesCoreNode(g, st);
    PassesEnvironment(g, st);
    var n := Passed(g, st);
    assert n < 12 ==> !StagePasses(g, st, n);
    assert StagePasses(g, st, 0) == st.parse;
    assert n > 3 ==> StagePasses(g, st, 3);
    assert n > 4 ==> StagePasses(g, st, 4);
    assert n > 5 ==> StagePasses(g, st, 5);
  }

  /** And after. */
  lemma LateCodes(g: GoState, st: Stages)
    requires HasCoreNode(g, st)
    ensures !st.startPlugins ==> StartCode(g, st) == IPFS_PLUGINS_FAILED
    ensures st.startPlugins && !st.runGC ==> StartCode(g, st) == IPFS_GC_FAILED
    ensures st.startPlugins && st.runGC && !st.serveApi ==> StartCode(g, st) == IPFS_API_FAILED
    ensures st.startPlugins && st.runGC && st.serveApi && !st.serveGateway ==> StartCode(g, st) == IPFS_GATEWAY_FAILED
    ensures HasServers(g, st) ==> StartCode(g, st) == if st.coreApi then IPFS_SUCCESS else IPFS_API_ACCESS_FAILED
  {
    PassesServers(g, st);
    PassesCoreNode(g, st);
    var n := Passed(g, st);
    assert n < 12 ==> !StagePasses(g, st, n);
    assert n > 7 ==> StagePasses(g, st, 7);
    assert n > 8 ==> StagePasses(g, st, 8);
    assert n > 9 ==> StagePasses(g, st, 9);
    assert n > 11 ==> StagePasses(g, st, 11);
  }

  /** The code tells the stage: two starts report the same code iff they got
      equally far. */
  lemma CodeTellsStage(g: GoState, st: Stages, h: GoState, su: Stages)
    ensures StartCode(g, st) == StartCode(h, su) <==> Passed(g, st) == Passed(h, su)
  {
    assert forall i: nat, j: nat :: i < j <= 12 ==> StageCode(i) != StageCode(j);
  }

  lemma StartedKeepsFlags(g: GoState, st: Stages)
    requires FlagsOk(g) && g.node.Some? && g.node.value.starting
    ensures FlagsOk(Started(g, st))
  {}

  /** The stages in their own form. */
  class GoProcess {
    var mpromeInjected: bool
    var pluginsInjected: bool
    var metrics: bool
    var node: Option<NodeState>
    ghost var injections: nat
    ghost var pluginInjections: nat
    ghost var gauges: nat
    ghost var collectors: nat

    ghost function Abs(): GoState
      reads this
    {
      GoState(mpromeInjected, pluginsInjected, metrics, node, injections, pluginInjections, gauges, collectors)
    }

    constructor ()
      ensures Abs() == FRESH && FlagsOk(Abs())
    {
      mpromeInjected, pluginsInjected, metrics, node := false, false, false, None;
      injections, pluginInjections, gauges, collectors := 0, 0, 0, 0;
    }

    method AllocateNode(arg: nat) returns (code: int)
      requires FlagsOk(Abs())
      modifies this`node
      ensures FlagsOk(Abs())
      ensures code == if old(node).Some? then IPFS_NODE_EXISTS else IPFS_SUCCESS
      ensures old(node).Some? ==> Abs() == old(Abs())
      ensures old(node).None? ==> Abs() == old(Abs()).(node := Some(NodeState(arg, true, false, false, false)))
    {
      if node.Some? { return IPFS_NODE_EXISTS; }
      node := Some(NodeState(arg, true, false, false, false));
      code := IPFS_SUCCESS;
    }

    /** `loadPlugins`. */
    method LoadPlugins(st: Stages) returns (ok: bool)
      modifies this`pluginsInjected, this`pluginInjections
      ensures ok <==> st.loadPlugins && (old(pluginsInjected) || st.injectPlugins)
      ensures pluginsInjected <==> old(pluginsInjected) || ok
      ensures pluginInjections == old(pluginInjections) + if pluginsInjected && !old(pluginsInjected) then 1 else 0
    {
      if !st.loadPlugins { return false; }
      if !pluginsInjected {
        if !st.injectPlugins { return false; }
        pluginInjections := pluginInjections + 1;
        pluginsInjected := true;
      }
      ok := true;
    }

    /** `start_node`, up to the global environment. */
    method BuildEnvironment(st: Stages) returns (code: int)
      requires node.Some?
      modifies this
      ensures var g, n := old(Abs()), Passed(old(Abs()), st);
        if n < 3 then code == StartCode(g, st) && Abs() == StartedAt(g, n)
        else code == IPFS_SUCCESS && Abs() == StartedAt(g, 3)
    {
      ghost var g := Abs();
      PassesEnvironment(g, st);
      EarlyCodes(g, st);
      node := Some(NodeState(node.value.arg, false, false, false, false));
      if !st.parse { return IPFS_PARSE_CONFIG_FAIL; }
      if !mpromeInjected {
        if !st.inject { return IPFS_MPROME_INJECT_FAILED; }
        injections := injections + 1;
        mpromeInjected := true;
      }
      var ok := LoadPlugins(st);
      if !ok { return IPFS_BUILD_ENV_FAILED; }
      node := Some(node.value.(cctx := true));
      code := IPFS_SUCCESS;
    }

    /** `start_node`, from there to a running core node. */
    method LaunchCore(ghost g: GoState, st: Stages) returns (code: int)
      requires g.node.Some? && Passed(g, st) >= 3 && Abs() == StartedAt(g, 3)
      modifies this`node
      ensures var n := Passed(g, st);
        if n < 7 then code == StartCode(g, st) && Abs() == StartedAt(g, n)
        else code == IPFS_SUCCESS && Abs() == StartedAt(g, 7)
    {
      if !st.isInitialized {
        if !st.initRepo { StopsAt(g, st, 3); return IPFS_CREATE_REPO_FAILED; }
      }
      if !st.openRepo { StopsAt(g, st, 4); return IPFS_OPEN_REPO_FAILED; }
      if !st.readConfig { StopsAt(g, st, 5); return IPFS_READ_CONFIG_FAILED; }
      if !st.newNode { StopsAt(g, st, 6); return IPFS_START_NODE_FAILED; }
      node := Some(node.value.(built := true));
      ReachesExactly(g, st, 7);
      code := IPFS_SUCCESS;
    }

    /** `start_node`. Both registrations that panic when repeated are asserted
        not to be. */
    method StartNode(st: Stages) returns (code: int)
      requires FlagsOk(Abs()) && node.Some? && node.value.starting
      modifies this
      ensures FlagsOk(Abs())
      ensures code == StartCode(old(Abs()), st)
      ensures Abs() == Started(old(Abs()), st)
    {
      ghost var g := Abs();
      StartedKeepsFlags(g, st);
      SuccessMeansAllPassed(g, st);
      code := BuildEnvironment(st);
      if code != IPFS_SUCCESS { return code; }
      code := LaunchCore(g, st);
      if code != IPFS_SUCCESS { return code; }
      code := Serve(g, st);
    }

    /** The last stages of `start_node`. */
    method Serve(ghost g: GoState, st: Stages) returns (code: int)
      requires FlagsOk(g) && g.node.Some? && g.node.value.starting
      requires Passed(g, st) >= 7 && Abs() == StartedAt(g, 7)
      modifies this
      ensures code == StartCode(g, st) && Abs() == Started(g, st)
    {
      if !st.startPlugins { StopsAt(g, st, 7); return IPFS_PLUGINS_FAILED; }
      if !st.runGC { StopsAt(g, st, 8); return IPFS_GC_FAILED; }
      if !st.serveApi { StopsAt(g, st, 9); return IPFS_API_FAILED; }
      if !st.serveGateway { StopsAt(g, st, 10); return IPFS_GATEWAY_FAILED; }
      if !metrics {
        assert gauges == 0;
        gauges := gauges + 1;
        metrics := true;
      }
      assert collectors == 0;
      collectors := collectors + 1;
      node := Some(node.value.(collector := true));
      if !st.coreApi { StopsAt(g, st, 11); return IPFS_API_ACCESS_FAILED; }
      StopsAt(g, st, 12);
      code := IPFS_SUCCESS;
    }

    /** `go_asio_ipfs_start_blocking`. On failure the source names
        go_asio_ipfs_free without calling it, so the node stays. */
    method StartBlocking(arg: nat, st: Stages) returns (code: int)
      requires FlagsOk(Abs())
      modifies this
      ensures FlagsOk(Abs())
      ensures old(node).Some? ==> code == IPFS_NODE_EXISTS && Abs() == old(Abs())
      ensures old(node).None? ==>
                var g := old(Abs()).(node := Some(NodeState(arg, true, false, false, false)));
                code == StartCode(g, st) && Abs() == Started(g, st)
    {
      code := AllocateNode(arg);
      if code != IPFS_SUCCESS { return code; }
      code := StartNode(st);
    }

    /** `go_asio_ipfs_free`. */
    method Free() returns (code: int)
      requires FlagsOk(Abs())
      modifies this
      ensures FlagsOk(Abs())
      ensures code == if old(node).Some? then IPFS_SUCCESS else IPFS_NO_NODE
      ensures Abs() == Freed(old(Abs()))
      ensures node.None?
      ensures mpromeInjected == old(mpromeInjected) && pluginsInjected == old(pluginsInjected)
      ensures metrics == old(metrics) && injections == old(injections)
      ensures pluginInjections == old(pluginInjections) && gauges == old(gauges)
      ensures collectors == old(collectors) - if old(node).Some? && old(node).value.collector then 1 else 0
    {
      if node.None? { return IPFS_NO_NODE; }
      if node.value.collector {
        collectors := collectors - 1;
      }
      node := None;
      code := IPFS_SUCCESS;
    }
  }

  /** The one-time registrations outlive the node. */
  ghost function Freed(g: GoState): GoState
  {
    if g.node.Some? && g.node.value.collector && g.collectors > 0
    then g.(node := None, collectors := g.collectors - 1)
    else g.(node := None)
  }
}
