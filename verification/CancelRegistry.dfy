/** The cancel registry on the Go side (src/ipfs_bindings/ipfs_cancel.go) against
    the handles on the C++ side, across node generations. */
module CancelRegistry {
  import opened Wrappers
  import opened Operations
  import opened OperationInvariant

  /** The current node's key `k` belongs to the waiting operation of `h`. */
  ghost predicate OwnsKey(w: World, h: Ptr, k: nat) {
    && Waiting(w, h) && w.go.Some? && k in w.go.value.signals
    && w.handles[h].id == Some(k) && w.handles[h].gen == Some(w.go.value.gen)
    && w.go.value.signals[k] == w.handles[h].op
  }

  ghost predicate OfCurrent(w: World, h: Ptr) {
    h in w.handles && w.go.Some? && w.handles[h].gen == Some(w.go.value.gen)
  }

  /** Generations are handed out once; a handle of a node has an id. */
  ghost predicate GensOk(w: World) {
    && (w.go.Some? ==> w.go.value.gen < w.gens)
    && (forall h :: h in w.handles && w.handles[h].gen.Some? ==>
          w.handles[h].gen.value < w.gens && w.handles[h].id.Some?)
  }

  /** Every key is some waiting operation's, and leads to its context. */
  ghost predicate KeysOwned(w: World) {
    w.go.Some? ==> forall k :: k in w.go.value.signals ==> exists h :: OwnsKey(w, h, k)
  }

  /** The node's id counter has not wrapped, nor handed out the sentinel. */
  ghost predicate Bounded(w: World) {
    w.go.Some? ==> w.go.value.allocs <= MAX_UINT64
  }

  ghost predicate IdsApart(w: World) {
    && (forall h :: OfCurrent(w, h) ==> w.handles[h].id.Some? && w.handles[h].id.value < w.go.value.allocs)
    && (forall h, g :: OfCurrent(w, h) && OfCurrent(w, g) && h != g ==> w.handles[h].id != w.handles[g].id)
  }

  /** Every waiting operation of the current node can be cancelled through its id. */
  ghost predicate AllRegistered(w: World) {
    forall h :: Waiting(w, h) && OfCurrent(w, h) ==> w.handles[h].id.Some? && OwnsKey(w, h, w.handles[h].id.value)
  }

  // ----- In every run ------------------------------------------------------

  ghost predicate RegInv(w: World) {
    GensOk(w) && KeysOwned(w) && (Bounded(w) ==> IdsApart(w))
  }

  /** What a step makes of the node. */
  lemma NodeMoves(w: World, a: Action)
    requires Enabled(w, a) && Safe(w, a)
    ensures a.NodeAlloc? ==> Apply(w, a).go == Some(GoNode(w.gens, 0, map[])) && Apply(w, a).gens == w.gens + 1
    ensures !a.NodeAlloc? ==> Apply(w, a).gens == w.gens
    ensures a.NodeGone? ==> Apply(w, a).go == None
    ensures a.Start? && a.signal && w.go.Some? ==>
              Apply(w, a).go == Some(w.go.value.(allocs := w.go.value.allocs + 1,
                                                 signals := w.go.value.signals[w.go.value.NextId() := w.nextOp]))
    ensures a.Begin? && DeliveredBy(w, a).Some? ==> Apply(w, a).go == FreeId(w.go, w.handles[w.queue[0].h].id)
    ensures !a.NodeAlloc? && !a.NodeGone? && !(a.Start? && a.signal) && !(a.Begin? && DeliveredBy(w, a).Some?) ==>
              Apply(w, a).go == w.go
  {}

  lemma StepKeepsGens(w: World, a: Action)
    requires GensOk(w) && Enabled(w, a) && Safe(w, a)
    ensures GensOk(Apply(w, a))
  {
    NodeMoves(w, a);
    forall x | x in Apply(w, a).handles && Apply(w, a).handles[x].gen.Some?
      ensures Apply(w, a).handles[x].gen.value < Apply(w, a).gens && Apply(w, a).handles[x].id.Some?
    {
      if !(a.Start? && x == a.h) { FieldsStay(w, a, x); }
    }
  }

  lemma StepKeepsIds(w: World, a: Action)
    requires GensOk(w) && (Bounded(w) ==> IdsApart(w)) && Enabled(w, a) && Safe(w, a)
    ensures Bounded(Apply(w, a)) ==> IdsApart(Apply(w, a))
  {
    var w' := Apply(w, a);
    NodeMoves(w, a);
    if Bounded(w') {
      forall x | OfCurrent(w', x)
        ensures w'.handles[x].id.Some? && w'.handles[x].id.value < w'.go.value.allocs
        ensures !(a.Start? && x == a.h) ==> OfCurrent(w, x) && w'.handles[x].id == w.handles[x].id
      {
        if !(a.Start? && x == a.h) { FieldsStay(w, a, x); }
      }
    }
  }

  /** A key stays its owner's until the owner is told. */
  lemma OwnerStays(w: World, a: Action, x: Ptr, k: nat)
    requires Inv(w) && Enabled(w, a) && Safe(w, a) && OwnsKey(w, x, k)
    requires Apply(w, a).go.Some? && k in Apply(w, a).go.value.signals
    requires !a.NodeAlloc? && !(a.Start? && a.signal && w.go.value.NextId() == k)
    ensures OwnsKey(Apply(w, a), x, k)
  {
    NodeMoves(w, a);
    WaitingMoves(w, a, x);
    if Waiting(Apply(w, a), x) { FieldsStay(w, a, x); }
  }

  lemma StepKeepsKeys(w: World, a: Action)
    requires Inv(w) && KeysOwned(w) && Enabled(w, a) && Safe(w, a)
    ensures KeysOwned(Apply(w, a))
  {
    var w' := Apply(w, a);
    NodeMoves(w, a);
    if w'.go.Some? {
      forall k | k in w'.go.value.signals ensures exists h :: OwnsKey(w', h, k) {
        if a.Start? && a.signal && w.go.value.NextId() == k {
          assert OwnsKey(w', a.h, k);
        } else {
          var x :| OwnsKey(w, x, k);
          OwnerStays(w, a, x, k);
        }
      }
    }
  }

  lemma StepKeepsRegistry(w: World, a: Action)
    requires Inv(w) && RegInv(w) && Enabled(w, a) && Safe(w, a)
    ensures RegInv(Apply(w, a))
  {
    StepKeepsGens(w, a);
    StepKeepsIds(w, a);
    StepKeepsKeys(w, a);
  }

  /** In every run, even with ids that wrapped and handles of earlier nodes
      about: a key of the current node is the id of an operation of that node
      whose wrapper has not run, and cancels that operation's context. So the
      registry is empty once every callback has been delivered. */
  lemma {:induction false} RegistryNeverLeaks(run: seq<Action>)
    requires Exec(INIT, run).At?
    ensures var w := Exec(INIT, run).w;
      RegInv(w) && (w.go.Some? && w.go.value.signals != map[] ==> exists h :: Waiting(w, h))
  {
    if run != [] {
      var prefix, a := run[..|run| - 1], run[|run| - 1];
      RegistryNeverLeaks(prefix);
      NoRunCrashes(prefix);
      StepKeepsRegistry(Exec(INIT, prefix).w, a);
    }
    var w := Exec(INIT, run).w;
    if w.go.Some? && w.go.value.signals != map[] {
      var k :| k in w.go.value.signals;
      var h :| OwnsKey(w, h, k);
      assert Waiting(w, h);
    }
  }

  // ----- When every waiting operation is registered ------------------------

  /** A wrapper of an earlier node frees an id that the current node uses. */
  ghost predicate StaleFree(w: World, a: Action)
    requires Enabled(w, a) && Safe(w, a)
  {
    && a.Begin? && DeliveredBy(w, a).Some? && w.go.Some?
    && var r := w.handles[w.queue[0].h];
      r.gen != Some(w.go.value.gen) && r.id.Some? && r.id.value in w.go.value.signals
  }

  lemma KeyStays(w: World, a: Action, x: Ptr, k: nat)
    requires IdsApart(w) && Enabled(w, a) && Safe(w, a) && !StaleFree(w, a) && OwnsKey(w, x, k)
    requires Bounded(Apply(w, a)) && !a.NodeAlloc? && !a.NodeGone?
    requires !(DeliveredBy(w, a).Some? && w.queue[0].h == x)
    ensures Apply(w, a).go.Some? && k in Apply(w, a).go.value.signals
    ensures a.Start? && a.signal ==> w.go.value.NextId() != k
  {
    NodeMoves(w, a);
    assert OfCurrent(w, x);
    if DeliveredBy(w, a).Some? && OfCurrent(w, w.queue[0].h) {
      assert w.handles[w.queue[0].h].id != w.handles[x].id;
    }
  }

  lemma RegisteredStays(w: World, a: Action, x: Ptr)
    requires Inv(w) && RegInv(w) && AllRegistered(w) && Enabled(w, a) && Safe(w, a)
    requires Bounded(Apply(w, a)) && !StaleFree(w, a)
    requires Waiting(Apply(w, a), x) && OfCurrent(Apply(w, a), x) && !(a.Start? && x == a.h)
    ensures x in w.handles && w.handles[x].id.Some? && OwnsKey(Apply(w, a), x, w.handles[x].id.value)
  {
    NodeMoves(w, a);
    FieldsStay(w, a, x);
    WaitingMoves(w, a, x);
    assert OfCurrent(w, x) && Waiting(w, x);
    KeyStays(w, a, x, w.handles[x].id.value);
    OwnerStays(w, a, x, w.handles[x].id.value);
  }

  lemma StepKeepsRegistered(w: World, a: Action)
    requires Inv(w) && RegInv(w) && (Bounded(w) ==> AllRegistered(w)) && Enabled(w, a) && Safe(w, a)
    requires !StaleFree(w, a)
    ensures Bounded(Apply(w, a)) ==> AllRegistered(Apply(w, a))
  {
    var w' := Apply(w, a);
    NodeMoves(w, a);
    if Bounded(w') && w'.go.Some? {
      forall x | Waiting(w', x) && OfCurrent(w', x)
        ensures w'.handles[x].id.Some? && OwnsKey(w', x, w'.handles[x].id.value)
      {
        if a.NodeAlloc? {
          FieldsStay(w, a, x);
        } else if !(a.Start? && x == a.h) {
          RegisteredStays(w, a, x);
          FieldsStay(w, a, x);
        }
      }
    }
  }

  /** Delivering a callback leaves all other waiting operations registered if
      and only if it is not the late abort or result of an earlier node whose
      id is in use again. */
  lemma DeliveryKeepsRegisteredExactly(w: World)
    requires Inv(w) && RegInv(w) && Bounded(w) && AllRegistered(w)
    requires Enabled(w, Begin) && Safe(w, Begin)
    ensures AllRegistered(BeginJob(w)) <==> !StaleFree(w, Begin)
  {
    NodeMoves(w, Begin);
    if StaleFree(w, Begin) {
      var k := w.handles[w.queue[0].h].id.value;
      var x :| OwnsKey(w, x, k);
      WaitingMoves(w, Begin, x);
      FieldsStay(w, Begin, x);
      assert Waiting(BeginJob(w), x) && OfCurrent(BeginJob(w), x) && !OwnsKey(BeginJob(w), x, k);
    } else {
      StepKeepsRegistered(w, Begin);
    }
  }

  /** A node is only started when no operation with an id is still waiting. */
  ghost predicate QuietStart(w: World, a: Action) {
    a.NodeAlloc? ==> forall h :: Waiting(w, h) ==> w.handles[h].id.None?
  }

  ghost predicate QuietRun(run: seq<Action>)
    decreases |run|
  {
    run == [] || (QuietRun(run[..|run| - 1])
                  && (Exec(INIT, run[..|run| - 1]).At? ==>
                        QuietStart(Exec(INIT, run[..|run| - 1]).w, run[|run| - 1])))
  }

  ghost predicate NoneStale(w: World) {
    w.go.Some? ==> forall h :: Waiting(w, h) && w.handles[h].id.Some? ==> OfCurrent(w, h)
  }

  lemma StepKeepsNoneStale(w: World, a: Action)
    requires Inv(w) && NoneStale(w) && Enabled(w, a) && Safe(w, a) && QuietStart(w, a)
    ensures NoneStale(Apply(w, a))
  {
    var w' := Apply(w, a);
    NodeMoves(w, a);
    if w'.go.Some? {
      forall x | Waiting(w', x) && w'.handles[x].id.Some? ensures OfCurrent(w', x) {
        if !(a.Start? && x == a.h) {
          FieldsStay(w, a, x);
          WaitingMoves(w, a, x);
        }
      }
    }
  }

  lemma NoneStaleNoStaleFree(w: World, a: Action)
    requires Inv(w) && NoneStale(w) && Enabled(w, a) && Safe(w, a)
    ensures !StaleFree(w, a)
  {
    if a.Begin? && DeliveredBy(w, a).Some? { DeliveredWasWaiting(w); }
  }

  /** In quiet runs the keys of the current node's registry are exactly the ids
      of its operations whose wrapper has not run, as long as fewer than 2^64
      ids were taken from it. */
  lemma {:induction false} QuietRunsAgree(run: seq<Action>)
    requires QuietRun(run) && Exec(INIT, run).At?
    ensures var w := Exec(INIT, run).w;
      Inv(w) && RegInv(w) && NoneStale(w) && (Bounded(w) ==> AllRegistered(w))
  {
    NoRunCrashes(run);
    RegistryNeverLeaks(run);
    if run != [] {
      var prefix, a := run[..|run| - 1], run[|run| - 1];
      var w := Exec(INIT, prefix).w;
      QuietRunsAgree(prefix);
      StepKeepsNoneStale(w, a);
      NoneStaleNoStaleFree(w, a);
      StepKeepsRegistered(w, a);
    }
  }

  /** Then cancelling an operation cancels its own context and no other, and
      being told frees its own id and no other. */
  lemma CancelIsIsolated(w: World, h: Ptr)
    requires Inv(w) && RegInv(w) && Bounded(w) && AllRegistered(w)
    requires OfCurrent(w, h) && w.handles[h].linked
    ensures CancelSafe(w, h)
    ensures CancelHandle(w, h).cancelledCtx == w.cancelledCtx + {w.handles[h].op}
    ensures CancelHandle(w, h).go == w.go
  {
    assert PhaseOk(w, h);
    assert Waiting(w, h);
  }

  lemma FreeIsIsolated(w: World, g: Ptr)
    requires Inv(w) && RegInv(w) && Bounded(w) && AllRegistered(w)
    requires Enabled(w, Begin) && Safe(w, Begin) && DeliveredBy(w, Begin).Some?
    requires OfCurrent(w, w.queue[0].h) && Waiting(w, g) && OfCurrent(w, g) && g != w.queue[0].h
    ensures BeginJob(w).go.Some? && w.handles[w.queue[0].h].id.value !in BeginJob(w).go.value.signals
    ensures OwnsKey(BeginJob(w), g, w.handles[g].id.value)
  {
    NodeMoves(w, Begin);
    StepKeepsRegistered(w, Begin);
    WaitingMoves(w, Begin, g);
    FieldsStay(w, Begin, g);
  }

  /** The bound on allocations is the largest: the next id is the sentinel, and
      after it ids are handed out again. */
  lemma BoundIsSharp(n: GoNode)
    ensures n.allocs == MAX_UINT64 ==> n.NextId() == 0xFFFF_FFFF_FFFF_FFFF
    ensures n.(allocs := n.allocs + 0x1_0000_0000_0000_0000).NextId() == n.NextId()
  {}

  // ----- Operations outside the registry -----------------------------------

  /** An id that was handed out without a node is the sentinel. */
  ghost predicate SentinelsOk(w: World) {
    forall h :: h in w.handles && w.handles[h].gen.None? && w.handles[h].id.Some? ==>
      w.handles[h].id == Some(MAX_UINT64)
  }

  lemma StepKeepsSentinels(w: World, a: Action)
    requires SentinelsOk(w) && Enabled(w, a) && Safe(w, a)
    ensures SentinelsOk(Apply(w, a))
  {
    forall x | x in Apply(w, a).handles && Apply(w, a).handles[x].gen.None? && Apply(w, a).handles[x].id.Some?
      ensures Apply(w, a).handles[x].id == Some(MAX_UINT64)
    {
      if !(a.Start? && x == a.h) { FieldsStay(w, a, x); }
    }
  }

  lemma {:induction false} SentinelsEverywhere(run: seq<Action>)
    requires Exec(INIT, run).At?
    ensures SentinelsOk(Exec(INIT, run).w)
  {
    if run != [] {
      SentinelsEverywhere(run[..|run| - 1]);
      StepKeepsSentinels(Exec(INIT, run[..|run| - 1]).w, run[|run| - 1]);
    }
  }

  lemma KeysAreNoSentinels(w: World)
    requires RegInv(w) && Bounded(w) && w.go.Some?
    ensures MAX_UINT64 !in w.go.value.signals
  {
    if MAX_UINT64 in w.go.value.signals {
      var h :| OwnsKey(w, h, MAX_UINT64);
      assert OfCurrent(w, h);
    }
  }

  /** In every run: an operation that no node registered, because it takes no id
      or because there was no node when it was started, cancels no context and
      frees no id of the present node. */
  lemma UnregisteredTouchNothing(run: seq<Action>, h: Ptr)
    requires Exec(INIT, run).At? && h in Exec(INIT, run).w.handles && Exec(INIT, run).w.handles[h].gen.None?
    requires Bounded(Exec(INIT, run).w)
    ensures var w := Exec(INIT, run).w;
      && (w.handles[h].id == None || w.handles[h].id == Some(MAX_UINT64))
      && (CancelSafe(w, h) ==> CancelHandle(w, h).cancelledCtx == w.cancelledCtx && CancelHandle(w, h).go == w.go)
      && (Enabled(w, Begin) && Safe(w, Begin) && w.queue[0].h == h ==> BeginJob(w).go == w.go)
  {
    var w := Exec(INIT, run).w;
    RegistryNeverLeaks(run);
    SentinelsEverywhere(run);
    if w.go.Some? { KeysAreNoSentinels(w); }
    if w.go.Some? && w.handles[h].id.Some? { assert w.go.value.signals - {MAX_UINT64} == w.go.value.signals; }
  }

  // ----- A restart that is not quiet ---------------------------------------

  /** Free a node with an operation pending ... */
  const FREED: seq<Action> := [
    ImplNew(0), NodeAlloc, Start(10, 0, User(0), true), Invoke(User(0)), NodeGone]

  /** ... start the next one before asio has run the abort, start an operation
      there, and then let the abort run. */
  const RESTARTED: seq<Action> := [ImplNew(1), NodeAlloc, Start(11, 1, User(1), true)]

  const AFTER_FREED: World := World(
    map[10 := HandleRec(0, User(0), None, Some(0), false, 2, 0, Some(0))],
    map[0 := []], map[User(0) := Nop], [AbortJob(10, 0)], None, {10}, None, 1, {0}, 1, [], map[])

  /** The run up to the start. */
  lemma OneRegistered() returns (w: World)
    ensures Exec(INIT, FREED[..3]) == At(w)
    ensures w == World(
      map[10 := HandleRec(0, User(0), Some(0), Some(0), true, 1, 0, Some(0))], map[0 := [10]],
      map[User(0) := CancelOf(10)], [], None, {10}, Some(GoNode(0, 1, map[0 := 0])), 1, {}, 1, [], map[])
  {
    var r0: seq<Action> := [];
    var r1 := r0 + [ImplNew(0)];
    var w1 := INIT.(lists := map[0 := []]);
    ExecStep(r0, ImplNew(0), INIT);
    var r2 := r1 + [NodeAlloc];
    var w2 := w1.(go := Some(GoNode(0, 0, map[])), gens := 1);
    ExecStep(r1, NodeAlloc, w1);
    var start := Start(10, 0, User(0), true);
    var r3 := r2 + [start];
    var w3 := StartOp(w2, 10, 0, User(0), true);
    ExecStep(r2, start, w2);
    assert r3 == FREED[..3];
    assert w3.lists[0] == [10] && w3.owed == {10};
    w := w3;
  }

  lemma FreedLeavesAnAbort()
    ensures Exec(INIT, FREED) == At(AFTER_FREED)
  {
    var w3 := OneRegistered();
    var r3 := FREED[..3];
    var w4 := CancelHandle(w3, 10);
    ExecStep(r3, Invoke(User(0)), w3);
    assert Remove([10], 10) == [];
    assert w4.(go := None) == AFTER_FREED;
    ExecStep(r3 + [Invoke(User(0))], NodeGone, w4);
    assert r3 + [Invoke(User(0))] + [NodeGone] == FREED;
  }

  /** The second operation is left waiting without its registration: cancelling
      it will not reach its context. */
  lemma HastyRestartLosesAnId()
    ensures var r := Exec(INIT, FREED + RESTARTED + [Begin]);
      r.At? && Waiting(r.w, 11) && OfCurrent(r.w, 11)
      && r.w.handles[11].id == Some(0) && r.w.go.value.signals == map[]
  {
    var w := RestartedStartsAnother();
    ExecStep(FREED + RESTARTED, Begin, w);
  }

  lemma RestartedStartsAnother() returns (w: World)
    ensures Exec(INIT, FREED + RESTARTED) == At(w)
    ensures w.queue == [AbortJob(10, 0)] && w.running.None? && 10 in w.handles && w.handles[10].id == Some(0)
    ensures Waiting(w, 11) && OfCurrent(w, 11) && w.handles[11].id == Some(0) && w.go.value.signals == map[0 := 1]
  {
    FreedLeavesAnAbort();
    var r1 := FREED + [ImplNew(1)];
    var w1 := AFTER_FREED.(lists := AFTER_FREED.lists[1 := []]);
    ExecStep(FREED, ImplNew(1), AFTER_FREED);
    var r2 := r1 + [NodeAlloc];
    var w2 := w1.(go := Some(GoNode(1, 0, map[])), gens := 2);
    ExecStep(r1, NodeAlloc, w1);
    var start := Start(11, 1, User(1), true);
    var r3 := r2 + [start];
    var w3 := StartOp(w2, 11, 1, User(1), true);
    ExecStep(r2, start, w2);
    w := w3;
    assert r3 == FREED + RESTARTED;
  }
}
