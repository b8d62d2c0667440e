/** The protocol in the source's own form: handles, the Go node's registry and
    the state around them are objects that the methods update in place. Each
    method takes one step of the step system of module Operations, and Step
    takes any step that the environment may take, with nothing more asked of the
    caller; so a whole run of calls does what Exec says and keeps what is proved
    there (Perform). The loop of `node::free` is proved against module Drain. */
module AsioRuntime {
  import opened Wrappers
  import opened Promise
  import opened Operations
  import opened OperationInvariant
  import opened PromiseRefinement
  import opened JobOrder
  import opened Drain

  newtype uint64 = x: int | 0 <= x <= 0xFFFF_FFFF_FFFF_FFFF

  /** src/node.cpp, struct Handle. */
  class Handle {
    const addr: Ptr
    const impl: nat
    const cancelFn: SlotRef
    const cancelSignalId: Option<nat>
    ghost const op: OpId
    ghost const gen: Option<nat>
    var cb: Option<OpId>
    var linked: bool
    var jobCount: nat

    constructor (addr: Ptr, impl: nat, cancelFn: SlotRef, id: Option<nat>, cb: OpId, ghost gen: Option<nat>)
      ensures this.addr == addr && Rec() == HandleRec(impl, cancelFn, Some(cb), id, true, 1, cb, gen)
    {
      this.addr, this.impl, this.cancelFn, this.cancelSignalId := addr, impl, cancelFn, id;
      this.op, this.gen := cb, gen;
      this.cb, this.linked, this.jobCount := Some(cb), true, 1;
    }

    ghost function Rec(): HandleRec
      reads this
    {
      HandleRec(impl, cancelFn, cb, cancelSignalId, linked, jobCount, op, gen)
    }
  }

  /** src/ipfs_bindings/ipfs_node.go, the part of struct Node that
      ipfs_cancel.go works on. */
  class Registry {
    ghost const gen: nat
    ghost var allocs: nat
    var nextCancelSignalId: uint64
    var cancelSignals: map<nat, OpId>

    ghost predicate Valid()
      reads this
    {
      nextCancelSignalId as nat == allocs % (MAX_UINT64 + 1)
    }

    ghost function Abs(): GoNode
      reads this
    {
      GoNode(gen, allocs, cancelSignals)
    }

    constructor (ghost gen: nat)
      ensures Valid() && Abs() == GoNode(gen, 0, map[])
    {
      this.gen, this.allocs := gen, 0;
      nextCancelSignalId, cancelSignals := 0, map[];
    }

    /** `go_asio_ipfs_cancellation_allocate`; the counter wraps. */
    method Allocate() returns (id: nat)
      requires Valid()
      modifies this
      ensures Valid()
      ensures (id, Some(Abs())) == AllocateId(Some(old(Abs())))
    {
      id := nextCancelSignalId as nat;
      nextCancelSignalId := if nextCancelSignalId == 0xFFFF_FFFF_FFFF_FFFF then 0 else nextCancelSignalId + 1;
      allocs := allocs + 1;
    }

    /** `withCancel`. */
    method WithCancel(id: nat, op: OpId)
      requires Valid()
      modifies this
      ensures Valid() && Some(Abs()) == Operations.WithCancel(Some(old(Abs())), id, op)
    {
      cancelSignals := cancelSignals[id := op];
    }

    /** `go_asio_ipfs_cancellation_free`. */
    method Free(id: nat)
      requires Valid()
      modifies this
      ensures Valid() && Some(Abs()) == FreeId(Some(old(Abs())), Some(id))
    {
      cancelSignals := cancelSignals - {id};
    }

    /** `go_asio_ipfs_cancel`: the contexts whose cancel function it calls. */
    method Cancel(id: nat) returns (hit: set<OpId>)
      ensures hit == ContextsHit(Some(Abs()), Some(id))
    {
      if id !in cancelSignals { return {}; }
      hit := {cancelSignals[id]};
    }
  }

  /** The asio thread, and what it shares with Go. */
  class Runtime {
    var handles: map<Ptr, Handle>
    var lists: map<nat, seq<Ptr>>
    var slots: map<SlotRef, Closure>
    var queue: seq<Job>
    var running: Option<Job>
    var goNode: Registry?
    var nextOp: OpId
    var cancelledCtx: set<OpId>
    ghost var owed: set<Ptr>
    ghost var gens: nat
    ghost var log: seq<Delivery>
    ghost var posted: map<OpId, Outcome>

    ghost function Objects(): set<object>
      reads this
    {
      handles.Values + GoObjects()
    }

    ghost function GoObjects(): set<object>
      reads this
    {
      if goNode == null then {} else {goNode}
    }

    /** Every handle is found at its own address, and nowhere else. */
    ghost predicate Shape()
      reads this, Objects()
    {
      && (forall p :: p in handles ==> handles[p].addr == p)
      && (goNode != null ==> goNode.Valid())
    }

    ghost function GoAbs(): Option<GoNode>
      reads this, Objects()
    {
      if goNode == null then None else Some(goNode.Abs())
    }

    ghost function HandlesAbs(): map<Ptr, HandleRec>
      reads this, Objects()
    {
      map p | p in handles :: handles[p].Rec()
    }

    ghost function Abs(): World
      reads this, Objects()
    {
      World(HandlesAbs(), lists, slots, queue, running, owed, GoAbs(), gens, cancelledCtx, nextOp, log, posted)
    }

    constructor ()
      ensures Shape() && Abs() == INIT && fresh(Objects())
    {
      handles, lists, slots, queue, running := map[], map[], map[], [], None;
      goNode, nextOp, cancelledCtx := null, 0, {};
      owed, gens, log, posted := {}, 0, [], map[];
    }

    /** The handle's list hook takes it out of whatever list it is in. */
    method Unlink(h: Handle)
      requires Shape() && Has(h)
      modifies this`lists, h`linked
      ensures Shape()
      ensures Abs() == Operations.Unlink(old(Abs()), h.addr)
      ensures h.Rec() == old(h.Rec()).(linked := false)
    {
      ghost var w := Abs();
      h.linked := false;
      if h.impl in lists {
        lists := lists[h.impl := Remove(lists[h.impl], h.addr)];
      }
      assert HandlesAbs() == w.handles[h.addr := h.Rec()];
    }

    ghost predicate Has(h: Handle)
      reads this
    {
      h.addr in handles && handles[h.addr] == h
    }

    /** The registry part of `allocate_node`. */
    method AllocateNode() returns (ok: bool)
      requires Shape()
      modifies this`goNode, this`gens
      ensures Shape() && fresh(Objects() - old(Objects()))
      ensures ok <==> Enabled(old(Abs()), NodeAlloc)
      ensures Abs() == if ok then Apply(old(Abs()), NodeAlloc) else old(Abs())
    {
      ok := goNode == null;
      if ok {
        goNode := new Registry(gens);
        gens := gens + 1;
      }
    }

    /** The registry part of `go_asio_ipfs_free`. */
    method FreeNode() returns (ok: bool)
      requires Shape()
      modifies this`goNode
      ensures Shape() && Objects() <= old(Objects())
      ensures ok <==> Enabled(old(Abs()), NodeGone)
      ensures Abs() == if ok then Apply(old(Abs()), NodeGone) else old(Abs())
    {
      ok := goNode != null;
      goNode := null;
    }

    method NewImpl(i: nat)
      requires Shape() && i !in lists
      modifies this`lists
      ensures Shape() && Abs() == Apply(old(Abs()), ImplNew(i))
    {
      lists := lists[i := []];
    }

    method DeleteImpl(i: nat)
      requires Shape() && i in lists && lists[i] == []
      modifies this`lists
      ensures Shape() && Abs() == Apply(old(Abs()), ImplDelete(i))
    {
      lists := lists - {i};
    }

    /** Allocate an id for the next operation, and enter its context under it. */
    method Register() returns (id: nat)
      requires Shape()
      modifies GoObjects()
      ensures Shape()
      ensures id == AllocateId(old(GoAbs())).0
      ensures Abs() == var w := old(Abs()); w.(go := WithCancel(AllocateId(w.go).1, id, nextOp))
    {
      id := MAX_UINT64;
      if goNode != null {
        id := goNode.Allocate();
        goNode.WithCancel(id, nextOp);
      }
    }

    method EnterGo(signal: bool) returns (id: Option<nat>)
      requires Shape()
      modifies GoObjects()
      ensures Shape()
      ensures id == if signal then Some(AllocateId(old(GoAbs())).0) else None
      ensures Abs() == var w := old(Abs());
        if signal then w.(go := WithCancel(AllocateId(w.go).1, id.value, nextOp)) else w
    {
      id := None;
      if signal {
        var n := Register();
        id := Some(n);
      }
    }

    /** `call_ipfs` (`signal`) and `call_ipfs_nocancel`: `new Handle` at a free
        address, and the call into Go that will report to it. */
    method StartOp(p: Ptr, impl: nat, slot: SlotRef, signal: bool)
      requires Shape() && p !in handles && impl in lists
      modifies this`handles, this`lists, this`slots, this`owed, this`nextOp, Objects()
      ensures Shape() && fresh(Objects() - old(Objects()))
      ensures Abs() == Operations.StartOp(old(Abs()), p, impl, slot, signal)
    {
      ghost var gen := if signal && goNode != null then Some(goNode.gen) else None;
      var id := EnterGo(signal);
      ghost var w1 := Abs();
      var h := new Handle(p, impl, slot, id, nextOp, gen);
      assert Abs() == w1;
      Link(h);
      Publish(h);
    }

    /** The rest of the constructor: list, slot, and what Go now owes. */
    method Link(h: Handle)
      requires Shape() && h.impl in lists
      modifies this`lists, this`slots, this`owed, this`nextOp
      ensures Shape()
      ensures Abs() == var w := old(Abs());
        w.(lists := w.lists[h.impl := w.lists[h.impl] + [h.addr]],
           slots := w.slots[h.cancelFn := CancelOf(h.addr)],
           owed := w.owed + {h.addr},
           nextOp := w.nextOp + 1)
    {
      lists := lists[h.impl := lists[h.impl] + [h.addr]];
      slots := slots[h.cancelFn := CancelOf(h.addr)];
      owed := owed + {h.addr};
      nextOp := nextOp + 1;
    }

    method Publish(h: Handle)
      requires Shape() && h.addr !in handles
      modifies this`handles
      ensures Shape() && Objects() <= old(Objects()) + {h}
      ensures Abs() == old(Abs()).(handles := old(HandlesAbs())[h.addr := h.Rec()])
    {
      ghost var before := HandlesAbs();
      handles := handles[h.addr := h];
      assert HandlesAbs() == before[h.addr := h.Rec()];
    }

    /** `Handle::call`, from a Go thread. */
    method GoCall(p: Ptr, err: int, data: seq<byte>)
      requires Shape() && p in owed && p in handles
      modifies this`queue, this`owed, this`posted
      ensures Shape()
      ensures Abs() == GoReports(old(Abs()), p, err, data)
      ensures queue == old(queue) + [GoJob(p, err, data)] && owed == old(owed) - {p}
    {
      queue := queue + [GoJob(p, err, data)];
      owed := owed - {p};
      posted := posted[handles[p].op := Outcome(Ipfs(err), data)];
    }

    /** The last half of the cancel closure: the callback moves into a job. */
    method PostAbort(h: Handle)
      requires Shape() && Has(h) && h.cb.Some? && h.jobCount > 0
      modifies this`queue, this`slots, h`cb, h`jobCount
      ensures Shape()
      ensures Abs() == var w, r := old(Abs()), old(h.Rec());
        w.(handles := w.handles[h.addr := r.(jobCount := r.jobCount + 1, cb := None)],
           queue := w.queue + [AbortJob(h.addr, r.cb.value)],
           slots := w.slots[r.slot := Nop])
    {
      ghost var w := Abs();
      assert h.cb.Some?;
      assert h.jobCount > 0;
      h.jobCount := h.jobCount + 1;
      queue := queue + [AbortJob(h.addr, h.cb.value)];
      h.cb := None;
      slots := slots[h.cancelFn := Nop];
      assert HandlesAbs() == w.handles[h.addr := h.Rec()];
    }

    /** The body of the cancel closure of the handle at `p`. */
    method Cancel(p: Ptr)
      requires Shape() && CancelSafe(Abs(), p)
      modifies this`lists, this`cancelledCtx, this`queue, this`slots, handles.Values
      ensures Shape()
      ensures Abs() == CancelHandle(old(Abs()), p)
    {
      var h := handles[p];
      assert Abs().handles[p] == h.Rec();
      Unlink(h);
      CancelContext(h.cancelSignalId);
      PostAbort(h);
    }

    /** The cancel closure's call into Go. */
    method CancelContext(id: Option<nat>)
      requires Shape()
      modifies this`cancelledCtx
      ensures Shape()
      ensures Abs() == old(Abs()).(cancelledCtx := old(cancelledCtx) + ContextsHit(old(GoAbs()), id))
    {
      if id.Some? && goNode != null {
        var hit := goNode.Cancel(id.value);
        cancelledCtx := cancelledCtx + hit;
      }
    }

    /** Calling what a slot holds. */
    method Invoke(s: SlotRef)
      requires Shape() && s in slots && (slots[s].CancelOf? ==> CancelSafe(Abs(), slots[s].h))
      modifies this`lists, this`cancelledCtx, this`queue, this`slots, handles.Values
      ensures Shape()
      ensures Abs() == InvokeSlot(old(Abs()), s)
    {
      match slots[s] {
        case Nop =>
        case CancelOf(p) => Cancel(p);
      }
    }

    /** The wrapper that the constructor puts around the user's callback. */
    method Deliver(h: Handle, callback: OpId, o: Outcome)
      requires Shape() && Has(h)
      modifies this`slots, this`lists, this`log, h`linked, GoObjects()
      ensures Shape()
      ensures Abs() == Operations.Deliver(old(Abs()), h.addr, callback, o)
    {
      ghost var w := Abs();
      assert w.handles[h.addr] == h.Rec();
      ResetSlot(h);
      ghost var w1 := w.(slots := w.slots[h.cancelFn := Nop], go := FreeId(w.go, h.cancelSignalId));
      assert Abs() == w1;
      Unlink(h);
      Log(callback, o);
    }

    /** The user's callback is called with this outcome. */
    method Log(callback: OpId, o: Outcome)
      requires Shape()
      modifies this`log
      ensures Shape() && Abs() == old(Abs()).(log := old(log) + [Delivery(callback, o)])
    {
      log := log + [Delivery(callback, o)];
    }

    /** The wrapper's first half: empty the slot, and free the id in Go. */
    method ResetSlot(h: Handle)
      requires Shape() && Has(h)
      modifies this`slots, GoObjects()
      ensures Shape()
      ensures Abs() == var w := old(Abs());
        w.(slots := w.slots[h.cancelFn := Nop], go := FreeId(w.go, h.cancelSignalId))
    {
      slots := slots[h.cancelFn := Nop];
      if h.cancelSignalId.Some? && goNode != null {
        goNode.Free(h.cancelSignalId.value);
      }
    }

    /** asio takes the next job and runs it up to the user's callback. */
    method BeginJob()
      requires Shape() && queue != [] && running.None? && queue[0].h in handles
      modifies this`queue, this`running, this`slots, this`lists, this`log, Objects()
      ensures Shape()
      ensures Abs() == Operations.BeginJob(old(Abs()))
      ensures queue == old(queue)[1..] && running == Some(old(queue)[0])
      ensures old(queue)[0].AbortJob? ==>
                log == old(log) + [Delivery(old(queue)[0].callback, Outcome(OperationAborted, []))]
      ensures old(queue)[0].GoJob? ==> var j, cb := old(queue)[0], old(handles[queue[0].h].cb);
                log == old(log) + if cb.Some? then [Delivery(cb.value, Outcome(Ipfs(j.err), j.data))] else []
    {
      ghost var w := Abs();
      var j := queue[0];
      queue, running := queue[1..], Some(j);
      var h := handles[j.h];
      assert w.handles[j.h] == h.Rec();
      assert Abs() == w.(queue := w.queue[1..], running := Some(j));
      match j {
        case AbortJob(_, callback) =>
          Deliver(h, callback, ABORTED);
        case GoJob(_, err, data) =>
          if h.cb.Some? {
            Deliver(h, h.cb.value, Outcome(Ipfs(err), data));
          }
      }
    }

    /** `delete(this)`: the destructor unlinks, and the handle's own slot goes
        with it. */
    method Delete(h: Handle)
      requires Shape() && Has(h)
      modifies this`lists, this`handles, this`slots, h`linked
      ensures Shape() && Objects() <= old(Objects())
      ensures Abs() == DeleteHandle(old(Abs()), h.addr)
    {
      Unlink(h);
      ghost var w := Abs();
      handles, slots := handles - {h.addr}, slots - {Own(h.addr)};
      assert HandlesAbs() == w.handles - {h.addr};
    }

    method DropJob(h: Handle)
      requires Shape() && Has(h) && h.jobCount > 0
      modifies this`running, h`jobCount
      ensures Shape()
      ensures h.jobCount == old(h.jobCount) - 1
      ensures Abs() == var w := old(Abs());
        w.(running := None, handles := w.handles[h.addr := old(h.Rec()).(jobCount := h.jobCount)])
    {
      ghost var w := Abs();
      running := None;
      h.jobCount := h.jobCount - 1;
      assert HandlesAbs() == w.handles[h.addr := h.Rec()];
    }

    /** The job's on_exit. */
    method EndJob()
      requires Shape() && running.Some? && running.value.h in handles && handles[running.value.h].jobCount > 0
      modifies this`running, this`lists, this`handles, this`slots, handles.Values
      ensures Shape() && Objects() <= old(Objects())
      ensures Safe(old(Abs()), End)
      ensures Abs() == Operations.EndJob(old(Abs()))
    {
      ghost var w := Abs();
      var h := handles[running.value.h];
      assert w.handles[h.addr] == h.Rec();
      DropJob(h);
      if h.jobCount == 0 {
        Delete(h);
      }
    }

    /** One step of a user or of the asio loop that is not known to fail. */
    method Take(a: Action)
      requires Shape() && Enabled(Abs(), a) && Safe(Abs(), a)
      modifies this, Objects()
      ensures Shape() && fresh(Objects() - old(Objects()))
      ensures Abs() == Apply(old(Abs()), a)
    {
      match a {
        case Begin => BeginJob();
        case End => EndJob();
        case Start(_, _, _, _) => TakeOfOperation(a);
        case GoCall(_, _, _) => TakeOfOperation(a);
        case Invoke(_) => TakeOfOperation(a);
        case _ => TakeOfNode(a);
      }
    }

    method TakeOfOperation(a: Action)
      requires a.Start? || a.GoCall? || a.Invoke?
      requires Shape() && Enabled(Abs(), a) && Safe(Abs(), a)
      modifies this, Objects()
      ensures Shape() && fresh(Objects() - old(Objects()))
      ensures Abs() == Apply(old(Abs()), a)
    {
      match a {
        case Start(p, impl, slot, signal) => StartOp(p, impl, slot, signal);
        case GoCall(p, err, data) => this.GoCall(p, err, data);
        case Invoke(s) => this.Invoke(s);
      }
    }

    /** One step in the life of a node. */
    method TakeOfNode(a: Action)
      requires a.NodeAlloc? || a.NodeGone? || a.ImplNew? || a.ImplDelete?
      requires Shape() && Enabled(Abs(), a)
      modifies this`goNode, this`gens, this`lists
      ensures Shape() && fresh(Objects() - old(Objects()))
      ensures Abs() == Apply(old(Abs()), a)
    {
      match a {
        case NodeAlloc => var _ := AllocateNode();
        case NodeGone => var _ := FreeNode();
        case ImplNew(i) => NewImpl(i);
        case ImplDelete(i) => DeleteImpl(i);
      }
    }

    /** In the invariant no step fails an assertion or meets a deleted handle,
        so what the environment may do is all that is asked. */
    method Step(a: Action)
      requires Shape() && Inv(Abs()) && Enabled(Abs(), a)
      modifies this, Objects()
      ensures Shape() && fresh(Objects() - old(Objects())) && Inv(Abs())
      ensures Abs() == Apply(old(Abs()), a)
    {
      StepKeeps(Abs(), a);
      Take(a);
    }

    /** The step number `i` of a run. */
    method StepOf(run: seq<Action>, i: nat)
      requires i < |run| && !Exec(INIT, run).NotARun?
      requires Shape() && Exec(INIT, run[..i]) == At(Abs())
      modifies this, Objects()
      ensures Shape() && fresh(Objects() - old(Objects()))
      ensures Exec(INIT, run[..i + 1]) == At(Abs())
    {
      PrefixSteps(run, i, Abs());
      NoRunCrashes(run[..i]);
      Step(run[i]);
    }

    /** `node::free`: cancel the front handle until none is linked, free the Go
        node, and only if that succeeded delete the node_impl. */
    method Free(i: nat) returns (ok: bool, ghost drained: World)
      requires Shape() && Inv(Abs()) && OwnClosures(Abs(), i)
      modifies this`lists, this`cancelledCtx, this`queue, this`slots, this`goNode, handles.Values
      ensures Shape() && Inv(Abs()) && Objects() <= old(Objects())
      ensures DrainsIn(old(Abs()), i, old(lists[i]))
      ensures At(drained) == DrainN(old(Abs()), i, |old(lists[i])|)
      ensures ok <==> old(goNode) != null
      ensures Abs() == if ok then drained.(go := None, lists := drained.lists - {i}) else drained
    {
      DrainList(i);
      drained := Abs();
      ok := Release(i);
    }

    /** What is left to do when the list is empty. */
    method Release(i: nat) returns (ok: bool)
      requires Shape() && Inv(Abs()) && i in lists && lists[i] == []
      modifies this`goNode, this`lists
      ensures Shape() && Inv(Abs()) && Objects() <= old(Objects())
      ensures ok <==> old(goNode) != null
      ensures var w := old(Abs()); Abs() == if ok then w.(go := None, lists := w.lists - {i}) else w
    {
      ghost var w := Abs();
      ok := FreeNode();
      if ok {
        StepKeeps(w, NodeGone);
        StepKeeps(w.(go := None), ImplDelete(i));
        DeleteImpl(i);
      }
    }

    /** The loop, with own closures: what it leaves is stated by DrainsIn, after
        exactly as many iterations as there were linked handles. */
    method DrainList(i: nat)
      requires Shape() && Inv(Abs()) && OwnClosures(Abs(), i)
      modifies this`lists, this`cancelledCtx, this`queue, this`slots, handles.Values
      ensures Shape() && Inv(Abs()) && i in lists && lists[i] == []
      ensures DrainsIn(old(Abs()), i, old(lists[i]))
      ensures At(Abs()) == DrainN(old(Abs()), i, |old(lists[i])|)
    {
      DrainEmptiesTheList(Abs(), i);
      DrainKeepsInv(Abs(), i, |lists[i]|);
      CancelAll(i, |lists[i]|);
    }

    /** The loop, wherever it ends. */
    method CancelAll(i: nat, ghost n: nat)
      requires Shape() && EmptiedAfter(Abs(), i, n)
      modifies this`lists, this`cancelledCtx, this`queue, this`slots, handles.Values
      ensures Shape()
      ensures At(Abs()) == DrainN(old(Abs()), i, n)
    {
      ghost var left := n;
      ghost var end := DrainN(Abs(), i, n);
      while lists[i] != []
        invariant Shape()
        invariant EmptiedAfter(Abs(), i, left) && DrainN(Abs(), i, left) == end && i in lists
        decreases left
      {
        CancelFront(i);
        left := left - 1;
      }
    }

    /** `Handle::cancel` of the front handle of a list: call what its slot holds. */
    method CancelFront(i: nat)
      requires Shape() && CanIterate(Abs(), i)
      modifies this`lists, this`cancelledCtx, this`queue, this`slots, handles.Values
      ensures Shape()
      ensures Abs() == Iterate(old(Abs()), i)
    {
      var h := handles[lists[i][0]];
      assert Abs().handles[lists[i][0]] == h.Rec();
      Invoke(h.cancelFn);
    }
  }

  lemma {:induction false} PrefixesRun(run: seq<Action>, i: nat)
    requires i <= |run| && !Exec(INIT, run).NotARun?
    ensures Exec(INIT, run[..i]).At?
    ensures i < |run| ==> Enabled(Exec(INIT, run[..i]).w, run[i])
    decreases |run|
  {
    NoRunCrashes(run);
    if i == |run| {
      assert run[..i] == run;
    } else {
      var prefix := run[..|run| - 1];
      PrefixesRun(prefix, i);
      assert prefix[..i] == run[..i];
      NoRunCrashes(run[..i]);
    }
  }

  lemma NeverCrashes(run: seq<Action>)
    ensures !Exec(INIT, run).Crashed?
  {
    NoRunCrashes(run);
  }

  lemma PrefixSteps(run: seq<Action>, i: nat, w: World)
    requires i < |run| && !Exec(INIT, run).NotARun? && Exec(INIT, run[..i]) == At(w)
    ensures Enabled(w, run[i]) && Safe(w, run[i])
    ensures Exec(INIT, run[..i + 1]) == At(Apply(w, run[i]))
  {
    PrefixesRun(run, i);
    NeverCrashes(run[..i + 1]);
    assert run[..i + 1][..i] == run[..i];
  }

  lemma EveryUserIsTold(run: seq<Action>)
    requires Exec(INIT, run).At?
    ensures forall op: OpId :: Deliveries(Exec(INIT, run).w.log, op) > 0 ==>
              ToldAsHappened(run, op, Told(Exec(INIT, run).w.log, op))
  {
    forall op: OpId | Deliveries(Exec(INIT, run).w.log, op) > 0
      ensures ToldAsHappened(run, op, Told(Exec(INIT, run).w.log, op))
    {
      UsersAreToldWhatHappened(run, op);
    }
  }

  lemma EveryOperationIsAPromise(run: seq<Action>)
    requires Exec(INIT, run).At?
    ensures forall op: OpId :: PromiseOf(Exec(INIT, run).w, op) == Judge(History(run, op))
    ensures forall op: OpId ::
              Deliveries(Exec(INIT, run).w.log, op) == if Judge(History(run, op)).Settled? then 1 else 0
  {
    forall op: OpId
      ensures PromiseOf(Exec(INIT, run).w, op) == Judge(History(run, op))
      ensures Deliveries(Exec(INIT, run).w.log, op) == if Judge(History(run, op)).Settled? then 1 else 0
    {
      EveryRunIsAPromise(run, op);
    }
  }

  /** Any sequence of calls, starting from nothing: the objects end where Exec
      says, and every operation is a one-shot promise. */
  method Perform(run: seq<Action>) returns (r: Runtime)
    requires !Exec(INIT, run).NotARun?
    ensures r.Shape() && Exec(INIT, run) == At(r.Abs())
    ensures forall op: OpId :: PromiseOf(r.Abs(), op) == Judge(History(run, op))
    ensures forall op: OpId :: Deliveries(r.log, op) == if Judge(History(run, op)).Settled? then 1 else 0
    ensures forall op: OpId :: Deliveries(r.log, op) > 0 ==> ToldAsHappened(run, op, Told(r.log, op))
  {
    r := new Runtime();
    var i := 0;
    while i < |run|
      invariant 0 <= i <= |run| && fresh(r) && fresh(r.Objects()) && r.Shape()
      invariant Exec(INIT, run[..i]) == At(r.Abs())
    {
      r.StepOf(run, i);
      i := i + 1;
    }
    assert run[..i] == run;
    EveryOperationIsAPromise(run);
    EveryUserIsTold(run);
  }
}
