/** The asynchronous operation and cancellation protocol as a step system:
    the handles of src/node.cpp, their intrusive lists, the cancel slots, the
    asio queue and the cancel registry of src/ipfs_bindings/ipfs_cancel.go.

    Two parties act. The asio thread starts operations, invokes cancel slots,
    drains lists and runs queued jobs, one at a time; user callbacks run inside
    a job and may do everything the asio thread may do outside one. Go threads
    only append a completion job to the queue. */
module Operations {
  import opened Wrappers
  import opened Promise

  const MAX_UINT64: nat := 0xFFFF_FFFF_FFFF_FFFF

  type Ptr = nat   // the address of a Handle; may be used again once freed
  type OpId = nat  // the identity of one call of the API and of its callback

  /** A `std::function<void()>`: the caller's `Cancel`, or the one inside the
      handle that is used when the caller gave none. */
  datatype SlotRef = Own(h: Ptr) | User(u: nat)

  datatype Closure = Nop | CancelOf(h: Ptr)

  /** The fields of a Handle. `op` and `gen` are history: the operation it was
      made for, and the Go node (if any) whose registry its id belongs to. */
  datatype HandleRec = HandleRec(
    impl: nat, slot: SlotRef, cb: Option<OpId>, id: Option<nat>,
    linked: bool, jobCount: nat, op: OpId, gen: Option<nat>)

  datatype Job =
    | GoJob(h: Ptr, err: int, data: seq<byte>)
    | AbortJob(h: Ptr, callback: OpId)

  /** What the Go side keeps per node for cancellation; a context is named by
      the operation that runs under it. `allocs` counts allocations without
      wrapping (history); the id counter itself is uint64. */
  datatype GoNode = GoNode(gen: nat, allocs: nat, signals: map<nat, OpId>)
  {
    function NextId(): nat { allocs % (MAX_UINT64 + 1) }
  }

  datatype Delivery = Delivery(op: OpId, outcome: Outcome)

  /** `owed` are the handles whose Go callback has not been called yet; `log`
      the user callbacks that were run; `posted` what Go reported for each
      operation; `cancelledCtx` the contexts cancelled through the registry. */
  datatype World = World(
    handles: map<Ptr, HandleRec>,
    lists: map<nat, seq<Ptr>>,
    slots: map<SlotRef, Closure>,
    queue: seq<Job>,
    running: Option<Job>,
    owed: set<Ptr>,
    go: Option<GoNode>,
    gens: nat,
    cancelledCtx: set<OpId>,
    nextOp: OpId,
    log: seq<Delivery>,
    posted: map<OpId, Outcome>)

  const INIT: World := World(map[], map[], map[], [], None, {}, None, 0, {}, 0, [], map[])

  // ----- Lists and counters ------------------------------------------------

  ghost predicate NoDup<T(!new)>(q: seq<T>) {
    forall i, j :: 0 <= i < j < |q| ==> q[i] != q[j]
  }

  /** The list after a node took itself out of it. */
  function Remove(q: seq<Ptr>, h: Ptr): (r: seq<Ptr>)
    ensures forall x :: x in r <==> x in q && x != h
    ensures h !in q ==> r == q
    ensures |r| <= |q|
  {
    if q == [] then []
    else if q[0] == h then Remove(q[1..], h)
    else [q[0]] + Remove(q[1..], h)
  }

  lemma EmptyIfNoElement(q: seq<Ptr>)
    ensures q == [] || exists x :: x in q
  {
    assert q == [] || q[0] in q;
  }

  lemma {:induction false} RemoveNoDup(q: seq<Ptr>, h: Ptr)
    requires NoDup(q)
    ensures NoDup(Remove(q, h))
  {
    if q != [] {
      RemoveNoDup(q[1..], h);
      assert q[0] !in q[1..];
    }
  }

  lemma SmallerSet<T>(a: set<T>, b: set<T>)
    requires a <= b
    ensures |a| <= |b|
  {
    if a == b {} else { assert b == a + (b - a); }
  }

  /** How many queued jobs Go posted for `h`. */
  function GoJobs(q: seq<Job>, h: Ptr): nat
  {
    if q == [] then 0
    else (if q[0].GoJob? && q[0].h == h then 1 else 0) + GoJobs(q[1..], h)
  }

  /** How many queued jobs a cancellation posted for `h`. */
  function AbortJobs(q: seq<Job>, h: Ptr): nat
  {
    if q == [] then 0
    else (if q[0].AbortJob? && q[0].h == h then 1 else 0) + AbortJobs(q[1..], h)
  }

  lemma {:induction false} JobsAppend(q: seq<Job>, j: Job, h: Ptr)
    ensures GoJobs(q + [j], h) == GoJobs(q, h) + (if j.GoJob? && j.h == h then 1 else 0)
    ensures AbortJobs(q + [j], h) == AbortJobs(q, h) + (if j.AbortJob? && j.h == h then 1 else 0)
  {
    if q == [] {
      assert q + [j] == [j];
      assert [j][1..] == [];
    } else {
      assert (q + [j])[1..] == q[1..] + [j];
      JobsAppend(q[1..], j, h);
    }
  }

  lemma {:induction false} JobsNone(q: seq<Job>, h: Ptr)
    ensures GoJobs(q, h) == 0 <==> forall j :: j in q ==> !(j.GoJob? && j.h == h)
    ensures AbortJobs(q, h) == 0 <==> forall j :: j in q ==> !(j.AbortJob? && j.h == h)
  {
    if q != [] {
      JobsNone(q[1..], h);
      assert forall j :: j in q <==> j == q[0] || j in q[1..];
    }
  }

  /** How often the callback of `op` was run. */
  function Deliveries(log: seq<Delivery>, op: OpId): nat
  {
    if log == [] then 0
    else Deliveries(log[..|log| - 1], op) + (if log[|log| - 1].op == op then 1 else 0)
  }

  lemma DeliveriesAppend(log: seq<Delivery>, d: Delivery, op: OpId)
    ensures Deliveries(log + [d], op) == Deliveries(log, op) + (if d.op == op then 1 else 0)
  {
    assert (log + [d])[..|log|] == log;
  }

  // ----- The pieces of a step ----------------------------------------------

  function Unlink(w: World, h: Ptr): World
    requires h in w.handles
  {
    var r := w.handles[h];
    w.(handles := w.handles[h := r.(linked := false)],
       lists := if r.impl in w.lists
                then w.lists[r.impl := Remove(w.lists[r.impl], h)] else w.lists)
  }

  /** `go_asio_ipfs_cancellation_allocate`: the id, and Go's new state. */
  function AllocateId(go: Option<GoNode>): (nat, Option<GoNode>)
  {
    match go
    case None => (MAX_UINT64, None)
    case Some(n) => (n.NextId(), Some(n.(allocs := n.allocs + 1)))
  }

  /** `withCancel`, reached only when there is a node. */
  function WithCancel(go: Option<GoNode>, id: nat, op: OpId): Option<GoNode>
  {
    match go
    case None => None
    case Some(n) => Some(n.(signals := n.signals[id := op]))
  }

  /** `go_asio_ipfs_cancellation_free`. */
  function FreeId(go: Option<GoNode>, id: Option<nat>): Option<GoNode>
  {
    if go.Some? && id.Some? then Some(go.value.(signals := go.value.signals - {id.value})) else go
  }

  /** `go_asio_ipfs_cancel`: the contexts it cancels. */
  function ContextsHit(go: Option<GoNode>, id: Option<nat>): set<OpId>
  {
    if go.Some? && id.Some? && id.value in go.value.signals then {go.value.signals[id.value]} else {}
  }

  /** `call_ipfs` and `call_ipfs_nocancel` (`signal` tells them apart): allocate
      an id, construct the handle, and enter Go, which registers the context
      and from then on owes one callback. */
  function StartOp(w: World, h: Ptr, impl: nat, slot: SlotRef, signal: bool): World
    requires impl in w.lists
  {
    var (id, go1) := if signal then AllocateId(w.go) else (0, w.go);
    var go2 := if signal then WithCancel(go1, id, w.nextOp) else go1;
    var r := HandleRec(impl, slot, Some(w.nextOp), if signal then Some(id) else None, true, 1, w.nextOp,
                       if signal && w.go.Some? then Some(w.go.value.gen) else None);
    w.(handles := w.handles[h := r],
       lists := w.lists[impl := w.lists[impl] + [h]],
       slots := w.slots[slot := CancelOf(h)],
       owed := w.owed + {h},
       go := go2,
       nextOp := w.nextOp + 1)
  }

  /** `Handle::call`: Go reports, a job is posted. */
  function GoReports(w: World, h: Ptr, err: int, data: seq<byte>): World
    requires h in w.handles
  {
    w.(queue := w.queue + [GoJob(h, err, data)],
       owed := w.owed - {h},
       posted := w.posted[w.handles[h].op := Outcome(Ipfs(err), data)])
  }

  /** The cancel closure of `h`; its two assertions are the last two conditions. */
  ghost predicate CancelSafe(w: World, h: Ptr) {
    h in w.handles && w.handles[h].cb.Some? && w.handles[h].jobCount > 0
  }

  function CancelHandle(w: World, h: Ptr): World
    requires CancelSafe(w, h)
  {
    var w1 := Unlink(w, h);
    var r := w1.handles[h];
    w1.(cancelledCtx := w1.cancelledCtx + ContextsHit(w1.go, r.id),
        handles := w1.handles[h := r.(jobCount := r.jobCount + 1, cb := None)],
        queue := w1.queue + [AbortJob(h, r.cb.value)],
        slots := w1.slots[r.slot := Nop])
  }

  function InvokeSlot(w: World, s: SlotRef): World
    requires s in w.slots
    requires w.slots[s].CancelOf? ==> CancelSafe(w, w.slots[s].h)
  {
    match w.slots[s]
    case Nop => w
    case CancelOf(h) => CancelHandle(w, h)
  }

  /** The wrapper around the user's callback, up to and including its call. */
  function Deliver(w: World, h: Ptr, callback: OpId, o: Outcome): World
    requires h in w.handles
  {
    var r := w.handles[h];
    var w1 := w.(slots := w.slots[r.slot := Nop], go := FreeId(w.go, r.id));
    var w2 := Unlink(w1, h);
    w2.(log := w2.log + [Delivery(callback, o)])
  }

  /** asio takes the next job and runs it up to the user's callback. */
  function BeginJob(w: World): World
    requires w.queue != [] && w.queue[0].h in w.handles
  {
    var j := w.queue[0];
    var w1 := w.(queue := w.queue[1..], running := Some(j));
    match j
    case AbortJob(h, callback) => Deliver(w1, h, callback, ABORTED)
    case GoJob(h, err, data) =>
      var cb := w.handles[h].cb;
      if cb.Some? then Deliver(w1, h, cb.value, Outcome(Ipfs(err), data)) else w1
  }

  /** `delete(this)`: the list hook unlinks itself, and the handle's own slot
      goes with it. */
  function DeleteHandle(w: World, h: Ptr): World
    requires h in w.handles
  {
    var w1 := Unlink(w, h);
    w1.(handles := w1.handles - {h}, slots := w1.slots - {Own(h)})
  }

  /** The job's `on_exit`. */
  function EndJob(w: World): World
    requires w.running.Some? && w.running.value.h in w.handles
    requires w.handles[w.running.value.h].jobCount > 0
  {
    var h := w.running.value.h;
    var r := w.handles[h];
    var w1 := w.(running := None, handles := w.handles[h := r.(jobCount := r.jobCount - 1)]);
    if r.jobCount == 1 then DeleteHandle(w1, h) else w1
  }

  // ----- The step system ---------------------------------------------------

  datatype Action =
    | NodeAlloc                                  // allocate_node succeeds
    | NodeGone                                   // go_asio_ipfs_free succeeds
    | ImplNew(i: nat)                            // a node_impl is made
    | ImplDelete(i: nat)                         // and deleted, once drained
    | Start(h: Ptr, impl: nat, slot: SlotRef, signal: bool)
    | GoCall(h: Ptr, err: int, data: seq<byte>)
    | Invoke(s: SlotRef)                         // a user's cancel, or Handle::cancel
    | Begin
    | End

  /** When the environment may take the action. */
  ghost predicate Enabled(w: World, a: Action)
  {
    match a
    case NodeAlloc => w.go.None?
    case NodeGone => w.go.Some?
    case ImplNew(i) => i !in w.lists
    case ImplDelete(i) => i in w.lists && w.lists[i] == []
    case Start(h, impl, slot, _) => h !in w.handles && impl in w.lists && (slot == Own(h) || slot.User?)
    case GoCall(h, _, _) => h in w.owed
    case Invoke(s) => s in w.slots
    case Begin => w.queue != [] && w.running.None?
    case End => w.running.Some?
  }

  /** When taking it does not fail an assertion, touch a deleted handle or
      wrap a counter below zero. */
  ghost predicate Safe(w: World, a: Action)
  {
    match a
    case GoCall(h, _, _) => h in w.handles
    case Invoke(s) => s in w.slots && (w.slots[s].CancelOf? ==> CancelSafe(w, w.slots[s].h))
    case Begin => w.queue != [] && w.queue[0].h in w.handles
    case End => w.running.Some? && w.running.value.h in w.handles && w.handles[w.running.value.h].jobCount > 0
    case _ => true
  }

  ghost function Apply(w: World, a: Action): World
    requires Enabled(w, a) && Safe(w, a)
  {
    match a
    case NodeAlloc => w.(go := Some(GoNode(w.gens, 0, map[])), gens := w.gens + 1)
    case NodeGone => w.(go := None)
    case ImplNew(i) => w.(lists := w.lists[i := []])
    case ImplDelete(i) => w.(lists := w.lists - {i})
    case Start(h, impl, slot, signal) => StartOp(w, h, impl, slot, signal)
    case GoCall(h, err, data) => GoReports(w, h, err, data)
    case Invoke(s) => InvokeSlot(w, s)
    case Begin => BeginJob(w)
    case End => EndJob(w)
  }

  /** Where a sequence of actions leads: to a world, to a crash, or nowhere
      because some action was not the environment's to take. */
  datatype Reached = At(w: World) | Crashed | NotARun

  ghost function Exec(w: World, run: seq<Action>): Reached
    decreases |run|
  {
    if run == [] then At(w)
    else
      var prefix := Exec(w, run[..|run| - 1]);
      var a := run[|run| - 1];
      if !prefix.At? then prefix
      else if !Enabled(prefix.w, a) then NotARun
      else if !Safe(prefix.w, a) then Crashed
      else At(Apply(prefix.w, a))
  }

  lemma ExecStep(run: seq<Action>, a: Action, w: World)
    requires Exec(INIT, run) == At(w) && Enabled(w, a) && Safe(w, a)
    ensures Exec(INIT, run + [a]) == At(Apply(w, a))
  {
    assert (run + [a])[..|run|] == run;
  }

  lemma {:induction false} ExecPrepend(w: World, a: Action, rest: seq<Action>)
    requires Enabled(w, a) && Safe(w, a)
    ensures Exec(w, [a] + rest) == Exec(Apply(w, a), rest)
    decreases |rest|
  {
    var run := [a] + rest;
    if rest == [] {
      assert run[..0] == [] && run == [a];
      assert Exec(w, []) == At(w);
    } else {
      assert run[..|run| - 1] == [a] + rest[..|rest| - 1];
      ExecPrepend(w, a, rest[..|rest| - 1]);
    }
  }
}
