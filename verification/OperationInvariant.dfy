/** What every step of the operation protocol keeps, whatever slots the callers
    pass: reference counts, liveness of every reference, and one callback per
    operation. */
module OperationInvariant {
  import opened Wrappers
  import opened Promise
  import opened Operations

  // ----- The invariant -----------------------------------------------------

  function RunsGo(w: World, h: Ptr): nat {
    if w.running.Some? && w.running.value.GoJob? && w.running.value.h == h then 1 else 0
  }

  function RunsAbort(w: World, h: Ptr): nat {
    if w.running.Some? && w.running.value.AbortJob? && w.running.value.h == h then 1 else 0
  }

  /** Go's part in the reference count: its call is owed, queued or running. */
  function GoDebt(w: World, h: Ptr): nat {
    (if h in w.owed then 1 else 0) + GoJobs(w.queue, h) + RunsGo(w, h)
  }

  /** The cancellation's part: its job is queued or running. */
  function AbortDebt(w: World, h: Ptr): nat {
    AbortJobs(w.queue, h) + RunsAbort(w, h)
  }

  /** Nothing names a handle that was deleted. */
  ghost predicate RefsLive(w: World) {
    && (forall h :: h in w.owed ==> h in w.handles)
    && (forall j :: j in w.queue ==> j.h in w.handles)
    && (w.running.Some? ==> w.running.value.h in w.handles)
  }

  ghost predicate ListsOk(w: World) {
    && (forall i :: i in w.lists ==> NoDup(w.lists[i]))
    && (forall i, h :: i in w.lists && h in w.lists[i] ==>
          h in w.handles && w.handles[h].impl == i && w.handles[h].linked)
    && (forall h :: h in w.handles && w.handles[h].linked ==>
          w.handles[h].impl in w.lists && h in w.lists[w.handles[h].impl])
  }

  ghost predicate SlotsOk(w: World) {
    && (forall s :: s in w.slots && w.slots[s].CancelOf? ==>
          var h := w.slots[s].h;
          h in w.handles && w.handles[h].slot == s && w.handles[h].linked)
    && (forall h :: h in w.handles ==>
          w.handles[h].slot in w.slots && (w.handles[h].slot == Own(h) || w.handles[h].slot.User?))
    && (forall s :: s in w.slots && s.Own? ==> s.h in w.handles)
  }

  ghost predicate CountsOk(w: World) {
    forall h :: h in w.handles ==> CountOk(w, h)
  }

  /** The counter of a live handle is the number of jobs still to come for it. */
  ghost predicate CountOk(w: World, h: Ptr)
    requires h in w.handles
  {
    && GoDebt(w, h) <= 1 && AbortDebt(w, h) <= 1
    && w.handles[h].jobCount == GoDebt(w, h) + AbortDebt(w, h)
    && w.handles[h].jobCount >= 1
  }

  /** A handle is linked (waiting), cancelled (`cb` moved out) or delivering. */
  ghost predicate PhaseOk(w: World, h: Ptr)
    requires h in w.handles
  {
    var r := w.handles[h];
    && (r.cb == None || r.cb == Some(r.op))
    && (r.linked ==> r.cb.Some? && GoDebt(w, h) == 1 && RunsGo(w, h) == 0 && AbortDebt(w, h) == 0
                     && Deliveries(w.log, r.op) == 0)
    && (!r.linked && r.cb.Some? ==> RunsGo(w, h) == 1 && AbortDebt(w, h) == 0 && Deliveries(w.log, r.op) == 1)
    && (r.cb.None? ==> !r.linked && AbortJobs(w.queue, h) + Deliveries(w.log, r.op) == 1)
  }

  ghost predicate PhasesOk(w: World) {
    forall h :: h in w.handles ==> PhaseOk(w, h)
  }

  /** A queued job carries its own handle's callback, or what Go reported for it. */
  ghost predicate QueueOk(w: World) {
    && (forall j :: j in w.queue && j.h in w.handles ==>
          if j.AbortJob? then j.callback == w.handles[j.h].op
          else w.handles[j.h].op in w.posted && w.posted[w.handles[j.h].op] == Outcome(Ipfs(j.err), j.data))
    && (forall h :: h in w.owed && h in w.handles ==> w.handles[h].op !in w.posted)
    && (forall op :: op in w.posted ==> op < w.nextOp)
  }

  /** A callback was told what Go reported for its operation, or of its abort. */
  ghost predicate LogOk(w: World) {
    forall d :: d in w.log ==> d.outcome == ABORTED || (d.op in w.posted && w.posted[d.op] == d.outcome)
  }

  ghost predicate OpIdsOk(w: World) {
    && (forall h, g :: h in w.handles && g in w.handles && h != g ==> w.handles[h].op != w.handles[g].op)
    && (forall h :: h in w.handles ==> w.handles[h].op < w.nextOp)
  }

  ghost predicate Holds(w: World, h: Ptr, op: OpId) {
    h in w.handles && w.handles[h].op == op
  }

  /** No callback ran twice, and whoever was not told yet has a live handle. */
  ghost predicate ToldOk(w: World) {
    && (forall op: OpId :: Deliveries(w.log, op) <= (if op < w.nextOp then 1 else 0))
    && (forall op: OpId :: op < w.nextOp && Deliveries(w.log, op) == 0 ==> exists h :: Holds(w, h, op))
  }

  ghost predicate Inv(w: World) {
    && RefsLive(w) && ListsOk(w) && SlotsOk(w) && CountsOk(w) && PhasesOk(w)
    && QueueOk(w) && LogOk(w) && OpIdsOk(w) && ToldOk(w)
  }

  /** The wrapper around its callback has not been entered yet. */
  ghost predicate Waiting(w: World, h: Ptr) {
    h in w.handles && (w.handles[h].linked || AbortJobs(w.queue, h) > 0)
  }

  // ----- Every step keeps it -----------------------------------------------

  /** The invariant implies that no enabled action can crash. */
  lemma InvSafe(w: World, a: Action)
    requires Inv(w) && Enabled(w, a)
    ensures Safe(w, a)
  {
    if a.Invoke? && w.slots[a.s].CancelOf? {
      assert PhaseOk(w, w.slots[a.s].h);
    }
    if a.Begin? {
      assert w.queue[0] in w.queue;
    }
  }

  lemma GoCallMovesDebts(w: World, h: Ptr, err: int, data: seq<byte>, x: Ptr)
    requires h in w.handles && h in w.owed
    ensures var w' := GoReports(w, h, err, data);
      GoDebt(w', x) == GoDebt(w, x) && AbortDebt(w', x) == AbortDebt(w, x)
      && AbortJobs(w'.queue, x) == AbortJobs(w.queue, x)
  {
    JobsAppend(w.queue, GoJob(h, err, data), x);
  }

  lemma CancelMovesDebts(w: World, h: Ptr, x: Ptr)
    requires CancelSafe(w, h)
    ensures var w' := CancelHandle(w, h);
      GoDebt(w', x) == GoDebt(w, x) && AbortDebt(w', x) == AbortDebt(w, x) + (if h == x then 1 else 0)
      && AbortJobs(w'.queue, x) == AbortJobs(w.queue, x) + (if h == x then 1 else 0)
  {
    JobsAppend(w.queue, AbortJob(h, w.handles[h].cb.value), x);
  }

  lemma BeginMovesDebts(w: World, x: Ptr)
    requires Enabled(w, Begin) && Safe(w, Begin)
    ensures var w' := BeginJob(w);
      GoDebt(w', x) == GoDebt(w, x) && AbortDebt(w', x) == AbortDebt(w, x)
      && AbortJobs(w'.queue, x) == AbortJobs(w.queue, x) - RunsAbort(w', x)
  {
    assert BeginJob(w).queue == w.queue[1..] && BeginJob(w).running == Some(w.queue[0]);
  }

  lemma EndMovesDebts(w: World, x: Ptr)
    requires Enabled(w, End) && Safe(w, End)
    ensures var w' := EndJob(w);
      GoDebt(w', x) == GoDebt(w, x) - RunsGo(w, x) && AbortDebt(w', x) == AbortDebt(w, x) - RunsAbort(w, x)
      && AbortJobs(w'.queue, x) == AbortJobs(w.queue, x)
  {}

  /** How the two debts of a handle move with each action. */
  lemma DebtsMove(w: World, a: Action, x: Ptr)
    requires Enabled(w, a) && Safe(w, a)
    requires a.Start? ==> x != a.h
    ensures var w' := Apply(w, a);
      && GoDebt(w', x) == GoDebt(w, x) - (if a.End? then RunsGo(w, x) else 0)
      && AbortDebt(w', x) == AbortDebt(w, x) + AbortsPosted(w, a, x) - (if a.End? then RunsAbort(w, x) else 0)
      && AbortJobs(w'.queue, x) ==
           AbortJobs(w.queue, x) + AbortsPosted(w, a, x) - (if a.Begin? then RunsAbort(w', x) else 0)
  {
    match a
    case GoCall(h, err, data) => GoCallMovesDebts(w, h, err, data, x);
    case Invoke(s) => if w.slots[s].CancelOf? { CancelMovesDebts(w, w.slots[s].h, x); }
    case Begin => BeginMovesDebts(w, x);
    case End => EndMovesDebts(w, x);
    case _ => assert Apply(w, a).queue == w.queue && Apply(w, a).running == w.running;
  }

  /** 1 when the action is the one that cancels `x`. */
  ghost function AbortsPosted(w: World, a: Action, x: Ptr): nat
    requires Enabled(w, a)
  {
    if a.Invoke? && w.slots[a.s] == CancelOf(x) then 1 else 0
  }

  /** The job that drops the last reference was the last thing to name the handle. */
  lemma EndKeepsRefs(w: World)
    requires RefsLive(w) && CountsOk(w) && Enabled(w, End) && Safe(w, End)
    ensures RefsLive(EndJob(w))
  {
    var h := w.running.value.h;
    assert CountOk(w, h);
    JobsNone(w.queue, h);
  }

  lemma RefsKeep(w: World, a: Action)
    requires RefsLive(w) && CountsOk(w) && Enabled(w, a) && Safe(w, a)
    ensures RefsLive(Apply(w, a))
  {
    match a
    case End => EndKeepsRefs(w);
    case Begin =>
      assert forall j :: j in BeginJob(w).queue ==> j in w.queue;
    case _ =>
  }

  lemma UnlinkKeepsLists(w: World, h: Ptr)
    requires ListsOk(w) && h in w.handles
    ensures ListsOk(Unlink(w, h))
  {
    forall i | i in w.lists ensures NoDup(Unlink(w, h).lists[i]) {
      RemoveNoDup(w.lists[i], h);
    }
  }

  /** The list invariant only looks at the lists and the hooks. */
  lemma ListsDepend(w: World, w': World)
    requires ListsOk(w) && w'.lists == w.lists
    requires forall h :: h in w'.handles ==>
               h in w.handles && w'.handles[h].impl == w.handles[h].impl && w'.handles[h].linked == w.handles[h].linked
    requires forall h :: h in w.handles && w.handles[h].linked ==> h in w'.handles
    ensures ListsOk(w')
  {}

  lemma StartKeepsLists(w: World, h: Ptr, impl: nat, slot: SlotRef, signal: bool)
    requires ListsOk(w) && h !in w.handles && impl in w.lists
    ensures ListsOk(StartOp(w, h, impl, slot, signal))
  {
    var w' := StartOp(w, h, impl, slot, signal);
    assert h !in w.lists[impl];
    assert forall i, x :: i in w'.lists && x in w'.lists[i] ==> (x in w.lists[i] || (x == h && i == impl));
  }

  lemma CancelKeepsLists(w: World, h: Ptr)
    requires ListsOk(w) && CancelSafe(w, h)
    ensures ListsOk(CancelHandle(w, h))
  {
    UnlinkKeepsLists(w, h);
    ListsDepend(Unlink(w, h), CancelHandle(w, h));
  }

  lemma DeliverKeepsLists(w: World, h: Ptr, callback: OpId, o: Outcome)
    requires ListsOk(w) && h in w.handles
    ensures ListsOk(Deliver(w, h, callback, o))
  {
    UnlinkKeepsLists(w, h);
    ListsDepend(Unlink(w, h), Deliver(w, h, callback, o));
  }

  lemma BeginKeepsLists(w: World)
    requires ListsOk(w) && Enabled(w, Begin) && Safe(w, Begin)
    ensures ListsOk(BeginJob(w))
  {
    if DeliveredBy(w, Begin).Some? {
      DeliverKeepsLists(w.(queue := w.queue[1..], running := Some(w.queue[0])), w.queue[0].h,
                        DeliveredBy(w, Begin).value, BeginJob(w).log[|w.log|].outcome);
    }
  }

  lemma EndKeepsLists(w: World)
    requires ListsOk(w) && Enabled(w, End) && Safe(w, End)
    ensures ListsOk(EndJob(w))
  {
    var h := w.running.value.h;
    var r := w.handles[h];
    var w1 := w.(running := None, handles := w.handles[h := r.(jobCount := r.jobCount - 1)]);
    ListsDepend(w, w1);
    UnlinkKeepsLists(w1, h);
    if r.jobCount == 1 { ListsDepend(Unlink(w1, h), EndJob(w)); }
  }

  lemma ListsKeep(w: World, a: Action)
    requires ListsOk(w) && Enabled(w, a) && Safe(w, a)
    ensures ListsOk(Apply(w, a))
  {
    match a
    case Start(h, impl, slot, signal) => StartKeepsLists(w, h, impl, slot, signal);
    case Invoke(s) => if w.slots[s].CancelOf? { CancelKeepsLists(w, w.slots[s].h); }
    case Begin => BeginKeepsLists(w);
    case End => EndKeepsLists(w);
    case _ =>
  }

  lemma DeleteKeepsSlots(w: World, h: Ptr)
    requires SlotsOk(w) && h in w.handles && !w.handles[h].linked
    ensures SlotsOk(DeleteHandle(w, h))
  {}

  lemma EndKeepsSlots(w: World)
    requires SlotsOk(w) && PhasesOk(w) && Enabled(w, End) && Safe(w, End)
    ensures SlotsOk(EndJob(w))
  {
    var h := w.running.value.h;
    assert PhaseOk(w, h);
    var r := w.handles[h];
    var w1 := w.(running := None, handles := w.handles[h := r.(jobCount := r.jobCount - 1)]);
    assert SlotsOk(w1);
    DeleteKeepsSlots(w1, h);
  }

  lemma StartKeepsSlots(w: World, h: Ptr, impl: nat, slot: SlotRef, signal: bool)
    requires SlotsOk(w) && Enabled(w, Start(h, impl, slot, signal))
    ensures SlotsOk(StartOp(w, h, impl, slot, signal))
  {}

  lemma CancelKeepsSlots(w: World, h: Ptr)
    requires SlotsOk(w) && CancelSafe(w, h)
    ensures SlotsOk(CancelHandle(w, h))
  {}

  lemma DeliverKeepsSlots(w: World, h: Ptr, callback: OpId, o: Outcome)
    requires SlotsOk(w) && h in w.handles
    ensures SlotsOk(Deliver(w, h, callback, o))
  {}

  lemma BeginKeepsSlots(w: World)
    requires SlotsOk(w) && Enabled(w, Begin) && Safe(w, Begin)
    ensures SlotsOk(BeginJob(w))
  {
    var j := w.queue[0];
    var w1 := w.(queue := w.queue[1..], running := Some(j));
    assert SlotsOk(w1);
    match j
    case AbortJob(h, callback) => DeliverKeepsSlots(w1, h, callback, ABORTED);
    case GoJob(h, err, data) =>
      if w.handles[h].cb.Some? {
        DeliverKeepsSlots(w1, h, w.handles[h].cb.value, Outcome(Ipfs(err), data));
      }
  }

  lemma SlotsKeep(w: World, a: Action)
    requires SlotsOk(w) && PhasesOk(w) && Enabled(w, a) && Safe(w, a)
    ensures SlotsOk(Apply(w, a))
  {
    match a
    case End => EndKeepsSlots(w);
    case Start(h, impl, slot, signal) => StartKeepsSlots(w, h, impl, slot, signal);
    case Invoke(s) => if w.slots[s].CancelOf? { CancelKeepsSlots(w, w.slots[s].h); }
    case Begin => BeginKeepsSlots(w);
    case _ =>
  }

  lemma StartKeepsCounts(w: World, h: Ptr, impl: nat, slot: SlotRef, signal: bool)
    requires RefsLive(w) && CountsOk(w) && Enabled(w, Start(h, impl, slot, signal))
    ensures CountsOk(StartOp(w, h, impl, slot, signal))
  {
    JobsNone(w.queue, h);
    var w' := StartOp(w, h, impl, slot, signal);
    forall x | x in w'.handles ensures CountOk(w', x) {
      if x != h {
        assert CountOk(w, x);
        DebtsMove(w, Start(h, impl, slot, signal), x);
      }
    }
  }

  lemma InvokeKeepsCounts(w: World, s: SlotRef)
    requires SlotsOk(w) && CountsOk(w) && PhasesOk(w) && Enabled(w, Invoke(s)) && Safe(w, Invoke(s))
    ensures CountsOk(InvokeSlot(w, s))
  {
    var w' := InvokeSlot(w, s);
    forall x | x in w'.handles ensures CountOk(w', x) {
      DebtsMove(w, Invoke(s), x);
      assert CountOk(w, x) && PhaseOk(w, x);
    }
  }

  lemma BeginKeepsCounts(w: World)
    requires CountsOk(w) && Enabled(w, Begin) && Safe(w, Begin)
    ensures CountsOk(BeginJob(w))
  {
    forall x | x in w.handles ensures CountOk(BeginJob(w), x) {
      DebtsMove(w, Begin, x);
      assert CountOk(w, x);
    }
  }

  lemma EndKeepsCounts(w: World)
    requires CountsOk(w) && Enabled(w, End) && Safe(w, End)
    ensures CountsOk(EndJob(w))
  {
    forall x | x in EndJob(w).handles ensures CountOk(EndJob(w), x) {
      DebtsMove(w, End, x);
      assert CountOk(w, x);
    }
  }

  lemma CountsKeep(w: World, a: Action)
    requires Inv(w) && Enabled(w, a) && Safe(w, a)
    ensures CountsOk(Apply(w, a))
  {
    match a
    case Start(h, impl, slot, signal) => StartKeepsCounts(w, h, impl, slot, signal);
    case Invoke(s) => InvokeKeepsCounts(w, s);
    case Begin => BeginKeepsCounts(w);
    case End => EndKeepsCounts(w);
    case _ =>
      forall x | x in w.handles ensures CountOk(Apply(w, a), x) {
        DebtsMove(w, a, x);
        assert CountOk(w, x);
      }
  }

  /** The callback run by a step, if any. */
  ghost function DeliveredBy(w: World, a: Action): Option<OpId>
    requires Enabled(w, a) && Safe(w, a)
  {
    if !a.Begin? then None
    else if w.queue[0].AbortJob? then Some(w.queue[0].callback)
    else w.handles[w.queue[0].h].cb
  }

  lemma DeliveriesMove(w: World, a: Action, op: OpId)
    requires Enabled(w, a) && Safe(w, a)
    ensures Deliveries(Apply(w, a).log, op)
         == Deliveries(w.log, op) + (if DeliveredBy(w, a) == Some(op) then 1 else 0)
  {
    if DeliveredBy(w, a).Some? {
      var d := Apply(w, a).log[|w.log|];
      assert Apply(w, a).log == w.log + [d] && Some(d.op) == DeliveredBy(w, a);
      DeliveriesAppend(w.log, d, op);
    }
  }

  lemma InvokeKeepsPhase(w: World, s: SlotRef, x: Ptr)
    requires SlotsOk(w) && PhasesOk(w) && Enabled(w, Invoke(s)) && Safe(w, Invoke(s)) && x in w.handles
    ensures PhaseOk(InvokeSlot(w, s), x)
  {
    DebtsMove(w, Invoke(s), x);
    assert PhaseOk(w, x);
  }

  lemma BeginKeepsPhase(w: World, x: Ptr)
    requires CountsOk(w) && PhasesOk(w) && QueueOk(w) && OpIdsOk(w)
    requires Enabled(w, Begin) && Safe(w, Begin) && x in w.handles
    ensures PhaseOk(BeginJob(w), x)
  {
    DebtsMove(w, Begin, x);
    DeliveriesMove(w, Begin, w.handles[x].op);
    assert w.queue[0] in w.queue;
    assert PhaseOk(w, w.queue[0].h);
    assert PhaseOk(w, x);
  }

  lemma EndKeepsPhase(w: World, x: Ptr)
    requires CountsOk(w) && PhasesOk(w) && Enabled(w, End) && Safe(w, End) && x in EndJob(w).handles
    ensures PhaseOk(EndJob(w), x)
  {
    DebtsMove(w, End, x);
    assert PhaseOk(w, x);
  }

  lemma StartKeepsPhase(w: World, h: Ptr, impl: nat, slot: SlotRef, signal: bool, x: Ptr)
    requires RefsLive(w) && PhasesOk(w) && ToldOk(w) && Enabled(w, Start(h, impl, slot, signal))
    requires x == h || x in w.handles
    ensures PhaseOk(StartOp(w, h, impl, slot, signal), x)
  {
    if x != h {
      DebtsMove(w, Start(h, impl, slot, signal), x);
      assert PhaseOk(w, x);
    } else {
      JobsNone(w.queue, h);
    }
  }

  lemma OtherKeepsPhase(w: World, a: Action, x: Ptr)
    requires PhasesOk(w) && Enabled(w, a) && Safe(w, a) && x in w.handles
    requires !a.Start? && !a.Invoke? && !a.Begin? && !a.End?
    ensures x in Apply(w, a).handles && PhaseOk(Apply(w, a), x)
  {
    DebtsMove(w, a, x);
    assert PhaseOk(w, x);
    assert Apply(w, a).handles == w.handles && Apply(w, a).log == w.log;
  }

  lemma InvokeKeepsPhases(w: World, s: SlotRef)
    requires SlotsOk(w) && PhasesOk(w) && Enabled(w, Invoke(s)) && Safe(w, Invoke(s))
    ensures PhasesOk(InvokeSlot(w, s))
  {
    forall x | x in InvokeSlot(w, s).handles ensures PhaseOk(InvokeSlot(w, s), x) { InvokeKeepsPhase(w, s, x); }
  }

  lemma BeginKeepsPhases(w: World)
    requires CountsOk(w) && PhasesOk(w) && QueueOk(w) && OpIdsOk(w) && Enabled(w, Begin) && Safe(w, Begin)
    ensures PhasesOk(BeginJob(w))
  {
    forall x | x in BeginJob(w).handles ensures PhaseOk(BeginJob(w), x) { BeginKeepsPhase(w, x); }
  }

  lemma EndKeepsPhases(w: World)
    requires CountsOk(w) && PhasesOk(w) && Enabled(w, End) && Safe(w, End)
    ensures PhasesOk(EndJob(w))
  {
    forall x | x in EndJob(w).handles ensures PhaseOk(EndJob(w), x) { EndKeepsPhase(w, x); }
  }

  lemma StartKeepsPhases(w: World, h: Ptr, impl: nat, slot: SlotRef, signal: bool)
    requires RefsLive(w) && PhasesOk(w) && ToldOk(w) && Enabled(w, Start(h, impl, slot, signal))
    ensures PhasesOk(StartOp(w, h, impl, slot, signal))
  {
    var w' := StartOp(w, h, impl, slot, signal);
    forall x | x in w'.handles ensures PhaseOk(w', x) { StartKeepsPhase(w, h, impl, slot, signal, x); }
  }

  lemma OtherKeepsPhases(w: World, a: Action)
    requires PhasesOk(w) && Enabled(w, a) && Safe(w, a) && !a.Start? && !a.Invoke? && !a.Begin? && !a.End?
    ensures PhasesOk(Apply(w, a))
  {
    forall x | x in Apply(w, a).handles ensures PhaseOk(Apply(w, a), x) { OtherKeepsPhase(w, a, x); }
  }

  lemma PhasesKeep(w: World, a: Action)
    requires RefsLive(w) && SlotsOk(w) && CountsOk(w) && PhasesOk(w) && QueueOk(w) && OpIdsOk(w) && ToldOk(w)
    requires Enabled(w, a) && Safe(w, a)
    ensures PhasesOk(Apply(w, a))
  {
    match a
    case Start(h, impl, slot, signal) => StartKeepsPhases(w, h, impl, slot, signal);
    case Invoke(s) => InvokeKeepsPhases(w, s);
    case Begin => BeginKeepsPhases(w);
    case End => EndKeepsPhases(w);
    case _ => OtherKeepsPhases(w, a);
  }

  lemma InvokeKeepsQueue(w: World, s: SlotRef)
    requires QueueOk(w) && PhasesOk(w) && Enabled(w, Invoke(s)) && Safe(w, Invoke(s))
    ensures QueueOk(InvokeSlot(w, s))
  {
    if w.slots[s].CancelOf? {
      var h := w.slots[s].h;
      assert PhaseOk(w, h);
      assert forall j :: j in InvokeSlot(w, s).queue ==> j in w.queue || j == AbortJob(h, w.handles[h].op);
    }
  }

  lemma GoCallKeepsQueue(w: World, h: Ptr, err: int, data: seq<byte>)
    requires QueueOk(w) && OpIdsOk(w) && h in w.owed && h in w.handles
    ensures QueueOk(GoReports(w, h, err, data))
  {
    var w' := GoReports(w, h, err, data);
    assert forall j :: j in w'.queue ==> j in w.queue || j == GoJob(h, err, data);
    JobsNone(w.queue, h);
  }

  lemma StartKeepsQueue(w: World, h: Ptr, impl: nat, slot: SlotRef, signal: bool)
    requires RefsLive(w) && QueueOk(w) && h !in w.handles && impl in w.lists
    ensures QueueOk(StartOp(w, h, impl, slot, signal))
  {}

  lemma EndKeepsQueue(w: World)
    requires QueueOk(w) && Enabled(w, End) && Safe(w, End)
    ensures QueueOk(EndJob(w))
  {}

  lemma BeginKeepsQueue(w: World)
    requires QueueOk(w) && Enabled(w, Begin) && Safe(w, Begin)
    ensures QueueOk(BeginJob(w))
  {
    assert forall j :: j in BeginJob(w).queue ==> j in w.queue;
  }

  lemma QueueKeeps(w: World, a: Action)
    requires Inv(w) && Enabled(w, a) && Safe(w, a)
    ensures QueueOk(Apply(w, a))
  {
    match a
    case Start(h, impl, slot, signal) => StartKeepsQueue(w, h, impl, slot, signal);
    case GoCall(h, err, data) => GoCallKeepsQueue(w, h, err, data);
    case Invoke(s) => InvokeKeepsQueue(w, s);
    case Begin => BeginKeepsQueue(w);
    case End => EndKeepsQueue(w);
    case _ =>
  }

  lemma BeginKeepsLog(w: World)
    requires LogOk(w) && QueueOk(w) && PhasesOk(w) && Enabled(w, Begin) && Safe(w, Begin)
    ensures LogOk(BeginJob(w))
  {
    var w' := BeginJob(w);
    assert w.queue[0] in w.queue;
    assert PhaseOk(w, w.queue[0].h);
    assert forall d :: d in w'.log ==> d in w.log || d == w'.log[|w.log|];
  }

  lemma GoCallKeepsLog(w: World, h: Ptr, err: int, data: seq<byte>)
    requires LogOk(w) && QueueOk(w) && h in w.handles && h in w.owed
    ensures LogOk(GoReports(w, h, err, data))
  {}

  lemma LogKeeps(w: World, a: Action)
    requires LogOk(w) && QueueOk(w) && RefsLive(w) && PhasesOk(w) && Enabled(w, a) && Safe(w, a)
    ensures LogOk(Apply(w, a))
  {
    match a
    case Begin => BeginKeepsLog(w);
    case GoCall(h, err, data) => GoCallKeepsLog(w, h, err, data);
    case _ => assert Apply(w, a).log == w.log && Apply(w, a).posted == w.posted;
  }

  lemma OpsStay(w: World, a: Action, x: Ptr)
    requires Enabled(w, a) && Safe(w, a) && x in Apply(w, a).handles
    ensures if a.Start? && x == a.h then Apply(w, a).handles[x].op == w.nextOp
            else x in w.handles && Apply(w, a).handles[x].op == w.handles[x].op
    ensures Apply(w, a).nextOp == w.nextOp + (if a.Start? then 1 else 0)
  {
    if !(a.Start? && x == a.h) { FieldsStay(w, a, x); }
  }

  lemma OpIdsKeep(w: World, a: Action)
    requires OpIdsOk(w) && Enabled(w, a) && Safe(w, a)
    ensures OpIdsOk(Apply(w, a))
  {
    var w' := Apply(w, a);
    forall x, y | x in w'.handles && y in w'.handles && x != y
      ensures w'.handles[x].op != w'.handles[y].op && w'.handles[x].op < w'.nextOp
    {
      OpsStay(w, a, x);
      OpsStay(w, a, y);
    }
    forall x | x in w'.handles ensures w'.handles[x].op < w'.nextOp {
      OpsStay(w, a, x);
    }
  }

  lemma DeliveredIsOwn(w: World)
    requires Inv(w) && Enabled(w, Begin) && DeliveredBy(w, Begin).Some?
    ensures var op := DeliveredBy(w, Begin).value;
      w.handles[w.queue[0].h].op == op && op < w.nextOp && Deliveries(w.log, op) == 0
  {
    assert w.queue[0] in w.queue;
    assert PhaseOk(w, w.queue[0].h);
    JobsNone(w.queue, w.queue[0].h);
  }

  lemma EndKeepsHolder(w: World, x: Ptr)
    requires CountsOk(w) && PhasesOk(w) && Enabled(w, End) && Safe(w, End)
    requires x in w.handles && Deliveries(w.log, w.handles[x].op) == 0
    ensures Holds(EndJob(w), x, w.handles[x].op)
  {
    assert PhaseOk(w, x) && CountOk(w, x);
  }

  lemma HolderStays(w: World, a: Action, x: Ptr, op: OpId)
    requires CountsOk(w) && PhasesOk(w) && Enabled(w, a) && Safe(w, a)
    requires Holds(w, x, op) && Deliveries(w.log, op) == 0
    ensures Holds(Apply(w, a), x, op)
  {
    if a.End? { EndKeepsHolder(w, x); }
  }

  lemma ToldKeeps(w: World, a: Action)
    requires Inv(w) && Enabled(w, a) && Safe(w, a)
    ensures ToldOk(Apply(w, a))
  {
    var w' := Apply(w, a);
    if a.Begin? && DeliveredBy(w, a).Some? { DeliveredIsOwn(w); }
    forall op: OpId
      ensures Deliveries(w'.log, op) <= (if op < w'.nextOp then 1 else 0)
      ensures op < w'.nextOp && Deliveries(w'.log, op) == 0 ==> exists x :: Holds(w', x, op)
    {
      DeliveriesMove(w, a, op);
      if op < w.nextOp && Deliveries(w'.log, op) == 0 {
        var x :| Holds(w, x, op);
        HolderStays(w, a, x, op);
      } else if a.Start? && op == w.nextOp {
        assert Holds(w', a.h, op);
      }
    }
  }

  /** The fields that identify a handle. */
  ghost predicate SameIdentity(r: HandleRec, r': HandleRec) {
    r'.id == r.id && r'.gen == r.gen && r'.op == r.op && r'.slot == r.slot && r'.impl == r.impl
  }

  lemma BeginKeepsFields(w: World, x: Ptr)
    requires Enabled(w, Begin) && Safe(w, Begin) && x in BeginJob(w).handles
    ensures x in w.handles && SameIdentity(w.handles[x], BeginJob(w).handles[x])
  {}

  lemma EndKeepsFields(w: World, x: Ptr)
    requires Enabled(w, End) && Safe(w, End) && x in EndJob(w).handles
    ensures x in w.handles && SameIdentity(w.handles[x], EndJob(w).handles[x])
  {}

  /** A handle's identity never changes. */
  lemma FieldsStay(w: World, a: Action, x: Ptr)
    requires Enabled(w, a) && Safe(w, a) && x in Apply(w, a).handles && !(a.Start? && x == a.h)
    ensures x in w.handles && SameIdentity(w.handles[x], Apply(w, a).handles[x])
  {
    match a
    case Begin => BeginKeepsFields(w, x);
    case End => EndKeepsFields(w, x);
    case _ =>
  }

  lemma DeliveredWasWaiting(w: World)
    requires Inv(w) && Enabled(w, Begin) && Safe(w, Begin) && DeliveredBy(w, Begin).Some?
    ensures Waiting(w, w.queue[0].h)
  {
    var h := w.queue[0].h;
    assert w.queue[0] in w.queue;
    assert PhaseOk(w, h);
    JobsNone(w.queue, h);
  }

  /** Only being told ends the waiting. */
  lemma WaitingMoves(w: World, a: Action, x: Ptr)
    requires Inv(w) && Enabled(w, a) && Safe(w, a) && x in w.handles
    ensures Waiting(Apply(w, a), x) <==>
            Waiting(w, x) && !(DeliveredBy(w, a).Some? && w.queue[0].h == x)
  {
    DebtsMove(w, a, x);
    assert PhaseOk(w, x) && CountOk(w, x);
    match a
    case Begin => BeginMovesWaiting(w, x);
    case End => EndMovesWaiting(w, x);
    case _ =>
  }

  lemma BeginMovesWaiting(w: World, x: Ptr)
    requires CountsOk(w) && PhasesOk(w) && Enabled(w, Begin) && Safe(w, Begin) && x in w.handles
    ensures Waiting(BeginJob(w), x) <==>
            Waiting(w, x) && !(DeliveredBy(w, Begin).Some? && w.queue[0].h == x)
  {
    DebtsMove(w, Begin, x);
    assert PhaseOk(w, x) && CountOk(w, x);
  }

  lemma EndMovesWaiting(w: World, x: Ptr)
    requires CountsOk(w) && PhasesOk(w) && Enabled(w, End) && Safe(w, End) && x in w.handles
    ensures Waiting(EndJob(w), x) <==> Waiting(w, x)
  {
    assert PhaseOk(w, x) && CountOk(w, x);
  }

  lemma StepKeeps(w: World, a: Action)
    requires Inv(w) && Enabled(w, a)
    ensures Safe(w, a) && Inv(Apply(w, a))
  {
    InvSafe(w, a);
    RefsKeep(w, a);
    ListsKeep(w, a);
    SlotsKeep(w, a);
    CountsKeep(w, a);
    PhasesKeep(w, a);
    QueueKeeps(w, a);
    LogKeeps(w, a);
    OpIdsKeep(w, a);
    ToldKeeps(w, a);
  }

  lemma {:induction false} RunKeeps(w: World, run: seq<Action>)
    requires Inv(w)
    ensures !Exec(w, run).Crashed?
    ensures Exec(w, run).At? ==> Inv(Exec(w, run).w)
  {
    if run != [] {
      var r := Exec(w, run[..|run| - 1]);
      RunKeeps(w, run[..|run| - 1]);
      if r.At? && Enabled(r.w, run[|run| - 1]) {
        StepKeeps(r.w, run[|run| - 1]);
      }
    }
  }

  /** No run whatsoever, with slots shared or reused at will, fails one of the
      closure's assertions, touches a deleted handle or wraps a counter. */
  lemma NoRunCrashes(run: seq<Action>)
    ensures !Exec(INIT, run).Crashed?
    ensures Exec(INIT, run).At? ==> Inv(Exec(INIT, run).w)
  {
    RunKeeps(INIT, run);
  }
}
