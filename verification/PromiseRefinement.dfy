/** Every run of the operation protocol, seen from one operation, is a run of
    the one-shot promise of module Promise. */
module PromiseRefinement {
  import opened Wrappers
  import opened Promise
  import opened Operations
  import opened OperationInvariant

  /** What the last callback run for `op` was told. */
  function Told(log: seq<Delivery>, op: OpId): Outcome
    requires Deliveries(log, op) > 0
  {
    if log[|log| - 1].op == op then log[|log| - 1].outcome else Told(log[..|log| - 1], op)
  }

  ghost predicate AbortQueued(w: World, op: OpId) {
    exists j :: j in w.queue && j.AbortJob? && j.callback == op
  }

  /** The promise a world stands for: settled by the callback log, aborting
      while a cancellation's job is queued. */
  ghost function PromiseOf(w: World, op: OpId): State
  {
    if Deliveries(w.log, op) > 0 then Settled(Told(w.log, op))
    else if AbortQueued(w, op) then Aborting
    else Pending
  }

  /** What an action is to the operation `op`. */
  ghost function EventOf(w: World, a: Action, op: OpId): Option<Event>
    requires Enabled(w, a) && Safe(w, a)
  {
    match a
    case Invoke(s) =>
      if w.slots[s].CancelOf? && w.handles[w.slots[s].h].op == op then Some(Cancelled) else None
    case Begin =>
      var j := w.queue[0];
      if j.AbortJob? then if j.callback == op then Some(AbortRan) else None
      else if w.handles[j.h].op == op then Some(GoRan(Outcome(Ipfs(j.err), j.data)))
      else None
    case _ => None
  }

  /** An operation's events over a run that leads somewhere. */
  ghost function History(run: seq<Action>, op: OpId): seq<Event>
    requires Exec(INIT, run).At?
  {
    if run == [] then []
    else
      var prefix, a := run[..|run| - 1], run[|run| - 1];
      var e := EventOf(Exec(INIT, prefix).w, a, op);
      History(prefix, op) + (if e.Some? then [e.value] else [])
  }

  lemma ToldAppend(log: seq<Delivery>, d: Delivery, op: OpId)
    requires Deliveries(log, op) > 0 || d.op == op
    ensures Deliveries(log + [d], op) > 0
    ensures Told(log + [d], op) == if d.op == op then d.outcome else Told(log, op)
  {
    assert (log + [d])[..|log|] == log;
  }

  /** Where an operation's abort job is, and hence that it was not told yet. */
  lemma AbortQueuedWhere(w: World, op: OpId)
    requires Inv(w) && AbortQueued(w, op)
    ensures Deliveries(w.log, op) == 0
    ensures exists h :: Holds(w, h, op) && w.handles[h].cb.None? && AbortJobs(w.queue, h) == 1
  {
    var j :| j in w.queue && j.AbortJob? && j.callback == op;
    JobsNone(w.queue, j.h);
    assert PhaseOk(w, j.h) && CountOk(w, j.h);
    assert Holds(w, j.h, op);
  }

  /** Cancelling is only ever done to a pending operation, and makes it abort. */
  lemma CancelRefines(w: World, s: SlotRef, op: OpId)
    requires Inv(w) && Enabled(w, Invoke(s)) && Safe(w, Invoke(s))
    ensures var p, e := PromiseOf(w, op), EventOf(w, Invoke(s), op);
      if e.Some? then Admits(p, e.value) && PromiseOf(InvokeSlot(w, s), op) == Advance(p, e.value)
      else PromiseOf(InvokeSlot(w, s), op) == p
  {
    if w.slots[s].CancelOf? {
      var h := w.slots[s].h;
      var w' := InvokeSlot(w, s);
      assert PhaseOk(w, h);
      var j := AbortJob(h, w.handles[h].op);
      assert w'.queue == w.queue + [j] && j in w'.queue;
      assert forall k :: k in w'.queue <==> k in w.queue || k == j;
      if w.handles[h].op == op && AbortQueued(w, op) {
        AbortQueuedWhere(w, op);
        JobsNone(w.queue, h);
        assert false;
      }
    }
  }

  /** Who waits for an abort before and after a job begins. */
  lemma BeginMovesAborts(w: World, op: OpId)
    requires Inv(w) && Enabled(w, Begin) && Safe(w, Begin)
    ensures AbortQueued(w, op) <==>
              AbortQueued(BeginJob(w), op) || (w.queue[0].AbortJob? && w.queue[0].callback == op)
    ensures AbortQueued(w, op) ==> Deliveries(w.log, op) == 0
  {
    assert forall k :: k in w.queue <==> k == w.queue[0] || k in w.queue[1..];
    if AbortQueued(w, op) { AbortQueuedWhere(w, op); }
  }

  lemma BeginMovesTold(w: World, op: OpId)
    requires Inv(w) && Enabled(w, Begin) && Safe(w, Begin)
    ensures var log := BeginJob(w).log;
      if DeliveredBy(w, Begin) == Some(op)
      then Deliveries(w.log, op) == 0 && Deliveries(log, op) == 1 && Told(log, op) == log[|log| - 1].outcome
      else Deliveries(log, op) == Deliveries(w.log, op) && (Deliveries(log, op) > 0 ==> Told(log, op) == Told(w.log, op))
  {
    if DeliveredBy(w, Begin).Some? {
      DeliveredIsOwn(w);
      var d := BeginJob(w).log[|w.log|];
      assert BeginJob(w).log == w.log + [d];
      DeliveriesMove(w, Begin, op);
      if Deliveries(BeginJob(w).log, op) > 0 { ToldAppend(w.log, d, op); }
    }
  }

  /** The job about to run finds its operation pending or aborting: Go's job
      finds a callback iff no cancel came before. */
  lemma JobFindsItsPromise(w: World)
    requires Inv(w) && Enabled(w, Begin) && Safe(w, Begin)
    ensures var j := w.queue[0]; var op := w.handles[j.h].op;
      && (j.AbortJob? ==> j.callback == op && !AbortQueued(BeginJob(w), op))
      && (j.GoJob? && w.handles[j.h].cb.Some? ==>
            w.handles[j.h].cb.value == op && !AbortQueued(w, op) && Deliveries(w.log, op) == 0)
      && (j.GoJob? && w.handles[j.h].cb.None? ==> AbortQueued(w, op) || Deliveries(w.log, op) > 0)
  {
    var j := w.queue[0];
    assert j in w.queue && PhaseOk(w, j.h) && CountOk(w, j.h);
    JobsNone(w.queue, j.h);
    JobsNone(w.queue[1..], j.h);
    if AbortQueued(BeginJob(w), w.handles[j.h].op) {
      var k :| k in w.queue[1..] && k.AbortJob? && k.callback == w.handles[j.h].op;
      assert k in w.queue && k.h == j.h;
    }
    if AbortQueued(w, w.handles[j.h].op) { AbortQueuedWhere(w, w.handles[j.h].op); }
  }

  /** Running a job settles the operation it was posted for, unless a cancel
      came first: then Go's job tells nobody. */
  lemma BeginRefines(w: World, op: OpId)
    requires Inv(w) && Enabled(w, Begin) && Safe(w, Begin)
    ensures var p, e := PromiseOf(w, op), EventOf(w, Begin, op);
      if e.Some? then Admits(p, e.value) && PromiseOf(BeginJob(w), op) == Advance(p, e.value)
      else PromiseOf(BeginJob(w), op) == p
  {
    BeginMovesAborts(w, op);
    BeginMovesTold(w, op);
    JobFindsItsPromise(w);
  }

  lemma GoCallRefines(w: World, h: Ptr, err: int, data: seq<byte>, op: OpId)
    requires h in w.handles
    ensures PromiseOf(GoReports(w, h, err, data), op) == PromiseOf(w, op)
  {
    assert forall j :: j in GoReports(w, h, err, data).queue <==> j in w.queue || j == GoJob(h, err, data);
  }

  lemma OtherRefines(w: World, a: Action, op: OpId)
    requires Enabled(w, a) && Safe(w, a) && !a.Invoke? && !a.Begin? && !a.GoCall?
    ensures PromiseOf(Apply(w, a), op) == PromiseOf(w, op)
  {
    assert Apply(w, a).queue == w.queue && Apply(w, a).log == w.log;
  }

  lemma StepRefines(w: World, a: Action, op: OpId)
    requires Inv(w) && Enabled(w, a) && Safe(w, a)
    ensures var p, e := PromiseOf(w, op), EventOf(w, a, op);
      if e.Some? then Admits(p, e.value) && PromiseOf(Apply(w, a), op) == Advance(p, e.value)
      else PromiseOf(Apply(w, a), op) == p
  {
    match a
    case Invoke(s) => CancelRefines(w, s, op);
    case Begin => BeginRefines(w, op);
    case GoCall(h, err, data) => GoCallRefines(w, h, err, data, op);
    case _ => OtherRefines(w, a, op);
  }

  lemma LastStepRefines(run: seq<Action>, op: OpId)
    requires run != [] && Exec(INIT, run).At?
    ensures var w := Exec(INIT, run[..|run| - 1]).w;
      var p, e := PromiseOf(w, op), EventOf(w, run[|run| - 1], op);
      PromiseOf(Exec(INIT, run).w, op) == if e.Some? then Advance(p, e.value) else p
    ensures var w := Exec(INIT, run[..|run| - 1]).w;
      var e := EventOf(w, run[|run| - 1], op);
      e.Some? ==> Admits(PromiseOf(w, op), e.value)
  {
    NoRunCrashes(run[..|run| - 1]);
    StepRefines(Exec(INIT, run[..|run| - 1]).w, run[|run| - 1], op);
  }

  lemma ToldOnce(run: seq<Action>, op: OpId)
    requires Exec(INIT, run).At?
    ensures var w := Exec(INIT, run).w;
      Deliveries(w.log, op) == if PromiseOf(w, op).Settled? then 1 else 0
  {
    NoRunCrashes(run);
  }

  /** Under every interleaving, an operation's state is what its own events
      say: its callback ran at most once; if Go's job ran first it was told
      exactly what Go reported, and if a cancel came first, ABORTED. */
  lemma {:induction false} EveryRunIsAPromise(run: seq<Action>, op: OpId)
    requires Exec(INIT, run).At?
    ensures var w := Exec(INIT, run).w;
      && PromiseOf(w, op) == Judge(History(run, op))
      && Deliveries(w.log, op) == (if Judge(History(run, op)).Settled? then 1 else 0)
  {
    ToldOnce(run, op);
    if run != [] {
      var prefix, a := run[..|run| - 1], run[|run| - 1];
      EveryRunIsAPromise(prefix, op);
      LastStepRefines(run, op);
      var e := EventOf(Exec(INIT, prefix).w, a, op);
      if e.Some? {
        JudgeAdvances(History(prefix, op), e.value);
      } else {
        assert History(prefix, op) + [] == History(prefix, op);
      }
    }
  }

  /** The outcome a GoRan event carries is the one Go posted for that operation. */
  lemma GoRanIsPosted(w: World, op: OpId)
    requires Inv(w) && Enabled(w, Begin) && Safe(w, Begin)
    requires EventOf(w, Begin, op).Some? && EventOf(w, Begin, op).value.GoRan?
    ensures op in w.posted && EventOf(w, Begin, op).value.o == w.posted[op]
  {
    assert w.queue[0] in w.queue;
  }

  /** While a callback runs its handle is in no list, so it may delete the
      node_impl that the handle was made for, as a build's callback does. */
  lemma CallbackRunsUnlinked(w: World, i: nat)
    requires ListsOk(w) && Enabled(w, Begin) && Safe(w, Begin) && DeliveredBy(w, Begin).Some?
    requires i in w.lists && (forall h :: h in w.lists[i] ==> h == w.queue[0].h)
    ensures Enabled(BeginJob(w), ImplDelete(i))
  {
    var left := BeginJob(w).lists[i];
    EmptyIfNoElement(left);
  }

  /** The handles made for a node_impl, and the starts that made any. */
  ghost function HandlesOf(w: World, i: nat): set<Ptr> {
    set h | h in w.handles && w.handles[h].impl == i
  }

  function StartsOn(run: seq<Action>, i: nat): nat
  {
    if run == [] then 0
    else StartsOn(run[..|run| - 1], i) + (var a := run[|run| - 1]; if a.Start? && a.impl == i then 1 else 0)
  }

  lemma StepAddsHandles(w: World, a: Action, i: nat)
    requires Enabled(w, a) && Safe(w, a)
    ensures HandlesOf(Apply(w, a), i) <= HandlesOf(w, i) + (if a.Start? && a.impl == i then {a.h} else {})
  {
    forall h | h in HandlesOf(Apply(w, a), i) && !(a.Start? && h == a.h) ensures h in HandlesOf(w, i) {
      FieldsStay(w, a, h);
    }
  }

  lemma {:induction false} HandlesWereStarted(run: seq<Action>, i: nat)
    requires Exec(INIT, run).At?
    ensures |HandlesOf(Exec(INIT, run).w, i)| <= StartsOn(run, i)
  {
    if run == [] {
      assert HandlesOf(INIT, i) == {};
    } else {
      var prefix, a := run[..|run| - 1], run[|run| - 1];
      var w := Exec(INIT, prefix).w;
      HandlesWereStarted(prefix, i);
      StepAddsHandles(w, a, i);
      var more := if a.Start? && a.impl == i then {a.h} else {};
      SmallerSet(HandlesOf(Apply(w, a), i), HandlesOf(w, i) + more);
    }
  }

  lemma OnlyHandleInList(w: World, i: nat, h: Ptr)
    requires ListsOk(w) && i in w.lists && h in HandlesOf(w, i) && |HandlesOf(w, i)| <= 1
    ensures forall x :: x in w.lists[i] ==> x == h
  {
    forall x | x in w.lists[i] ensures x == h {
      assert x in HandlesOf(w, i);
      SmallerSet({x, h}, HandlesOf(w, i));
    }
  }

  /** In every run: if one operation at most was started on a node_impl, as
      `build_` does, its callback may delete that node_impl. */
  lemma BuildCallbackMayDelete(run: seq<Action>, i: nat)
    requires Exec(INIT, run).At? && StartsOn(run, i) <= 1
    requires var w := Exec(INIT, run).w;
      Enabled(w, Begin) && Safe(w, Begin) && DeliveredBy(w, Begin).Some?
      && i in w.lists && w.handles[w.queue[0].h].impl == i
    ensures Enabled(BeginJob(Exec(INIT, run).w), ImplDelete(i))
  {
    var w := Exec(INIT, run).w;
    var h := w.queue[0].h;
    NoRunCrashes(run);
    HandlesWereStarted(run, i);
    OnlyHandleInList(w, i, h);
    CallbackRunsUnlinked(w, i);
  }

  /** A handle is deleted by the on_exit that drops the last of its jobs, and
      by nothing else. */
  lemma DeletedWhenLastJobEnds(w: World, a: Action, h: Ptr)
    requires Inv(w) && Enabled(w, a) && Safe(w, a) && h in w.handles
    ensures h !in Apply(w, a).handles <==>
            a.End? && w.running.value.h == h && GoDebt(w, h) + AbortDebt(w, h) == 1
  {
    assert CountOk(w, h);
    if !a.End? { OnlyEndDeletes(w, a, h); }
  }

  lemma OnlyEndDeletes(w: World, a: Action, h: Ptr)
    requires Enabled(w, a) && Safe(w, a) && h in w.handles && !a.End?
    ensures h in Apply(w, a).handles
  {}

}
