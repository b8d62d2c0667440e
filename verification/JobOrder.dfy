/** What a user is told, traced back to the step that caused it: the asio queue
    is first in, first out, and a delivery carries the arguments of one call
    from Go, or those of an abort. */
module JobOrder {
  import opened Wrappers
  import opened Promise
  import opened Operations
  import opened OperationInvariant
  import opened PromiseRefinement

  // ----- First in, first out -----------------------------------------------

  /** The job that an action posts, from the action's own arguments. */
  ghost function JobPosted(w: World, a: Action): seq<Job>
    requires Enabled(w, a) && Safe(w, a)
  {
    match a
    case GoCall(h, err, data) => [GoJob(h, err, data)]
    case Invoke(s) =>
      if w.slots[s].CancelOf? then [AbortJob(w.slots[s].h, w.handles[w.slots[s].h].op)] else []
    case _ => []
  }

  ghost function JobTaken(w: World, a: Action): seq<Job>
    requires Enabled(w, a) && Safe(w, a)
  {
    if a.Begin? then [w.queue[0]] else []
  }

  /** All jobs posted in a run, and all jobs begun, in order. */
  ghost function Posted(run: seq<Action>): seq<Job>
    requires Exec(INIT, run).At?
  {
    if run == [] then []
    else Posted(run[..|run| - 1]) + JobPosted(Exec(INIT, run[..|run| - 1]).w, run[|run| - 1])
  }

  ghost function Taken(run: seq<Action>): seq<Job>
    requires Exec(INIT, run).At?
  {
    if run == [] then []
    else Taken(run[..|run| - 1]) + JobTaken(Exec(INIT, run[..|run| - 1]).w, run[|run| - 1])
  }

  lemma CancelMovesQueue(w: World, s: SlotRef)
    requires PhasesOk(w) && Enabled(w, Invoke(s)) && Safe(w, Invoke(s))
    ensures InvokeSlot(w, s).queue == w.queue + JobPosted(w, Invoke(s))
  {
    if w.slots[s].CancelOf? {
      assert PhaseOk(w, w.slots[s].h);
    } else {
      assert w.queue + [] == w.queue;
    }
  }

  lemma StepMovesQueue(w: World, a: Action)
    requires PhasesOk(w) && Enabled(w, a) && Safe(w, a)
    ensures w.queue + JobPosted(w, a) == JobTaken(w, a) + Apply(w, a).queue
  {
    match a
    case Invoke(s) => CancelMovesQueue(w, s);
    case Begin => assert w.queue == [w.queue[0]] + w.queue[1..];
    case _ => assert Apply(w, a).queue == w.queue + JobPosted(w, a);
  }

  lemma Reassociate(posted: seq<Job>, taken: seq<Job>, q: seq<Job>, p: seq<Job>, t: seq<Job>, q': seq<Job>)
    requires posted == taken + q && q + p == t + q'
    ensures posted + p == taken + t + q'
  {
    assert taken + q + p == taken + (q + p);
    assert taken + t + q' == taken + (t + q');
  }

  /** In every run the jobs begun so far, followed by those in the queue, are
      the jobs posted so far: none is lost, made up, changed or overtaken. */
  lemma {:induction false} JobsRunInOrder(run: seq<Action>)
    requires Exec(INIT, run).At?
    ensures Posted(run) == Taken(run) + Exec(INIT, run).w.queue
  {
    if run != [] {
      var prefix, a := run[..|run| - 1], run[|run| - 1];
      var w := Exec(INIT, prefix).w;
      JobsRunInOrder(prefix);
      NoRunCrashes(prefix);
      StepMovesQueue(w, a);
      Reassociate(Posted(prefix), Taken(prefix), w.queue, JobPosted(w, a), JobTaken(w, a), Apply(w, a).queue);
    }
  }

  // ----- A handle is what its start asked for ------------------------------

  /** The starts of a run, in order: an operation is named by its place here. */
  function Starts(run: seq<Action>): seq<Action>
  {
    if run == [] then []
    else Starts(run[..|run| - 1]) + (if run[|run| - 1].Start? then [run[|run| - 1]] else [])
  }

  /** `h` is the address, list, slot and kind of the start that made it. */
  ghost predicate IsItsStart(w: World, starts: seq<Action>, h: Ptr)
    requires h in w.handles
  {
    var r := w.handles[h];
    r.op < |starts| && starts[r.op] == Start(h, r.impl, r.slot, r.id.Some?)
  }

  lemma StepKeepsStart(w: World, a: Action, starts: seq<Action>, h: Ptr)
    requires Enabled(w, a) && Safe(w, a) && h in Apply(w, a).handles && |starts| == w.nextOp
    requires h in w.handles ==> IsItsStart(w, starts, h)
    ensures IsItsStart(Apply(w, a), starts + (if a.Start? then [a] else []), h)
  {
    if !(a.Start? && h == a.h) { FieldsStay(w, a, h); }
  }

  /** In every run every live handle has the address, the node_impl and the slot
      of the start that its operation is counted by, and an id iff that asked
      for one. */
  lemma {:induction false} HandlesAreTheirStarts(run: seq<Action>, h: Ptr)
    requires Exec(INIT, run).At?
    ensures |Starts(run)| == Exec(INIT, run).w.nextOp
    ensures h in Exec(INIT, run).w.handles ==> IsItsStart(Exec(INIT, run).w, Starts(run), h)
  {
    if run != [] {
      var prefix, a := run[..|run| - 1], run[|run| - 1];
      var w := Exec(INIT, prefix).w;
      HandlesAreTheirStarts(prefix, h);
      if h in Apply(w, a).handles { StepKeepsStart(w, a, Starts(prefix), h); }
      NextOpCounts(w, a);
    }
  }

  lemma NextOpCounts(w: World, a: Action)
    requires Enabled(w, a) && Safe(w, a)
    ensures Apply(w, a).nextOp == w.nextOp + (if a.Start? then 1 else 0)
  {}

  // ----- Lists are in the order of the starts ------------------------------

  ghost predicate InOrder(w: World, q: seq<Ptr>) {
    && (forall h :: h in q ==> h in w.handles)
    && (forall k, m :: 0 <= k < m < |q| ==> w.handles[q[k]].op < w.handles[q[m]].op)
  }

  lemma FirstInOrder(w: World, h: Ptr, q: seq<Ptr>)
    requires h in w.handles && InOrder(w, q) && forall x :: x in q ==> w.handles[h].op < w.handles[x].op
    ensures InOrder(w, [h] + q)
  {}

  lemma RestInOrder(w: World, q: seq<Ptr>)
    requires q != [] && InOrder(w, q)
    ensures InOrder(w, q[1..])
    ensures forall x :: x in q[1..] ==> w.handles[q[0]].op < w.handles[x].op
  {}

  lemma {:induction false} RemoveKeepsOrder(w: World, q: seq<Ptr>, h: Ptr)
    requires InOrder(w, q)
    ensures InOrder(w, Remove(q, h))
  {
    if q != [] {
      RestInOrder(w, q);
      RemoveKeepsOrder(w, q[1..], h);
      if q[0] != h { FirstInOrder(w, q[0], Remove(q[1..], h)); }
    }
  }

  /** The handle that a step takes out of its list, if it is in one. */
  ghost function TakenOut(w: World, a: Action): Ptr
    requires Enabled(w, a) && Safe(w, a)
  {
    match a
    case Invoke(s) => if w.slots[s].CancelOf? then w.slots[s].h else 0
    case Begin => w.queue[0].h
    case End => w.running.value.h
    case _ => 0
  }

  /** A list after a step: as it was, with one more at its end, or with one less. */
  lemma StepMovesList(w: World, a: Action, i: nat)
    requires Enabled(w, a) && Safe(w, a) && i in Apply(w, a).lists
    ensures var q' := Apply(w, a).lists[i];
      || (a.ImplNew? && q' == [])
      || (i in w.lists && q' == w.lists[i])
      || (i in w.lists && a.Start? && q' == w.lists[i] + [a.h])
      || (i in w.lists && !a.Start? && q' == Remove(w.lists[i], TakenOut(w, a)))
  {}

  lemma SameOpsSameOrder(w: World, w': World, q: seq<Ptr>)
    requires InOrder(w, q)
    requires forall h :: h in q ==> h in w'.handles && w'.handles[h].op == w.handles[h].op
    ensures InOrder(w', q)
  {}

  lemma StartKeepsOrder(w: World, a: Action, i: nat)
    requires ListsOk(w) && OpIdsOk(w) && a.Start? && Enabled(w, a) && i in w.lists && InOrder(w, w.lists[i])
    ensures InOrder(Apply(w, a), w.lists[i]) && InOrder(Apply(w, a), w.lists[i] + [a.h])
  {
    var q := w.lists[i];
    assert forall x :: x in q ==> x != a.h;
    SameOpsSameOrder(w, Apply(w, a), q);
    assert forall x :: x in q ==> w.handles[x].op < w.nextOp;
    assert Apply(w, a).handles[a.h].op == w.nextOp;
  }

  lemma OthersKeepOrder(w: World, a: Action, q: seq<Ptr>)
    requires Enabled(w, a) && Safe(w, a) && !a.Start? && InOrder(w, q)
    requires forall h :: h in q ==> h in Apply(w, a).handles
    ensures InOrder(Apply(w, a), q)
  {
    forall x | x in q ensures Apply(w, a).handles[x].op == w.handles[x].op {
      OpsStay(w, a, x);
    }
    SameOpsSameOrder(w, Apply(w, a), q);
  }

  lemma StepKeepsOrder(w: World, a: Action, i: nat)
    requires ListsOk(w) && OpIdsOk(w) && Enabled(w, a) && Safe(w, a)
    requires i in Apply(w, a).lists && (forall h :: h in Apply(w, a).lists[i] ==> h in Apply(w, a).handles)
    requires i in w.lists ==> InOrder(w, w.lists[i])
    ensures InOrder(Apply(w, a), Apply(w, a).lists[i])
  {
    var q' := Apply(w, a).lists[i];
    StepMovesList(w, a, i);
    if q' != [] {
      if a.Start? {
        StartKeepsOrder(w, a, i);
      } else {
        RemoveKeepsOrder(w, w.lists[i], TakenOut(w, a));
        OthersKeepOrder(w, a, q');
      }
    }
  }

  lemma ListsAreOk(run: seq<Action>)
    requires Exec(INIT, run).At?
    ensures ListsOk(Exec(INIT, run).w) && OpIdsOk(Exec(INIT, run).w)
  {
    NoRunCrashes(run);
  }

  /** In every run every list names its handles in the order in which their
      operations were started, so that is the order in which free cancels them. */
  lemma {:induction false} ListsAreInOrder(run: seq<Action>, i: nat)
    requires Exec(INIT, run).At? && i in Exec(INIT, run).w.lists
    ensures InOrder(Exec(INIT, run).w, Exec(INIT, run).w.lists[i])
  {
    if run != [] {
      var prefix, a := run[..|run| - 1], run[|run| - 1];
      var w := Exec(INIT, prefix).w;
      ListsAreOk(prefix);
      ListsAreOk(run);
      if i in w.lists { ListsAreInOrder(prefix, i); }
      StepKeepsOrder(w, a, i);
    }
  }

  // ----- Whose call it was -------------------------------------------------

  /** The action number `k` of the run is Go's call for `op`, with these arguments. */
  ghost predicate ReportedAt(run: seq<Action>, op: OpId, o: Outcome, k: nat) {
    && k < |run| && run[k].GoCall? && Exec(INIT, run[..k]).At?
    && Holds(Exec(INIT, run[..k]).w, run[k].h, op)
    && o == Outcome(Ipfs(run[k].err), run[k].data)
  }

  ghost predicate Reported(run: seq<Action>, op: OpId, o: Outcome) {
    exists k: nat :: ReportedAt(run, op, o, k)
  }

  lemma ReportedStays(run: seq<Action>, op: OpId, o: Outcome)
    requires run != [] && Reported(run[..|run| - 1], op, o)
    ensures Reported(run, op, o)
  {
    var prefix := run[..|run| - 1];
    var k: nat :| ReportedAt(prefix, op, o, k);
    assert prefix[..k] == run[..k];
    assert ReportedAt(run, op, o, k);
  }

  lemma NewGoJob(w: World, a: Action, j: Job)
    requires Enabled(w, a) && Safe(w, a) && j.GoJob? && j in Apply(w, a).queue && j !in w.queue
    ensures a.GoCall? && j == GoJob(a.h, a.err, a.data)
  {}

  lemma {:induction false} QueuedWasReported(run: seq<Action>, j: Job)
    requires Exec(INIT, run).At? && j in Exec(INIT, run).w.queue && j.GoJob?
    ensures var w := Exec(INIT, run).w;
      j.h in w.handles && Reported(run, w.handles[j.h].op, Outcome(Ipfs(j.err), j.data))
  {
    NoRunCrashes(run);
    var prefix, a := run[..|run| - 1], run[|run| - 1];
    var w := Exec(INIT, prefix).w;
    if j in w.queue {
      QueuedWasReported(prefix, j);
      FieldsStay(w, a, j.h);
      ReportedStays(run, w.handles[j.h].op, Outcome(Ipfs(j.err), j.data));
    } else {
      NewGoJob(w, a, j);
      assert ReportedAt(run, w.handles[j.h].op, Outcome(Ipfs(j.err), j.data), |prefix|);
    }
  }

  /** In every run: a GoRan in an operation's history carries the error and the
      data of an earlier call from Go for this very operation. */
  lemma {:induction false} GoRanWasReported(run: seq<Action>, op: OpId, o: Outcome)
    requires Exec(INIT, run).At? && GoRan(o) in History(run, op)
    ensures Reported(run, op, o)
  {
    var prefix, a := run[..|run| - 1], run[|run| - 1];
    var w := Exec(INIT, prefix).w;
    if GoRan(o) in History(prefix, op) {
      GoRanWasReported(prefix, op, o);
    } else {
      assert EventOf(w, a, op) == Some(GoRan(o));
      QueuedWasReported(prefix, w.queue[0]);
    }
    ReportedStays(run, op, o);
  }

  // ----- What the user is told ---------------------------------------------

  /** No abort runs for an operation to which nothing happened before. */
  lemma {:induction false} HistoriesBegin(run: seq<Action>, op: OpId)
    requires Exec(INIT, run).At? && History(run, op) != []
    ensures History(run, op)[0] != AbortRan
  {
    var prefix := run[..|run| - 1];
    if History(prefix, op) != [] {
      HistoriesBegin(prefix, op);
    } else {
      EveryRunIsAPromise(prefix, op);
      LastStepRefines(run, op);
    }
  }

  ghost predicate ToldAsHappened(run: seq<Action>, op: OpId, told: Outcome)
    requires Exec(INIT, run).At?
  {
    var evs := History(run, op);
    && evs != [] && (evs[0].GoRan? || evs[0].Cancelled?)
    && (evs[0].GoRan? ==> told.ec.Ipfs? && Reported(run, op, told))
    && (evs[0].Cancelled? ==> told.ec.OperationAborted? && told.data == [])
  }

  /** In every run: an operation that was told anything had its job from Go run
      before any cancel, and then was told the error and the data of a call from
      Go made for it; or it was cancelled first, and then was told
      operation_aborted, with no data. */
  lemma UsersAreToldWhatHappened(run: seq<Action>, op: OpId)
    requires Exec(INIT, run).At? && Deliveries(Exec(INIT, run).w.log, op) > 0
    ensures ToldAsHappened(run, op, Told(Exec(INIT, run).w.log, op))
  {
    var evs := History(run, op);
    EveryRunIsAPromise(run, op);
    HistoriesBegin(run, op);
    if evs[0].GoRan? {
      GoRanWasReported(run, op, evs[0].o);
    }
  }
}
