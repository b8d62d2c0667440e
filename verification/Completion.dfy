/** Once no new operation is started, every interleaving comes to rest after a
    bounded number of steps, with every callback run exactly once, every handle
    deleted and no work left that keeps the io_service running. */
module Completion {
  import opened Promise
  import opened Operations
  import opened OperationInvariant

  ghost function Linked(w: World): set<Ptr> {
    set h | h in w.handles && w.handles[h].linked
  }

  /** An upper bound on the steps that can still be taken. */
  ghost function Work(w: World): nat {
    3 * |w.owed| + 3 * |Linked(w)| + 2 * |w.queue| + (if w.running.Some? then 1 else 0)
  }

  /** A step that starts nothing new: Go reports, a job begins or ends, or an
      installed cancel closure is invoked. */
  ghost predicate Finishing(w: World, a: Action) {
    Enabled(w, a) && (a.GoCall? || a.Begin? || a.End? || (a.Invoke? && w.slots[a.s].CancelOf?))
  }

  ghost predicate AtRest(w: World) {
    w.owed == {} && w.queue == [] && w.running.None?
  }

  lemma CancelLowersWork(w: World, h: Ptr)
    requires CancelSafe(w, h) && w.handles[h].linked
    ensures Work(CancelHandle(w, h)) < Work(w)
  {
    var w' := CancelHandle(w, h);
    assert Linked(w') == Linked(w) - {h};
    assert h in Linked(w);
  }

  lemma BeginLowersWork(w: World)
    requires Enabled(w, Begin) && Safe(w, Begin)
    ensures Work(BeginJob(w)) < Work(w)
  {
    SmallerSet(Linked(BeginJob(w)), Linked(w));
  }

  lemma EndLowersWork(w: World)
    requires Enabled(w, End) && Safe(w, End)
    ensures Work(EndJob(w)) < Work(w)
  {
    SmallerSet(Linked(EndJob(w)), Linked(w));
  }

  lemma GoCallLowersWork(w: World, h: Ptr, err: int, data: seq<byte>)
    requires h in w.owed && h in w.handles
    ensures Work(GoReports(w, h, err, data)) < Work(w)
  {
    assert Linked(GoReports(w, h, err, data)) == Linked(w);
    assert GoReports(w, h, err, data).owed == w.owed - {h};
  }

  lemma StepLowersWork(w: World, a: Action)
    requires Inv(w) && Finishing(w, a) && Safe(w, a)
    ensures Work(Apply(w, a)) < Work(w)
  {
    match a
    case GoCall(h, err, data) => GoCallLowersWork(w, h, err, data);
    case Invoke(s) => CancelLowersWork(w, w.slots[s].h);
    case Begin => BeginLowersWork(w);
    case End => EndLowersWork(w);
    case _ => assert false;
  }

  /** A run all of whose steps are Finishing. */
  ghost predicate FinishingRun(w: World, run: seq<Action>)
    decreases |run|
  {
    run == [] || (FinishingRun(w, run[..|run| - 1])
                  && Exec(w, run[..|run| - 1]).At?
                  && Finishing(Exec(w, run[..|run| - 1]).w, run[|run| - 1]))
  }

  /** However its steps interleave, such a run cannot crash or go on for ever. */
  lemma {:induction false} FinishingRunsAreShort(w: World, run: seq<Action>)
    requires Inv(w) && FinishingRun(w, run)
    ensures Exec(w, run).At? && Inv(Exec(w, run).w)
    ensures |run| + Work(Exec(w, run).w) <= Work(w)
  {
    if run != [] {
      var prefix, a := run[..|run| - 1], run[|run| - 1];
      FinishingRunsAreShort(w, prefix);
      StepKeeps(Exec(w, prefix).w, a);
      StepLowersWork(Exec(w, prefix).w, a);
    }
  }

  /** While a handle lives, so does its `io_service::work`, and some party can
      make a step: either Go owes a report or there is a job to run. */
  lemma WorkMeansProgress(w: World)
    requires Inv(w) && w.handles != map[]
    ensures !AtRest(w)
  {
    var h :| h in w.handles;
    assert CountOk(w, h);
    JobsNone(w.queue, h);
  }

  /** At rest every operation ever started was told exactly once, and nothing is left. */
  lemma RestMeansDone(w: World)
    requires Inv(w) && AtRest(w)
    ensures w.handles == map[]
    ensures forall op: OpId :: op < w.nextOp ==> Deliveries(w.log, op) == 1
    ensures forall i :: i in w.lists ==> w.lists[i] == []
    ensures forall s :: s in w.slots ==> s.User? && w.slots[s] == Nop
  {
    if w.handles != map[] { WorkMeansProgress(w); }
    forall op: OpId | op < w.nextOp ensures Deliveries(w.log, op) == 1 {
      assert Deliveries(w.log, op) == 0 ==> exists h :: Holds(w, h, op);
    }
    forall i | i in w.lists ensures w.lists[i] == [] {
      assert forall x :: x in w.lists[i] ==> x in w.handles;
      EmptyIfNoElement(w.lists[i]);
    }
  }

  /** The io_service runs out of work exactly when no callback is owed and no
      job for a handle is left. */
  lemma RunReturnsExactlyWhenDone(w: World)
    requires Inv(w)
    ensures |w.handles| == 0 <==> AtRest(w)
    ensures |w.handles| == 0 ==> forall op: OpId :: op < w.nextOp ==> Deliveries(w.log, op) == 1
  {
    if AtRest(w) {
      RestMeansDone(w);
    } else {
      assert w.queue == [] || w.queue[0] in w.queue;
      assert w.owed == {} || exists h :: h in w.owed;
    }
  }

  /** If Go reports what it owes and asio runs its queue, rest is reached. */
  lemma Settle(w: World) returns (run: seq<Action>)
    requires Inv(w)
    ensures FinishingRun(w, run) && Exec(w, run).At? && AtRest(Exec(w, run).w)
    decreases Work(w)
  {
    if AtRest(w) {
      run := [];
    } else {
      var a := if w.running.Some? then End
               else if w.queue != [] then Begin
               else var h :| h in w.owed; GoCall(h, 0, []);
      StepKeeps(w, a);
      StepLowersWork(w, a);
      var rest := Settle(Apply(w, a));
      run := [a] + rest;
      ExecPrepend(w, a, rest);
      FinishingPrepend(w, a, rest);
    }
  }

  lemma {:induction false} FinishingPrepend(w: World, a: Action, rest: seq<Action>)
    requires Finishing(w, a) && Safe(w, a) && FinishingRun(Apply(w, a), rest)
    ensures FinishingRun(w, [a] + rest)
    decreases |rest|
  {
    var run := [a] + rest;
    var init := run[..|run| - 1];
    if rest == [] {
      assert init == [] && Exec(w, init) == At(w);
    } else {
      var most := rest[..|rest| - 1];
      assert init == [a] + most;
      ExecPrepend(w, a, most);
      FinishingPrepend(w, a, most);
    }
  }
}
