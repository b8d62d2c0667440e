/** The loop in `node::free`: when it ends, what it leaves behind, and which
    use of cancel slots makes it end. */
module Drain {
  import opened Wrappers
  import opened Operations
  import opened OperationInvariant

  /** One iteration over the list `i`: invoke what the slot of the front handle holds. */
  ghost predicate CanIterate(w: World, i: nat) {
    && i in w.lists && w.lists[i] != [] && w.lists[i][0] in w.handles
    && Enabled(w, Invoke(w.handles[w.lists[i][0]].slot))
    && Safe(w, Invoke(w.handles[w.lists[i][0]].slot))
  }

  ghost function Iterate(w: World, i: nat): World
    requires CanIterate(w, i)
  {
    InvokeSlot(w, w.handles[w.lists[i][0]].slot)
  }

  /** `n` iterations, or fewer when the list is empty before. */
  ghost function DrainN(w: World, i: nat, n: nat): Reached
    decreases n
  {
    if n == 0 || (i in w.lists && w.lists[i] == []) then At(w)
    else if !CanIterate(w, i) then Crashed
    else DrainN(Iterate(w, i), i, n - 1)
  }

  ghost predicate EmptiedAfter(w: World, i: nat, n: nat) {
    var r := DrainN(w, i, n);
    r.At? && i in r.w.lists && r.w.lists[i] == []
  }

  /** The loop ends. */
  ghost predicate FreeEnds(w: World, i: nat) {
    exists n: nat :: EmptiedAfter(w, i, n)
  }

  lemma IterateKeeps(w: World, i: nat)
    requires Inv(w) && i in w.lists && w.lists[i] != []
    ensures CanIterate(w, i) && Inv(Iterate(w, i)) && i in Iterate(w, i).lists
  {
    var h := w.lists[i][0];
    assert h in w.lists[i];
    StepKeeps(w, Invoke(w.handles[h].slot));
  }

  /** Every handle of the list is cancelled by its own slot. */
  ghost predicate OwnClosures(w: World, i: nat) {
    i in w.lists && forall h :: h in w.lists[i] ==> InOwnSlot(w, h)
  }

  ghost predicate InOwnSlot(w: World, h: Ptr) {
    h in w.handles && w.handles[h].slot in w.slots && w.slots[w.handles[h].slot] == CancelOf(h)
  }

  /** The jobs that cancelling these handles in order posts. */
  ghost function Aborts(w: World, q: seq<Ptr>): seq<Job>
    requires forall h :: h in q ==> h in w.handles
  {
    seq(|q|, k requires 0 <= k < |q| => AbortJob(q[k], w.handles[q[k]].op))
  }

  /** `w'` is `w` after the handles `q` were taken from the list `i`, leaving
      `rest`: each lost its callback to one abort job, posted in order; nothing
      was run and nobody else was touched. */
  ghost predicate Drained(w: World, w': World, i: nat, q: seq<Ptr>, rest: seq<Ptr>) {
    && w'.lists == w.lists[i := rest]
    && (forall h :: h in q ==> h in w.handles)
    && w'.queue == w.queue + Aborts(w, q)
    && w'.handles.Keys == w.handles.Keys
    && (forall h :: h in w.handles ==>
          w'.handles[h] == var r := w.handles[h];
                           if h in q then r.(linked := false, cb := None, jobCount := r.jobCount + 1) else r)
    && w'.log == w.log && w'.running == w.running && w'.owed == w.owed && w'.go == w.go
    && w'.posted == w.posted && w'.nextOp == w.nextOp && w'.gens == w.gens
  }

  lemma CancelDrainsOne(w: World, h: Ptr, i: nat)
    requires CancelSafe(w, h) && w.handles[h].cb == Some(w.handles[h].op) && w.handles[h].impl == i
    requires i in w.lists && w.lists[i] != [] && w.lists[i][0] == h && h !in w.lists[i][1..]
    ensures Drained(w, CancelHandle(w, h), i, w.lists[i][..1], w.lists[i][1..])
  {
    var q := w.lists[i];
    assert q == [h] + q[1..];
    assert Remove(q, h) == q[1..];
    assert Aborts(w, q[..1]) == [AbortJob(h, w.handles[h].op)];
  }

  /** One iteration takes the front handle out and posts its abort. */
  lemma IterateTakesFront(w: World, i: nat)
    requires Inv(w) && OwnClosures(w, i) && w.lists[i] != [] && CanIterate(w, i)
    ensures Drained(w, Iterate(w, i), i, w.lists[i][..1], w.lists[i][1..])
    ensures w.lists[i][0] !in w.lists[i][1..]
  {
    var h := w.lists[i][0];
    assert h in w.lists[i] && InOwnSlot(w, h);
    assert PhaseOk(w, h);
    CancelDrainsOne(w, h, i);
  }

  lemma IterateKeepsOwnClosures(w: World, i: nat)
    requires ListsOk(w) && OwnClosures(w, i) && w.lists[i] != [] && CanIterate(w, i)
    ensures OwnClosures(Iterate(w, i), i)
  {
    var q, h := w.lists[i], w.lists[i][0];
    assert h in q && InOwnSlot(w, h);
    var w' := Iterate(w, i);
    forall x | x in w'.lists[i] ensures InOwnSlot(w', x) {
      assert x in q && x != h && InOwnSlot(w, x);
    }
  }

  lemma DrainedCompose(w: World, w1: World, w2: World, i: nat, q: seq<Ptr>)
    requires q != [] && q[0] !in q[1..]
    requires Drained(w, w1, i, q[..1], q[1..]) && Drained(w1, w2, i, q[1..], [])
    ensures Drained(w, w2, i, q, [])
  {
    assert forall x :: x in q <==> x in q[..1] || x in q[1..];
    assert Aborts(w, q) == Aborts(w, q[..1]) + Aborts(w1, q[1..]);
  }

  /** What DrainEmptiesTheList states. */
  ghost predicate DrainsIn(w: World, i: nat, q: seq<Ptr>) {
    && (forall m: nat :: m < |q| ==> !EmptiedAfter(w, i, m))
    && EmptiedAfter(w, i, |q|)
    && Drained(w, DrainN(w, i, |q|).w, i, q, [])
  }

  lemma DrainUnrolls(w: World, i: nat, m: nat)
    requires CanIterate(w, i) && m > 0
    ensures DrainN(w, i, m) == DrainN(Iterate(w, i), i, m - 1)
    ensures EmptiedAfter(w, i, m) == EmptiedAfter(Iterate(w, i), i, m - 1)
  {}

  lemma DrainsInOneMore(w: World, i: nat, q: seq<Ptr>)
    requires CanIterate(w, i) && w.lists[i] == q && q[0] !in q[1..]
    requires Drained(w, Iterate(w, i), i, q[..1], q[1..])
    requires DrainsIn(Iterate(w, i), i, q[1..])
    ensures DrainsIn(w, i, q)
  {
    var w1 := Iterate(w, i);
    DrainUnrolls(w, i, |q|);
    DrainedCompose(w, w1, DrainN(w1, i, |q| - 1).w, i, q);
    forall m: nat | m < |q| ensures !EmptiedAfter(w, i, m) {
      if m > 0 { DrainUnrolls(w, i, m); }
    }
  }

  lemma DrainsInNone(w: World, i: nat)
    requires i in w.lists && w.lists[i] == []
    ensures DrainsIn(w, i, [])
  {
    assert w.lists[i := []] == w.lists;
    assert w.queue + Aborts(w, []) == w.queue;
  }

  /** With own closures the loop ends after exactly as many iterations as there
      are linked handles; it empties this list and no other, posts one abort
      for each of its handles, in order, and runs no callback. */
  lemma {:induction false} DrainEmptiesTheList(w: World, i: nat)
    requires Inv(w) && OwnClosures(w, i)
    ensures DrainsIn(w, i, w.lists[i])
    decreases |w.lists[i]|
  {
    if w.lists[i] == [] {
      DrainsInNone(w, i);
    } else {
      IterateKeeps(w, i);
      IterateTakesFront(w, i);
      IterateKeepsOwnClosures(w, i);
      DrainEmptiesTheList(Iterate(w, i), i);
      DrainsInOneMore(w, i, w.lists[i]);
    }
  }

  ghost predicate OnlyCancels(run: seq<Action>) {
    forall a :: a in run ==> a.Invoke?
  }

  /** The loop does nothing that a user could not do: however long it has run, it
      was a run of cancels ... */
  lemma {:induction false} DrainIsARun(w: World, i: nat, n: nat) returns (run: seq<Action>)
    requires DrainN(w, i, n).At?
    ensures OnlyCancels(run) && |run| <= n && Exec(w, run) == DrainN(w, i, n)
    decreases n
  {
    if n == 0 || (i in w.lists && w.lists[i] == []) {
      run := [];
      assert Exec(w, run) == At(w);
    } else {
      var a := Invoke(w.handles[w.lists[i][0]].slot);
      var rest := DrainIsARun(Iterate(w, i), i, n - 1);
      ExecPrepend(w, a, rest);
      run := [a] + rest;
    }
  }

  /** ... so the protocol is in order after it. */
  lemma DrainKeepsInv(w: World, i: nat, n: nat)
    requires Inv(w) && DrainN(w, i, n).At?
    ensures Inv(DrainN(w, i, n).w)
  {
    var run := DrainIsARun(w, i, n);
    RunKeeps(w, run);
  }

  /** A handle whose slot holds something else is never taken out by the loop. */
  lemma IterateKeepsStuck(w: World, i: nat, h: Ptr)
    requires Inv(w) && CanIterate(w, i) && h in w.lists[i] && !InOwnSlot(w, h)
    ensures i in Iterate(w, i).lists && h in Iterate(w, i).lists[i] && !InOwnSlot(Iterate(w, i), h)
  {}

  lemma StuckAfterOne(w: World, i: nat, h: Ptr) returns (w1: World)
    requires Inv(w) && i in w.lists && h in w.lists[i] && !InOwnSlot(w, h)
    ensures Inv(w1) && i in w1.lists && h in w1.lists[i] && !InOwnSlot(w1, h)
    ensures forall n: nat :: EmptiedAfter(w, i, n + 1) == EmptiedAfter(w1, i, n)
  {
    IterateKeeps(w, i);
    IterateKeepsStuck(w, i, h);
    w1 := Iterate(w, i);
    forall n: nat ensures EmptiedAfter(w, i, n + 1) == EmptiedAfter(w1, i, n) {
      DrainUnrolls(w, i, n + 1);
    }
  }

  lemma {:induction false} StuckStaysStuck(w: World, i: nat, h: Ptr, n: nat)
    requires Inv(w) && i in w.lists && h in w.lists[i] && !InOwnSlot(w, h)
    ensures !EmptiedAfter(w, i, n)
    decreases n
  {
    if n > 0 {
      var w1 := StuckAfterOne(w, i, h);
      StuckStaysStuck(w1, i, h, n - 1);
      assert EmptiedAfter(w, i, (n - 1) + 1) == EmptiedAfter(w1, i, n - 1);
    }
  }

  lemma StuckNeverEnds(w: World, i: nat, h: Ptr)
    requires Inv(w) && i in w.lists && h in w.lists[i] && !InOwnSlot(w, h)
    ensures !FreeEnds(w, i)
  {
    forall n: nat ensures !EmptiedAfter(w, i, n) {
      StuckStaysStuck(w, i, h, n);
    }
  }

  /** The loop ends if and only if every handle of the list is cancelled by its
      own slot. */
  lemma FreeEndsExactlyWithOwnClosures(w: World, i: nat)
    requires Inv(w) && i in w.lists
    ensures FreeEnds(w, i) <==> OwnClosures(w, i)
  {
    if OwnClosures(w, i) {
      DrainEmptiesTheList(w, i);
      assert EmptiedAfter(w, i, |w.lists[i]|);
    } else {
      var h :| h in w.lists[i] && !InOwnSlot(w, h);
      StuckNeverEnds(w, i, h);
    }
  }

  /** Cancelling twice is cancelling once. */
  lemma CancelTwice(w: World, s: SlotRef)
    requires SlotsOk(w) && Enabled(w, Invoke(s)) && Safe(w, Invoke(s))
    ensures Enabled(InvokeSlot(w, s), Invoke(s)) && Safe(InvokeSlot(w, s), Invoke(s))
    ensures InvokeSlot(InvokeSlot(w, s), s) == InvokeSlot(w, s)
  {}

  // ----- Which runs keep it so ---------------------------------------------

  /** No two waiting handles share a slot, and each linked one is in its own. */
  ghost predicate SlotsApart(w: World) {
    && (forall h, g :: Waiting(w, h) && Waiting(w, g) && h != g ==> w.handles[h].slot != w.handles[g].slot)
    && (forall h :: h in w.handles && w.handles[h].linked ==> InOwnSlot(w, h))
  }

  /** What the API asks of its caller: do not pass a Cancel that an operation
      whose callback has not been entered is still using. */
  ghost predicate FreshSlot(w: World, a: Action) {
    a.Start? ==> forall g :: Waiting(w, g) ==> w.handles[g].slot != a.slot
  }

  ghost predicate FreshRun(run: seq<Action>)
    decreases |run|
  {
    run == [] || (FreshRun(run[..|run| - 1])
                  && (Exec(INIT, run[..|run| - 1]).At? ==>
                        FreshSlot(Exec(INIT, run[..|run| - 1]).w, run[|run| - 1])))
  }

  lemma CancelKeepsOwnSlot(w: World, s: SlotRef, x: Ptr)
    requires SlotsOk(w) && SlotsApart(w) && Enabled(w, Invoke(s)) && Safe(w, Invoke(s))
    requires x in w.handles && InvokeSlot(w, s).handles[x].linked
    ensures InOwnSlot(InvokeSlot(w, s), x)
  {
    assert InOwnSlot(w, x);
  }

  lemma BeginKeepsOwnSlot(w: World, x: Ptr)
    requires Inv(w) && SlotsApart(w) && Enabled(w, Begin) && Safe(w, Begin)
    requires x in w.handles && BeginJob(w).handles[x].linked
    ensures InOwnSlot(BeginJob(w), x)
  {
    assert InOwnSlot(w, x);
    if DeliveredBy(w, Begin).Some? { DeliveredWasWaiting(w); }
  }

  lemma EndKeepsOwnSlot(w: World, x: Ptr)
    requires SlotsOk(w) && SlotsApart(w) && Enabled(w, End) && Safe(w, End)
    requires x in EndJob(w).handles && EndJob(w).handles[x].linked
    ensures InOwnSlot(EndJob(w), x)
  {
    assert InOwnSlot(w, x);
  }

  lemma StartKeepsOwnSlot(w: World, a: Action, x: Ptr)
    requires SlotsApart(w) && a.Start? && Enabled(w, a) && FreshSlot(w, a)
    requires x in Apply(w, a).handles && Apply(w, a).handles[x].linked
    ensures InOwnSlot(Apply(w, a), x)
  {
    if x != a.h { assert InOwnSlot(w, x) && Waiting(w, x); }
  }

  lemma StepKeepsOwnSlot(w: World, a: Action, x: Ptr)
    requires Inv(w) && SlotsApart(w) && Enabled(w, a) && Safe(w, a) && FreshSlot(w, a)
    requires x in Apply(w, a).handles && Apply(w, a).handles[x].linked
    ensures InOwnSlot(Apply(w, a), x)
  {
    match a
    case Start(_, _, _, _) => StartKeepsOwnSlot(w, a, x);
    case Invoke(s) => CancelKeepsOwnSlot(w, s, x);
    case Begin => BeginKeepsOwnSlot(w, x);
    case End => EndKeepsOwnSlot(w, x);
    case _ => assert InOwnSlot(w, x);
  }

  /** Whoever waits after a step waited before it, in the same slot, except the
      operation that the step started. */
  lemma WaitingStays(w: World, a: Action, x: Ptr)
    requires Inv(w) && Enabled(w, a) && Safe(w, a) && Waiting(Apply(w, a), x) && !(a.Start? && x == a.h)
    ensures Waiting(w, x) && Apply(w, a).handles[x].slot == w.handles[x].slot
  {
    FieldsStay(w, a, x);
    WaitingMoves(w, a, x);
  }

  lemma StepKeepsApart(w: World, a: Action)
    requires Inv(w) && SlotsApart(w) && Enabled(w, a) && Safe(w, a) && FreshSlot(w, a)
    ensures SlotsApart(Apply(w, a))
  {
    var w' := Apply(w, a);
    forall x, y | Waiting(w', x) && Waiting(w', y) && x != y ensures w'.handles[x].slot != w'.handles[y].slot {
      if !(a.Start? && x == a.h) { WaitingStays(w, a, x); }
      if !(a.Start? && y == a.h) { WaitingStays(w, a, y); }
    }
    forall x | x in w'.handles && w'.handles[x].linked ensures InOwnSlot(w', x) {
      StepKeepsOwnSlot(w, a, x);
    }
  }

  lemma {:induction false} FreshRunsStayApart(run: seq<Action>)
    requires FreshRun(run) && Exec(INIT, run).At?
    ensures Inv(Exec(INIT, run).w) && SlotsApart(Exec(INIT, run).w)
  {
    NoRunCrashes(run);
    if run != [] {
      var prefix, a := run[..|run| - 1], run[|run| - 1];
      FreshRunsStayApart(prefix);
      StepKeepsApart(Exec(INIT, prefix).w, a);
    }
  }

  lemma LinkedIffInOwnSlot(w: World, h: Ptr)
    requires SlotsOk(w) && PhasesOk(w) && SlotsApart(w) && h in w.handles
    ensures w.handles[h].linked <==> InOwnSlot(w, h)
    ensures w.handles[h].linked <==> w.handles[h].cb.Some? && Deliveries(w.log, w.handles[h].op) == 0
  {
    assert PhaseOk(w, h);
  }

  /** With fresh slots, at every point of every run: a handle is linked iff its
      slot holds its own cancel closure, iff its operation is neither cancelled
      nor told. */
  lemma FreshRunsAgree(run: seq<Action>, h: Ptr)
    requires FreshRun(run) && Exec(INIT, run).At? && h in Exec(INIT, run).w.handles
    ensures var w := Exec(INIT, run).w;
      && (w.handles[h].linked <==> InOwnSlot(w, h))
      && (w.handles[h].linked <==> w.handles[h].cb.Some? && Deliveries(w.log, w.handles[h].op) == 0)
  {
    FreshRunsStayApart(run);
    LinkedIffInOwnSlot(Exec(INIT, run).w, h);
  }

  lemma ApartMeansOwnClosures(w: World, i: nat)
    requires ListsOk(w) && SlotsApart(w) && i in w.lists
    ensures OwnClosures(w, i)
  {}

  /** And hence `free` would end, whichever list it drains. */
  lemma FreshRunsCanBeFreed(run: seq<Action>, i: nat)
    requires FreshRun(run) && Exec(INIT, run).At? && i in Exec(INIT, run).w.lists
    ensures FreeEnds(Exec(INIT, run).w, i)
  {
    FreshRunsStayApart(run);
    ApartMeansOwnClosures(Exec(INIT, run).w, i);
    FreeEndsExactlyWithOwnClosures(Exec(INIT, run).w, i);
  }

  /** The demand on callers cannot be dropped. Giving a linked handle's slot
      away leaves a list that `free` cannot drain. */
  lemma SharedSlotNeverDrains(w: World, a: Action, g: Ptr)
    requires Inv(w) && a.Start? && Enabled(w, a)
    requires g in w.handles && w.handles[g].linked && w.handles[g].slot == a.slot
    ensures w.handles[g].impl in Apply(w, a).lists && !FreeEnds(Apply(w, a), w.handles[g].impl)
  {
    StepKeeps(w, a);
    assert g in w.lists[w.handles[g].impl];
    StuckNeverEnds(Apply(w, a), w.handles[g].impl, g);
  }

  /** Nor may it be reused between the cancel and the abort: the abort job of
      the old handle resets the slot under the new handle `h`. */
  lemma EarlyReuseNeverDrains(w: World, h: Ptr)
    requires Inv(w) && Enabled(w, Begin) && w.queue[0].AbortJob?
    requires var g := w.queue[0].h;
      g in w.handles && h in w.handles && h != g && w.handles[h].linked && w.handles[h].slot == w.handles[g].slot
    ensures w.handles[h].impl in BeginJob(w).lists && !FreeEnds(BeginJob(w), w.handles[h].impl)
  {
    StepKeeps(w, Begin);
    AbortResetsSlot(w, h);
    StuckNeverEnds(BeginJob(w), w.handles[h].impl, h);
  }

  lemma AbortResetsSlot(w: World, h: Ptr)
    requires ListsOk(w) && Enabled(w, Begin) && Safe(w, Begin) && w.queue[0].AbortJob?
    requires var g := w.queue[0].h;
      h in w.handles && h != g && w.handles[h].linked && w.handles[h].slot == w.handles[g].slot
    ensures var w', i := BeginJob(w), w.handles[h].impl;
      i in w'.lists && h in w'.lists[i] && !InOwnSlot(w', h)
  {
    assert h in w.lists[w.handles[h].impl];
    assert BeginJob(w).slots[w.handles[h].slot] == Nop;
  }

  // ----- The demand is exact -----------------------------------------------

  ghost predicate StartsNothing(run: seq<Action>) {
    forall a :: a in run ==> !a.Start?
  }

  /** Without further starts, every list there ever is can be drained. */
  ghost predicate StaysFreeable(w: World) {
    forall run, i :: StartsNothing(run) && Exec(w, run).At? && i in Exec(w, run).w.lists ==> FreeEnds(Exec(w, run).w, i)
  }

  lemma {:induction false} ApartStaysApart(w: World, run: seq<Action>)
    requires Inv(w) && SlotsApart(w) && Exec(w, run).At? && StartsNothing(run)
    ensures Inv(Exec(w, run).w) && SlotsApart(Exec(w, run).w)
    decreases |run|
  {
    if run != [] {
      var n := |run| - 1;
      assert forall a :: a in run[..n] ==> a in run;
      ApartStaysApart(w, run[..n]);
      assert run[n] in run;
      StepKeeps(Exec(w, run[..n]).w, run[n]);
      StepKeepsApart(Exec(w, run[..n]).w, run[n]);
    }
  }

  lemma ApartStaysFreeable(w: World)
    requires Inv(w) && SlotsApart(w)
    ensures StaysFreeable(w)
  {
    forall run, i | StartsNothing(run) && Exec(w, run).At? && i in Exec(w, run).w.lists
      ensures FreeEnds(Exec(w, run).w, i)
    {
      ApartStaysApart(w, run);
      ApartMeansOwnClosures(Exec(w, run).w, i);
      FreeEndsExactlyWithOwnClosures(Exec(w, run).w, i);
    }
  }

  /** `h` is linked and Go has not reported to it, while the abort job of `g`,
      whose slot it was given, has yet to run. */
  ghost predicate Clashing(w: World, g: Ptr, h: Ptr) {
    && g in w.handles && h in w.handles && g != h
    && w.handles[h].linked && h in w.owed && w.handles[h].slot == w.handles[g].slot
    && AbortJobs(w.queue, g) > 0
  }

  ghost function JobsLeft(w: World): nat {
    2 * |w.queue| + (if w.running.Some? then 1 else 0)
  }

  lemma EndKeepsAbort(w: World, g: Ptr)
    requires CountsOk(w) && Enabled(w, End) && Safe(w, End) && g in w.handles && AbortJobs(w.queue, g) > 0
    ensures g in EndJob(w).handles && AbortJobs(EndJob(w).queue, g) > 0
  {
    assert CountOk(w, g);
  }

  lemma EndKeepsLinked(w: World, h: Ptr)
    requires CountsOk(w) && PhasesOk(w) && Enabled(w, End) && Safe(w, End) && h in w.handles && w.handles[h].linked
    ensures h in EndJob(w).handles && EndJob(w).handles[h].linked
  {
    assert PhaseOk(w, h) && CountOk(w, h);
  }

  lemma EndKeepsClash(w: World, g: Ptr, h: Ptr)
    requires Inv(w) && Clashing(w, g, h) && Enabled(w, End) && Safe(w, End)
    ensures Clashing(EndJob(w), g, h)
  {
    EndKeepsAbort(w, g);
    EndKeepsLinked(w, h);
    FieldsStay(w, End, g);
    FieldsStay(w, End, h);
  }

  lemma BeginKeepsClash(w: World, g: Ptr, h: Ptr)
    requires Inv(w) && Clashing(w, g, h) && Enabled(w, Begin) && Safe(w, Begin)
    requires !(w.queue[0].AbortJob? && w.queue[0].h == g)
    ensures Clashing(BeginJob(w), g, h)
  {
    assert PhaseOk(w, h) && CountOk(w, h);
    assert w.queue[0].h != h;
  }

  /** Some list cannot be drained. */
  ghost predicate Stuck(w: World) {
    exists i :: i in w.lists && !FreeEnds(w, i)
  }

  lemma ClashBegins(w: World, g: Ptr, h: Ptr)
    requires Inv(w) && Clashing(w, g, h) && Enabled(w, Begin) && Safe(w, Begin)
    ensures Stuck(BeginJob(w)) || Clashing(BeginJob(w), g, h)
  {
    if w.queue[0].AbortJob? && w.queue[0].h == g {
      EarlyReuseNeverDrains(w, h);
    } else {
      BeginKeepsClash(w, g, h);
    }
  }

  lemma JobsGetFewer(w: World)
    ensures Enabled(w, Begin) && Safe(w, Begin) ==> JobsLeft(BeginJob(w)) < JobsLeft(w)
    ensures Enabled(w, End) && Safe(w, End) ==> JobsLeft(EndJob(w)) < JobsLeft(w)
  {}

  lemma ClashMoves(w: World, a: Action, g: Ptr, h: Ptr)
    requires Inv(w) && Clashing(w, g, h) && (a.Begin? || a.End?) && Enabled(w, a) && Safe(w, a)
    ensures Stuck(Apply(w, a)) || Clashing(Apply(w, a), g, h)
  {
    if a.End? { EndKeepsClash(w, g, h); } else { ClashBegins(w, g, h); }
  }

  lemma ClashStep(w: World, g: Ptr, h: Ptr) returns (a: Action, w1: World, stuck: bool)
    requires Inv(w) && Clashing(w, g, h)
    ensures !a.Start? && Enabled(w, a) && Safe(w, a) && Apply(w, a) == w1
    ensures Inv(w1) && JobsLeft(w1) < JobsLeft(w) && if stuck then Stuck(w1) else Clashing(w1, g, h)
  {
    a := if w.running.Some? then End else Begin;
    StepKeeps(w, a);
    ClashMoves(w, a, g, h);
    JobsGetFewer(w);
    w1 := Apply(w, a);
    stuck := !Clashing(w1, g, h);
  }

  ghost predicate GetsStuck(w: World, run: seq<Action>) {
    StartsNothing(run) && Exec(w, run).At? && Stuck(Exec(w, run).w)
  }

  lemma GetsStuckFirst(w: World, a: Action, rest: seq<Action>)
    requires !a.Start? && Enabled(w, a) && Safe(w, a) && GetsStuck(Apply(w, a), rest)
    ensures GetsStuck(w, [a] + rest)
  {
    ExecPrepend(w, a, rest);
  }

  /** Running the jobs that are queued is enough to get stuck. */
  lemma {:induction false} ClashGetsStuck(w: World, g: Ptr, h: Ptr) returns (run: seq<Action>)
    requires Inv(w) && Clashing(w, g, h)
    ensures GetsStuck(w, run)
    decreases JobsLeft(w)
  {
    var a, w1, stuck := ClashStep(w, g, h);
    var rest: seq<Action> := [];
    if stuck {
      assert Exec(w1, rest) == At(w1);
    } else {
      rest := ClashGetsStuck(w1, g, h);
    }
    GetsStuckFirst(w, a, rest);
    run := [a] + rest;
  }

  lemma StartClashes(w: World, a: Action, g: Ptr)
    requires Inv(w) && a.Start? && Enabled(w, a) && Waiting(w, g) && w.handles[g].slot == a.slot
    requires !w.handles[g].linked
    ensures Clashing(Apply(w, a), g, a.h)
  {}

  lemma SharedSlotGetsStuck(w: World, a: Action, g: Ptr) returns (run: seq<Action>)
    requires Inv(w) && a.Start? && Enabled(w, a) && Waiting(w, g) && w.handles[g].slot == a.slot
    ensures GetsStuck(Apply(w, a), run)
  {
    if w.handles[g].linked {
      SharedSlotNeverDrains(w, a, g);
      run := [];
      assert Exec(Apply(w, a), run) == At(Apply(w, a));
    } else {
      StepKeeps(w, a);
      StartClashes(w, a, g);
      run := ClashGetsStuck(Apply(w, a), g, a.h);
    }
  }

  lemma FreshStartStaysFreeable(w: World, a: Action)
    requires Inv(w) && SlotsApart(w) && a.Start? && Enabled(w, a) && FreshSlot(w, a)
    ensures StaysFreeable(Apply(w, a))
  {
    StepKeeps(w, a);
    StepKeepsApart(w, a);
    ApartStaysFreeable(Apply(w, a));
  }

  /** A start made while all slots are apart leaves every list drainable, now and
      after anything but further starts, if and only if its slot is not one that
      a waiting operation uses. */
  lemma FreshSlotIsExact(w: World, a: Action)
    requires Inv(w) && SlotsApart(w) && a.Start? && Enabled(w, a)
    ensures StaysFreeable(Apply(w, a)) <==> FreshSlot(w, a)
  {
    if FreshSlot(w, a) {
      FreshStartStaysFreeable(w, a);
    } else {
      var g :| Waiting(w, g) && w.handles[g].slot == a.slot;
      var run := SharedSlotGetsStuck(w, a, g);
    }
  }

  // ----- Runs that get there -----------------------------------------------

  /** One operation, which took the caller's slot. */
  const STARTED: seq<Action> := [ImplNew(0), Start(10, 0, User(0), false)]

  lemma OneStarted() returns (w: World)
    ensures Exec(INIT, STARTED) == At(w) && w.lists.Keys == {0} && w.handles.Keys == {10}
    ensures w.handles[10] == HandleRec(0, User(0), Some(0), None, true, 1, 0, None)
    ensures w.slots == map[User(0) := CancelOf(10)] && w.queue == [] && w.running.None?
  {
    var w1 := INIT.(lists := map[0 := []]);
    ExecStep([], ImplNew(0), INIT);
    ExecStep([ImplNew(0)], Start(10, 0, User(0), false), w1);
    assert [] + [ImplNew(0)] == [ImplNew(0)];
    assert [ImplNew(0)] + [Start(10, 0, User(0), false)] == STARTED;
    w := StartOp(w1, 10, 0, User(0), false);
  }

  /** A second operation given the same slot: the node can never be freed. */
  lemma SharedSlotRun()
    ensures var r := Exec(INIT, STARTED + [Start(11, 0, User(0), false)]);
      r.At? && 0 in r.w.lists && !FreeEnds(r.w, 0)
  {
    var w := OneStarted();
    NoRunCrashes(STARTED);
    ExecStep(STARTED, Start(11, 0, User(0), false), w);
    SharedSlotNeverDrains(w, Start(11, 0, User(0), false), 10);
  }

  /** The same after a cancel, if asio runs the abort job only then. */
  lemma EarlyReuseRun()
    ensures var r := Exec(INIT, STARTED + [Invoke(User(0))] + [Start(11, 0, User(0), false)] + [Begin]);
      r.At? && 0 in r.w.lists && !FreeEnds(r.w, 0)
  {
    var w := OneStarted();
    ExecStep(STARTED, Invoke(User(0)), w);
    var w1 := CancelHandle(w, 10);
    ExecStep(STARTED + [Invoke(User(0))], Start(11, 0, User(0), false), w1);
    var w2 := StartOp(w1, 11, 0, User(0), false);
    NoRunCrashes(STARTED + [Invoke(User(0))] + [Start(11, 0, User(0), false)]);
    ExecStep(STARTED + [Invoke(User(0))] + [Start(11, 0, User(0), false)], Begin, w2);
    EarlyReuseNeverDrains(w2, 11);
  }
}
