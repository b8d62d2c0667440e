/** The error channel of `maybeServeHTTPApi` and `maybeServeHTTPGateway`
    (src/ipfs_bindings/ipfs_api.go): one goroutine per listener sends the one
    result of its Serve on an unbuffered channel, and one more goroutine closes
    the channel when a WaitGroup says they are all through. */
module FanIn {
  import opened Wrappers

  datatype Listener =
    | Serving   // has not sent yet
    | Sent      // its send was received, wg.Done() is still to come
    | Finished

  /** `size` listeners are to be launched; `closing`: the closing goroutine was
      started. A `patient` receiver reads until the close. The state monitor
      does not: it retires the channel at the first nil value, and it has `left`
      when it returned on the end of the context. */
  datatype State = State(
    size: nat, patient: bool, listeners: seq<Listener>, wg: int, closing: bool, closed: bool,
    received: seq<(nat, Option<string>)>, left: bool)

  function Begin(size: nat, patient: bool): State {
    State(size, patient, [], 0, false, false, [], false)
  }

  datatype Action =
    | Launch                               // wg.Add(1), go
    | StartCloser
    | Exchange(i: nat, v: Option<string>)  // a send meets a receive
    | WgDone(i: nat)
    | Close
    | Leave                                // the monitor returns, or was never started

  /** Does the receiver still read? */
  ghost predicate Reading(s: State) {
    s.patient || (!s.left && forall k :: 0 <= k < |s.received| ==> s.received[k].1.Some?)
  }

  ghost predicate Enabled(s: State, a: Action) {
    match a
    case Launch => |s.listeners| < s.size && !s.closing
    case StartCloser => |s.listeners| == s.size && !s.closing
    case Exchange(i, v) => i < |s.listeners| && s.listeners[i].Serving? && Reading(s)
    case WgDone(i) => i < |s.listeners| && s.listeners[i].Sent?
    case Close => s.closing && !s.closed && s.wg == 0
    case Leave => !s.patient && !s.left
  }

  /** Sending on a closed channel, closing one twice and a negative WaitGroup
      counter all panic. */
  ghost predicate Safe(s: State, a: Action) {
    match a
    case Exchange(_, _) => !s.closed
    case WgDone(_) => s.wg > 0
    case Close => !s.closed
    case _ => true
  }

  ghost function Apply(s: State, a: Action): State
    requires Enabled(s, a)
  {
    match a
    case Launch => s.(listeners := s.listeners + [Serving], wg := s.wg + 1)
    case StartCloser => s.(closing := true)
    case Exchange(i, v) => s.(listeners := s.listeners[i := Sent], received := s.received + [(i, v)])
    case WgDone(i) => s.(listeners := s.listeners[i := Finished], wg := s.wg - 1)
    case Close => s.(closed := true)
    case Leave => s.(left := true)
  }

  datatype Reached = At(s: State) | Crashed | NotARun

  ghost function Exec(s: State, run: seq<Action>): Reached
    decreases |run|
  {
    if run == [] then At(s)
    else if !Enabled(s, run[0]) then NotARun
    else if !Safe(s, run[0]) then Crashed
    else Exec(Apply(s, run[0]), run[1..])
  }

  // ----- The invariant -----------------------------------------------------

  function Tally(ls: seq<Listener>, x: Listener): (n: nat)
    ensures n <= |ls|
  {
    if ls == [] then 0 else (if ls[0] == x then 1 else 0) + Tally(ls[1..], x)
  }

  lemma {:induction false} TallyUpdate(ls: seq<Listener>, i: nat, y: Listener, x: Listener)
    requires i < |ls|
    ensures Tally(ls[i := y], x)
         == Tally(ls, x) - (if ls[i] == x then 1 else 0) + (if y == x then 1 else 0)
  {
    if i > 0 {
      assert ls[i := y][1..] == ls[1..][i - 1 := y];
      TallyUpdate(ls[1..], i - 1, y, x);
    } else {
      assert ls[i := y][1..] == ls[1..];
    }
  }

  lemma {:induction false} TallyAppend(ls: seq<Listener>, y: Listener, x: Listener)
    ensures Tally(ls + [y], x) == Tally(ls, x) + (if y == x then 1 else 0)
  {
    if ls == [] {
      assert ls + [y] == [y];
    } else {
      assert (ls + [y])[1..] == ls[1..] + [y];
      TallyAppend(ls[1..], y, x);
    }
  }

  lemma {:induction false} TallyAll(ls: seq<Listener>, x: Listener)
    ensures Tally(ls, x) == |ls| <==> forall i :: 0 <= i < |ls| ==> ls[i] == x
    ensures Tally(ls, x) == 0 <==> forall i :: 0 <= i < |ls| ==> ls[i] != x
  {
    if ls != [] {
      TallyAll(ls[1..], x);
      assert forall i :: 1 <= i < |ls| ==> ls[i] == ls[1..][i - 1];
      assert forall i :: 0 <= i < |ls| - 1 ==> ls[1..][i] == ls[i + 1];
    }
  }

  ghost predicate Received(s: State, i: nat) {
    exists k :: 0 <= k < |s.received| && s.received[k].0 == i
  }

  ghost predicate Inv(s: State) {
    && |s.listeners| <= s.size
    && (s.closing ==> |s.listeners| == s.size)
    && s.wg == |s.listeners| - Tally(s.listeners, Finished)
    && |s.received| == |s.listeners| - Tally(s.listeners, Serving)
    && (s.closed ==> s.closing && s.wg == 0)
    && (s.left ==> !s.patient)
    && (forall k :: 0 <= k < |s.received| ==> s.received[k].0 < |s.listeners|)
    && (forall k, m :: 0 <= k < m < |s.received| ==> s.received[k].0 != s.received[m].0)
    && (forall i: nat :: i < |s.listeners| ==> (Received(s, i) <==> !s.listeners[i].Serving?))
  }

  lemma BeginInv(size: nat, patient: bool)
    ensures Inv(Begin(size, patient))
  {}

  lemma ExchangeHears(s: State, i: nat, v: Option<string>, j: nat)
    requires Inv(s) && Enabled(s, Exchange(i, v))
    ensures Received(Apply(s, Exchange(i, v)), j) <==> Received(s, j) || j == i
  {
    var s' := Apply(s, Exchange(i, v));
    if Received(s, j) {
      var k :| 0 <= k < |s.received| && s.received[k].0 == j;
      assert s'.received[k].0 == j;
    }
    assert s'.received[|s.received|].0 == i;
  }

  lemma ExchangeKeepsTallies(s: State, i: nat, v: Option<string>)
    requires Inv(s) && Enabled(s, Exchange(i, v))
    ensures var ls, ls' := s.listeners, Apply(s, Exchange(i, v)).listeners;
      Tally(ls', Finished) == Tally(ls, Finished) < |ls| && Tally(ls', Serving) == Tally(ls, Serving) - 1
  {
    TallyUpdate(s.listeners, i, Sent, Finished);
    TallyUpdate(s.listeners, i, Sent, Serving);
    TallyAll(s.listeners, Finished);
  }

  lemma ExchangeKeeps(s: State, i: nat, v: Option<string>)
    requires Inv(s) && Enabled(s, Exchange(i, v))
    ensures !s.closed && Inv(Apply(s, Exchange(i, v)))
  {
    var s' := Apply(s, Exchange(i, v));
    ExchangeKeepsTallies(s, i, v);
    forall j: nat | j < |s'.listeners| ensures Received(s', j) <==> !s'.listeners[j].Serving? {
      ExchangeHears(s, i, v, j);
    }
    assert !Received(s, i);
  }

  lemma ReceivedStays(s: State, s': State)
    requires Inv(s) && s'.received == s.received
    ensures forall i: nat :: Received(s', i) <==> Received(s, i)
  {}

  lemma StepKeeps(s: State, a: Action)
    requires Inv(s) && Enabled(s, a)
    ensures Safe(s, a) && Inv(Apply(s, a))
  {
    match a
    case Launch => LaunchKeeps(s);
    case Exchange(i, v) => ExchangeKeeps(s, i, v);
    case WgDone(i) => WgDoneKeeps(s, i);
    case _ => ReceivedStays(s, Apply(s, a));
  }

  lemma WgDoneKeeps(s: State, i: nat)
    requires Inv(s) && Enabled(s, WgDone(i))
    ensures s.wg > 0 && Inv(Apply(s, WgDone(i)))
  {
    TallyUpdate(s.listeners, i, Finished, Finished);
    TallyUpdate(s.listeners, i, Finished, Serving);
    TallyAll(s.listeners, Finished);
    ReceivedStays(s, Apply(s, WgDone(i)));
  }

  lemma LaunchKeeps(s: State)
    requires Inv(s) && Enabled(s, Launch)
    ensures Inv(Apply(s, Launch))
  {
    TallyAppend(s.listeners, Serving, Finished);
    TallyAppend(s.listeners, Serving, Serving);
    ReceivedStays(s, Apply(s, Launch));
    assert !Received(s, |s.listeners|);
  }

  /** For any number of listeners, nothing ever panics. */
  lemma {:induction false} NoRunCrashes(s: State, run: seq<Action>)
    requires Inv(s)
    ensures !Exec(s, run).Crashed?
    ensures Exec(s, run).At? ==> Inv(Exec(s, run).s) && Exec(s, run).s.size == s.size
                                 && Exec(s, run).s.patient == s.patient
    decreases |run|
  {
    if run != [] && Enabled(s, run[0]) {
      StepKeeps(s, run[0]);
      NoRunCrashes(Apply(s, run[0]), run[1..]);
    }
  }

  // ----- What the receiver sees --------------------------------------------

  /** A closed channel has delivered exactly one value of each listener. */
  lemma ClosedMeansAllHeard(s: State)
    requires Inv(s) && s.closed
    ensures |s.received| == s.size
    ensures forall i: nat :: i < s.size ==> Received(s, i)
    ensures forall k, m :: 0 <= k < m < |s.received| ==> s.received[k].0 != s.received[m].0
  {
    TallyAll(s.listeners, Finished);
    TallyAll(s.listeners, Serving);
  }

  /** The steps taken so far, read off the state: no step is ever repeated. */
  ghost function StepsTaken(s: State): int {
    |s.listeners| + |s.received| + Tally(s.listeners, Finished)
    + (if s.closing then 1 else 0) + (if s.closed then 1 else 0) + (if s.left then 1 else 0)
  }

  lemma StepCounts(s: State, a: Action)
    requires Inv(s) && Enabled(s, a)
    ensures StepsTaken(Apply(s, a)) == StepsTaken(s) + 1
  {
    StepKeeps(s, a);
  }

  lemma {:induction false} StepsOfRun(s: State, run: seq<Action>)
    requires Inv(s) && Exec(s, run).At?
    ensures StepsTaken(Exec(s, run).s) == StepsTaken(s) + |run|
    decreases |run|
  {
    if run != [] {
      StepKeeps(s, run[0]);
      StepCounts(s, run[0]);
      StepsOfRun(Apply(s, run[0]), run[1..]);
    }
  }

  lemma StepsBounded(s: State)
    requires Inv(s)
    ensures StepsTaken(s) <= 3 * s.size + 2 + (if s.left then 1 else 0)
    ensures s.closed <==> StepsTaken(s) == 3 * s.size + 2 + (if s.left then 1 else 0)
  {
    if s.closed { ClosedMeansAllHeard(s); TallyAll(s.listeners, Finished); }
  }

  /** A receiver that still reads can be kept reading. */
  lemma NextStep(s: State) returns (a: Action)
    requires Inv(s) && Reading(s) && !s.closed
    ensures Enabled(s, a) && Reading(Apply(s, a))
  {
    TallyAll(s.listeners, Finished);
    if |s.listeners| < s.size {
      a := Launch;
    } else if !s.closing {
      a := StartCloser;
    } else if s.wg == 0 {
      a := Close;
    } else {
      var i: nat :| i < |s.listeners| && !s.listeners[i].Finished?;
      a := if s.listeners[i].Serving? then Exchange(i, Some("")) else WgDone(i);
    }
  }

  /** With a receiver that keeps reading no run gets stuck before the channel is
      closed, and in every run that is the step number 3 * size + 2. */
  lemma PatientReceiverSeesTheClose(size: nat, run: seq<Action>)
    requires Exec(Begin(size, true), run).At?
    ensures var s := Exec(Begin(size, true), run).s;
      && |run| <= 3 * size + 2
      && (s.closed <==> |run| == 3 * size + 2)
      && (!s.closed ==> exists a :: Enabled(s, a))
  {
    var s0 := Begin(size, true);
    BeginInv(size, true);
    NoRunCrashes(s0, run);
    StepsOfRun(s0, run);
    var s := Exec(s0, run).s;
    StepsBounded(s);
    if !s.closed { var a := NextStep(s); }
  }

  // ----- The state monitor as the receiver ---------------------------------

  ghost predicate CanClose(s: State) {
    exists run :: Exec(s, run).At? && Exec(s, run).s.closed
  }

  /** A receiver that stopped stays so, and hears no more. */
  lemma {:induction false} DeafForEver(s: State, run: seq<Action>)
    requires !Reading(s) && Exec(s, run).At?
    ensures Exec(s, run).s.received == s.received
    decreases |run|
  {
    if run != [] {
      DeafForEver(Apply(s, run[0]), run[1..]);
    }
  }

  /** Once all were heard there is always a next step that needs no receiver. */
  lemma NextWithoutReceiver(s: State) returns (a: Action)
    requires Inv(s) && |s.received| == s.size && !s.closed
    ensures Enabled(s, a) && (a.StartCloser? || a.WgDone? || a.Close?)
  {
    TallyAll(s.listeners, Finished);
    TallyAll(s.listeners, Serving);
    if !s.closing {
      a := StartCloser;
    } else if s.wg == 0 {
      a := Close;
    } else {
      var i: nat :| i < |s.listeners| && !s.listeners[i].Finished?;
      a := WgDone(i);
    }
  }

  /** The steps after the last value was received always lead to the close. */
  lemma {:induction false} AllHeardCanClose(s: State)
    requires Inv(s) && |s.received| == s.size
    ensures CanClose(s)
    decreases 3 * s.size + 3 - StepsTaken(s)
  {
    if s.closed {
      assert Exec(s, []) == At(s);
    } else {
      var a := NextWithoutReceiver(s);
      StepKeeps(s, a);
      StepCounts(s, a);
      StepsBounded(Apply(s, a));
      AllHeardCanClose(Apply(s, a));
      PrependStep(s, a);
    }
  }

  lemma PrependStep(s: State, a: Action)
    requires Enabled(s, a) && Safe(s, a) && CanClose(Apply(s, a))
    ensures CanClose(s)
  {
    var rest :| Exec(Apply(s, a), rest).At? && Exec(Apply(s, a), rest).s.closed;
    assert ([a] + rest)[1..] == rest;
    assert Exec(s, [a] + rest) == Exec(Apply(s, a), rest);
  }

  lemma {:induction false} ReadingCanClose(s: State)
    requires Inv(s) && Reading(s)
    ensures CanClose(s)
    decreases 3 * s.size + 3 - StepsTaken(s)
  {
    if s.closed {
      assert Exec(s, []) == At(s);
    } else {
      var a := NextStep(s);
      StepKeeps(s, a);
      StepCounts(s, a);
      StepsBounded(Apply(s, a));
      ReadingCanClose(Apply(s, a));
      PrependStep(s, a);
    }
  }

  lemma DeafCanOnlyFinish(s: State)
    requires Inv(s) && !Reading(s) && CanClose(s)
    ensures |s.received| == s.size
  {
    var run :| Exec(s, run).At? && Exec(s, run).s.closed;
    NoRunCrashes(s, run);
    DeafForEver(s, run);
    ClosedMeansAllHeard(Exec(s, run).s);
  }

  /** The channel can still be closed if and only if the receiver still reads or
      every listener was heard. So once it reads no more, because it received a
      nil value or left for any other reason, the listeners that were not heard,
      and the closing goroutine, wait for ever. */
  lemma LeavingStrandsTheOthers(s: State)
    requires Inv(s)
    ensures CanClose(s) <==> Reading(s) || |s.received| == s.size
  {
    if Reading(s) {
      ReadingCanClose(s);
    } else if |s.received| == s.size {
      AllHeardCanClose(s);
    } else if CanClose(s) {
      DeafCanOnlyFinish(s);
    }
  }

  lemma {:induction false} ExecStep(s: State, run: seq<Action>, a: Action, t: State)
    requires Exec(s, run) == At(t) && Enabled(t, a) && Safe(t, a)
    ensures Exec(s, run + [a]) == At(Apply(t, a))
    decreases |run|
  {
    if run == [] {
      assert run + [a] == [a] && [a][1..] == [];
    } else {
      assert (run + [a])[1..] == run[1..] + [a];
      ExecStep(Apply(s, run[0]), run[1..], a, t);
    }
  }

  lemma TwoServing() returns (s: State)
    ensures Exec(Begin(2, false), [Launch, Launch]) == At(s) && Inv(s)
    ensures s.listeners == [Serving, Serving] && s.received == [] && s.size == 2 && !s.patient && !s.left && !s.closed
  {
    var s0 := Begin(2, false);
    var s1 := Apply(s0, Launch);
    s := Apply(s1, Launch);
    assert [Launch, Launch][1..] == [Launch] && [Launch][1..] == [];
    assert Exec(s, []) == At(s);
    assert Exec(s1, [Launch]) == At(s);
    BeginInv(2, false);
    NoRunCrashes(s0, [Launch, Launch]);
  }

  /** So with two listeners the monitor strands one, whatever the other ended
      with: an error makes it end the context and return, nil retires the channel. */
  lemma FirstOfTwoStrandsTheOther(v: Option<string>)
    ensures var r := Exec(Begin(2, false), [Launch, Launch] + [Exchange(0, v)] + [Leave]);
      r.At? && r.s.received == [(0, v)] && !CanClose(r.s)
  {
    var s2 := TwoServing();
    StepKeeps(s2, Exchange(0, v));
    ExecStep(Begin(2, false), [Launch, Launch], Exchange(0, v), s2);
    var s3 := Apply(s2, Exchange(0, v));
    StepKeeps(s3, Leave);
    ExecStep(Begin(2, false), [Launch, Launch] + [Exchange(0, v)], Leave, s3);
    LeavingStrandsTheOthers(Apply(s3, Leave));
  }
}
