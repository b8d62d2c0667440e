/** The state monitor goroutine of `start_node`
    (src/ipfs_bindings/ipfs_node.go): a select loop over three error channels,
    a two-second tick and the node's context, reporting to the state callback. */
module StateMonitor {
  import opened Wrappers

  type Count = x: int | 0 <= x < 0x1_0000_0000  // uint32

  datatype Chan = Gc | Api | Gateway

  /** What one select picks, and the one thing that others may do to the node
      in between: cancel its context. A receive of None is a nil error, from a
      sender or from a closed channel. */
  datatype Event =
    | Recv(ch: Chan, err: Option<string>)
    | Tick(peers: Count)
    | Done
    | CancelledOutside

  /** One call of the state callback. */
  datatype Note = Note(err: Option<string>, peers: Count)

  /** Which of the three channels are not nil. */
  datatype Channels = Channels(gc: bool, api: bool, gateway: bool) {
    predicate Has(ch: Chan) {
      match ch case Gc => gc case Api => api case Gateway => gateway
    }

    function Without(ch: Chan): Channels {
      match ch
      case Gc => this.(gc := false)
      case Api => this.(api := false)
      case Gateway => this.(gateway := false)
    }
  }

  datatype Monitor = Monitor(
    open: Channels, pcnt: Count, lasterr: Option<string>, cancelled: bool, stopped: bool, trace: seq<Note>)

  /** The monitor is launched with the channels that are not nil. */
  function Launched(channels: Channels, p0: Count): Monitor {
    Monitor(channels, p0, None, false, false, [Note(None, p0)])
  }

  /** A nil channel is never ready, the context's only once it is cancelled. */
  predicate Ready(m: Monitor, e: Event) {
    match e
    case Recv(ch, _) => !m.stopped && m.open.Has(ch)
    case Tick(_) => !m.stopped
    case Done => !m.stopped && m.cancelled
    case CancelledOutside => true
  }

  function Step(m: Monitor, e: Event): Monitor
    requires Ready(m, e)
  {
    match e
    case Recv(ch, Some(err)) => m.(lasterr := Some(err), cancelled := true)
    case Recv(ch, None) => AfterSelect(m.(open := m.open.Without(ch)))
    case Tick(n) => AfterSelect(if n != m.pcnt then m.(pcnt := n, trace := m.trace + [Note(None, n)]) else m)
    case Done => m.(stopped := true, trace := m.trace + [Note(m.lasterr, 0)])
    case CancelledOutside => m.(cancelled := true)
  }

  /** The check at the foot of the loop. */
  function AfterSelect(m: Monitor): Monitor {
    if m.lasterr.Some? then m.(cancelled := true) else m
  }

  /** The monitor after a whole script of events, if it could happen. */
  function After(channels: Channels, p0: Count, evs: seq<Event>): Option<Monitor>
    decreases |evs|
  {
    if evs == [] then Some(Launched(channels, p0))
    else
      var m := After(channels, p0, evs[..|evs| - 1]);
      var e := evs[|evs| - 1];
      if m.Some? && Ready(m.value, e) then Some(Step(m.value, e)) else None
  }

  // ----- What the trace should be, read off the events ---------------------

  /** The peer counts that the ticks found. */
  function Readings(evs: seq<Event>): seq<Count>
  {
    if evs == [] then []
    else Readings(evs[..|evs| - 1]) +
         (match evs[|evs| - 1] case Tick(n) => [n] case _ => [])
  }

  /** The readings that differ from the one right before them, `p` at first. */
  function Changes(p: Count, counts: seq<Count>): seq<Count>
  {
    if counts == [] then []
    else
      var n := |counts| - 1;
      var before := if n == 0 then p else counts[n - 1];
      Changes(p, counts[..n]) + (if counts[n] != before then [counts[n]] else [])
  }

  /** The most recent error received; None iff none was. */
  function LastError(evs: seq<Event>): Option<string>
  {
    if evs == [] then None
    else
      match evs[|evs| - 1]
      case Recv(_, Some(err)) => Some(err)
      case _ => LastError(evs[..|evs| - 1])
  }

  function Notes(counts: seq<Count>): (r: seq<Note>)
    ensures |r| == |counts|
    ensures forall k :: 0 <= k < |counts| ==> r[k] == Note(None, counts[k])
  {
    seq(|counts|, k requires 0 <= k < |counts| => Note(None, counts[k]))
  }

  function ExpectedTrace(p0: Count, evs: seq<Event>): seq<Note>
  {
    Notes([p0] + Changes(p0, Readings(evs))) + (if Done in evs then [Note(LastError(evs), 0)] else [])
  }

  lemma ReadingsAppend(evs: seq<Event>, e: Event)
    ensures Readings(evs + [e]) == Readings(evs) + (match e case Tick(n) => [n] case _ => [])
    ensures LastError(evs + [e]) == (if e.Recv? && e.err.Some? then e.err else LastError(evs))
  {
    assert (evs + [e])[..|evs|] == evs;
  }

  lemma ChangesAppend(p: Count, counts: seq<Count>, c: Count)
    ensures var before := if counts == [] then p else counts[|counts| - 1];
      Changes(p, counts + [c]) == Changes(p, counts) + (if c != before then [c] else [])
  {
    assert (counts + [c])[..|counts|] == counts;
  }

  /** Can `e` come after `evs`? A channel is heard as long as it is there and
      has not given a nil, whatever the others gave; the context ends only after
      an error or when others end it; after the end nothing is heard. */
  predicate Possible(channels: Channels, evs: seq<Event>, e: Event) {
    match e
    case Recv(ch, _) => Done !in evs && channels.Has(ch) && Recv(ch, None) !in evs
    case Tick(_) => Done !in evs
    case Done => Done !in evs && (CancelledOutside in evs || LastError(evs).Some?)
    case CancelledOutside => true
  }

  ghost predicate Script(channels: Channels, evs: seq<Event>) {
    forall k :: 0 <= k < |evs| ==> Possible(channels, evs[..k], evs[k])
  }

  /** The loop can go on with exactly the events that can come next. */
  lemma GoesOnExactly(channels: Channels, p0: Count, evs: seq<Event>, e: Event)
    requires After(channels, p0, evs).Some?
    ensures After(channels, p0, evs + [e]).Some? <==> Possible(channels, evs, e)
  {
    TraceIsExpected(channels, p0, evs);
    assert (evs + [e])[..|evs|] == evs;
  }

  /** So the scripts of selects that it can run are known from the events alone. */
  lemma {:induction false} RunsExactlyScripts(channels: Channels, p0: Count, evs: seq<Event>)
    ensures After(channels, p0, evs).Some? <==> Script(channels, evs)
    decreases |evs|
  {
    if evs != [] {
      var prefix, e := evs[..|evs| - 1], evs[|evs| - 1];
      RunsExactlyScripts(channels, p0, prefix);
      assert evs == prefix + [e];
      assert forall k :: 0 <= k < |prefix| ==> prefix[..k] == evs[..k] && prefix[k] == evs[k];
      if After(channels, p0, prefix).Some? { GoesOnExactly(channels, p0, prefix, e); }
    }
  }

  lemma WithoutOne(open: Channels, gone: Chan)
    ensures forall ch :: open.Without(gone).Has(ch) <==> open.Has(ch) && ch != gone
  {}

  /** The channels still heard, and whether the context has ended. */
  lemma {:induction false} FlagsAre(channels: Channels, p0: Count, evs: seq<Event>)
    requires After(channels, p0, evs).Some?
    ensures var m := After(channels, p0, evs).value;
      && m.lasterr == LastError(evs)
      && (m.cancelled <==> CancelledOutside in evs || LastError(evs).Some?)
      && (forall ch :: m.open.Has(ch) <==> channels.Has(ch) && Recv(ch, None) !in evs)
  {
    if evs != [] {
      var prefix, e := evs[..|evs| - 1], evs[|evs| - 1];
      FlagsAre(channels, p0, prefix);
      assert evs == prefix + [e];
      assert forall x :: x in evs <==> x in prefix || x == e;
      if e.Recv? { WithoutOne(After(channels, p0, prefix).value.open, e.ch); }
    }
  }

  /** The whole trace and the loop's variables, for every script of selects. */
  lemma {:induction false} TraceIsExpected(channels: Channels, p0: Count, evs: seq<Event>)
    requires After(channels, p0, evs).Some?
    ensures var m := After(channels, p0, evs).value;
      && m.trace == ExpectedTrace(p0, evs)
      && m.pcnt == (var r := Readings(evs); if r == [] then p0 else r[|r| - 1])
      && m.lasterr == LastError(evs)
      && (m.stopped <==> Done in evs)
      && (m.cancelled <==> CancelledOutside in evs || LastError(evs).Some?)
      && (forall ch :: m.open.Has(ch) <==> channels.Has(ch) && Recv(ch, None) !in evs)
  {
    FlagsAre(channels, p0, evs);
    if evs != [] {
      var prefix, e := evs[..|evs| - 1], evs[|evs| - 1];
      TraceIsExpected(channels, p0, prefix);
      assert evs == prefix + [e];
      assert Done in evs <==> Done in prefix || e == Done;
      ReadingsAppend(prefix, e);
      match e
      case Tick(n) => TickExtends(p0, prefix, n);
      case Done => DoneExtends(p0, prefix);
      case _ => QuietExtends(p0, prefix, e);
    }
  }

  lemma QuietExtends(p0: Count, prefix: seq<Event>, e: Event)
    requires e.CancelledOutside? || (e.Recv? && Done !in prefix)
    ensures Readings(prefix + [e]) == Readings(prefix)
    ensures ExpectedTrace(p0, prefix + [e]) == ExpectedTrace(p0, prefix)
  {
    ReadingsAppend(prefix, e);
    assert Readings(prefix) + [] == Readings(prefix);
    assert Done in prefix + [e] <==> Done in prefix;
  }

  lemma DoneExtends(p0: Count, prefix: seq<Event>)
    requires Done !in prefix
    ensures Readings(prefix + [Done]) == Readings(prefix)
    ensures ExpectedTrace(p0, prefix + [Done]) == ExpectedTrace(p0, prefix) + [Note(LastError(prefix), 0)]
  {
    ReadingsAppend(prefix, Done);
    assert Readings(prefix) + [] == Readings(prefix);
    NoClosing(p0, prefix);
  }

  lemma TickExtends(p0: Count, prefix: seq<Event>, n: Count)
    requires Done !in prefix
    ensures var r := Readings(prefix); var before := if r == [] then p0 else r[|r| - 1];
      ExpectedTrace(p0, prefix + [Tick(n)])
      == ExpectedTrace(p0, prefix) + (if n != before then [Note(None, n)] else [])
  {
    var r := Readings(prefix);
    ReadingsAppend(prefix, Tick(n));
    ChangesAppend(p0, r, n);
    var c := Changes(p0, r);
    assert [p0] + (c + [n]) == ([p0] + c) + [n];
    NoClosing(p0, prefix);
    NoClosing(p0, prefix + [Tick(n)]);
    if n == (if r == [] then p0 else r[|r| - 1]) {
      assert c + [] == c;
      assert Notes([p0] + c) + [] == Notes([p0] + c);
    } else {
      NotesAppend([p0] + c, n);
    }
  }

  lemma NotesAppend(counts: seq<Count>, n: Count)
    ensures Notes(counts + [n]) == Notes(counts) + [Note(None, n)]
  {}

  lemma NoClosing(p0: Count, evs: seq<Event>)
    requires Done !in evs
    ensures ExpectedTrace(p0, evs) == Notes([p0] + Changes(p0, Readings(evs)))
  {}

  /** No two counts reported in a row are the same. */
  lemma {:induction false} ReportsDiffer(p: Count, counts: seq<Count>, k: nat)
    requires k < |Changes(p, counts)|
    ensures Changes(p, counts)[k] != if k == 0 then p else Changes(p, counts)[k - 1]
  {
    var n := |counts| - 1;
    var earlier := Changes(p, counts[..n]);
    if k < |earlier| {
      ReportsDiffer(p, counts[..n], k);
    } else {
      LastReportIsLastReading(p, counts[..n]);
    }
  }

  lemma {:induction false} LastReportIsLastReading(p: Count, counts: seq<Count>)
    ensures (var r := Changes(p, counts); if r == [] then p else r[|r| - 1])
         == (if counts == [] then p else counts[|counts| - 1])
  {
    if counts != [] {
      LastReportIsLastReading(p, counts[..|counts| - 1]);
    }
  }

  /** An error cancels the node for good, and once told the monitor is silent. */
  lemma {:induction false} NothingIsUndone(channels: Channels, p0: Count, evs: seq<Event>, k: nat)
    requires k <= |evs| && After(channels, p0, evs).Some?
    ensures After(channels, p0, evs[..k]).Some?
    ensures var m, m' := After(channels, p0, evs[..k]).value, After(channels, p0, evs).value;
      && (m.lasterr.Some? ==> m.cancelled && m'.lasterr.Some?)
      && (m.cancelled ==> m'.cancelled)
      && (forall ch :: m'.open.Has(ch) ==> m.open.Has(ch))
      && m.trace <= m'.trace
      && (m.stopped ==> m'.stopped && m'.trace == m.trace)
    decreases |evs|
  {
    if k == |evs| {
      assert evs[..k] == evs;
      TraceIsExpected(channels, p0, evs);
    } else {
      var prefix, e := evs[..|evs| - 1], evs[|evs| - 1];
      NothingIsUndone(channels, p0, prefix, k);
      assert prefix[..k] == evs[..k];
      TraceIsExpected(channels, p0, prefix);
    }
  }

  /** A channel that delivered nil is never read again, so it is retired once. */
  lemma RetiredOnce(channels: Channels, p0: Count, evs: seq<Event>, i: nat, j: nat)
    requires After(channels, p0, evs).Some? && i < j < |evs|
    requires evs[i].Recv? && evs[i].err.None? && evs[j].Recv?
    ensures evs[i].ch != evs[j].ch
  {
    RunsExactlyScripts(channels, p0, evs);
    assert Possible(channels, evs[..j], evs[j]);
    assert evs[..j][i] == evs[i];
  }

  /** The goroutine. `evs` is what its selects pick; it returns early on Done. */
  method RunMonitor(gc: bool, api: bool, gateway: bool, p0: Count, evs: seq<Event>) returns (trace: seq<Note>)
    requires Script(Channels(gc, api, gateway), evs)
    ensures trace == ExpectedTrace(p0, evs)
  {
    ghost var channels := Channels(gc, api, gateway);
    RunsExactlyScripts(channels, p0, evs);
    TraceIsExpected(channels, p0, evs);
    var gcErrc, apiErrc, gwErrc := gc, api, gateway;
    var pcnt, cancelled := p0, false;
    var lasterr: Option<string> := None;
    trace := [Note(None, p0)];
    var i := 0;
    while i < |evs|
      invariant 0 <= i <= |evs|
      invariant After(channels, p0, evs[..i]) ==
                Some(Monitor(Channels(gcErrc, apiErrc, gwErrc), pcnt, lasterr, cancelled, false, trace))
      decreases |evs| - i
    {
      var e := evs[i];
      OneSelect(channels, p0, evs, i);
      i := i + 1;
      match e {
        case Recv(Gc, err) => if err.Some? { lasterr := err; } else { gcErrc := false; }
        case Recv(Api, err) => if err.Some? { lasterr := err; } else { apiErrc := false; }
        case Recv(Gateway, err) => if err.Some? { lasterr := err; } else { gwErrc := false; }
        case Tick(ncnt) =>
          if pcnt != ncnt {
            pcnt := ncnt;
            trace := trace + [Note(None, pcnt)];
          }
        case Done =>
          trace := trace + [Note(lasterr, 0)];
          StoppedIsSilent(channels, p0, evs, i);
          return;
        case CancelledOutside => cancelled := true;
      }
      if lasterr.Some? { cancelled := true; }
    }
    assert evs[..i] == evs;
  }

  lemma OneSelect(channels: Channels, p0: Count, evs: seq<Event>, i: nat)
    requires i < |evs| && After(channels, p0, evs).Some?
    ensures After(channels, p0, evs[..i]).Some? && Ready(After(channels, p0, evs[..i]).value, evs[i])
    ensures After(channels, p0, evs[..i + 1]) == Some(Step(After(channels, p0, evs[..i]).value, evs[i]))
  {
    NothingIsUndone(channels, p0, evs, i + 1);
    assert evs[..i + 1][..i] == evs[..i] && evs[..i + 1][i] == evs[i];
  }

  lemma StoppedIsSilent(channels: Channels, p0: Count, evs: seq<Event>, k: nat)
    requires k <= |evs| && After(channels, p0, evs).Some?
    requires After(channels, p0, evs[..k]).Some? && After(channels, p0, evs[..k]).value.stopped
    ensures After(channels, p0, evs).value.trace == After(channels, p0, evs[..k]).value.trace
  {
    NothingIsUndone(channels, p0, evs, k);
  }
}
