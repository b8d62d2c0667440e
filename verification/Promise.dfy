/** The reference an asynchronous operation is measured against: a promise that
    is settled at most once, by whichever of "Go's result ran" and "cancelled"
    comes first. It knows nothing of handles, counters, lists or queues. */
module Promise {

  newtype byte = x: int | 0 <= x < 256

  /** The first argument of a user callback: an error of the IPFS category
      (0 is success) or asio's operation_aborted. */
  datatype ErrorCode = Ipfs(code: int) | OperationAborted

  datatype Outcome = Outcome(ec: ErrorCode, data: seq<byte>)

  /** What a cancelled operation reports: default-constructed arguments. */
  const ABORTED: Outcome := Outcome(OperationAborted, [])

  /** What can happen to one operation. */
  datatype Event =
    | Cancelled            // its cancel closure was invoked
    | GoRan(o: Outcome)    // the job that Go posted for it was run by asio
    | AbortRan             // the job that its cancellation posted was run

  datatype State =
    | Pending
    | Aborting             // cancelled, the user has not been told yet
    | Settled(o: Outcome)

  /** The state reached after the events `evs`, read off the first event alone:
      a GoRan that comes first settles the promise with exactly its outcome;
      otherwise it was cancelled, and stays Aborting until the abort is run. */
  ghost function Judge(evs: seq<Event>): State
  {
    if evs == [] then Pending
    else if evs[0].GoRan? then Settled(evs[0].o)
    else if AbortRan in evs then Settled(ABORTED)
    else Aborting
  }

  /** One event moves a promise. */
  function Advance(p: State, e: Event): State
  {
    match (p, e)
    case (Pending, Cancelled) => Aborting
    case (Pending, GoRan(o)) => Settled(o)
    case (Aborting, AbortRan) => Settled(ABORTED)
    case (_, _) => p
  }

  /** Events in an order that a promise admits: nothing is cancelled twice, an
      abort only follows a cancel. */
  predicate Admits(p: State, e: Event)
  {
    match e
    case Cancelled => p.Pending?
    case AbortRan => p.Aborting?
    case GoRan(_) => true
  }

  /** Stepping with Advance is the same as judging the whole history. */
  lemma JudgeAdvances(evs: seq<Event>, e: Event)
    requires Admits(Judge(evs), e)
    ensures Judge(evs + [e]) == Advance(Judge(evs), e)
  {
    var all := evs + [e];
    assert all[|evs|] == e;
    if evs != [] {
      assert all[0] == evs[0];
      assert forall x :: x in all <==> x in evs || x == e;
    }
  }
}
