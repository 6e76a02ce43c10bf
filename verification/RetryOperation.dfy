/**
 RetryOnFailureOperation::execute: the retry loop around one remote operation, in its general form and in the
 specialisation for operations without a result. The outside world is a script of attempts, as long as the run
 needs, and the number of cluster switches that will succeed.
 */
module RetryOperation {
  import opened Wrappers

  /** Exceptions by the catch clause they belong to; `Foreign` ones belong to none. */
  datatype Failure =
    | TransportFailure(server: Address)
    | NodeSuspected
    | ClientError
    | UpperBound
    | LowerBound
    | Foreign

  /** The general form, and the specialisation that has no clauses for the two counter bounds. */
  datatype Form = General | Void

  /** What one turn meets: no transport at all, or a transport and then success or failure. */
  datatype Attempt = NoTransport(failure: Failure) | Ran(transport: Transport, problem: Option<Failure>)

  datatype World = World(attempts: nat -> Attempt, switches: nat)

  datatype Event = Borrowed(transport: Transport) | Released(transport: Transport) | Invalidated(transport: Transport)

  datatype Outcome = Returned | Rethrown(failure: Failure) | Escaped(failure: Failure) | InternalError

  datatype Report = Report(outcome: Outcome, trace: seq<Event>, attempts: nat, switched: nat, failed: set<Address>)

  // --------------------------------------------------------------------------- meaning of the loop

  function Problem(a: Attempt): Option<Failure> {
    match a
    case NoTransport(f) => Some(f)
    case Ran(_, problem) => problem
  }

  predicate Caught(form: Form, f: Failure) {
    !f.Foreign? && (form.Void? ==> !f.UpperBound? && !f.LowerBound?)
  }

  /** The attempt fails in a way that the error handler may turn into another attempt. */
  predicate Retriable(a: Attempt) {
    Problem(a).Some? &&
    var f := Problem(a).value;
    f.TransportFailure? || f.NodeSuspected? || f.ClientError?
  }

  /** What becomes of the attempt's transport: a transport failure invalidates it, success and every other
      caught failure release it, and an exception that no clause catches leaves it borrowed. */
  function HandBack(form: Form, a: Attempt): seq<Event> {
    match a
    case NoTransport(_) => []
    case Ran(t, None) => [Borrowed(t), Released(t)]
    case Ran(t, Some(f)) =>
      if !Caught(form, f) then [Borrowed(t)]
      else [Borrowed(t), if f.TransportFailure? then Invalidated(t) else Released(t)]
  }

  function FailedBy(a: Attempt): set<Address> {
    match Problem(a)
    case Some(TransportFailure(server)) => {server}
    case _ => {}
  }

  /** How a turn ends: the run stops, or goes on with the counter as the error handler leaves it. */
  datatype Verdict = Stop(outcome: Outcome) | Again(retryCount: nat, switched: nat)

  function Judge(form: Form, maxRetries: int, a: Attempt, retryCount: nat, left: nat): (r: Verdict)
    ensures r.Again? ==> (r.retryCount == retryCount && r.switched == 0) || (r.switched == 1 <= left)
  {
    match Problem(a)
    case None => Stop(Returned)
    case Some(f) =>
      if !Caught(form, f) then Stop(Escaped(f))
      else if !Retriable(a) then Stop(Rethrown(f))
      else if retryCount < maxRetries - 1 then Again(retryCount, 0)
      else if left > 0 then Again(0, 1)
      else Stop(Rethrown(f))
  }

  const START := Report(InternalError, [], 0, 0, {})

  /** One more attempt on top of what a run has reported so far. */
  function Extend(form: Form, soFar: Report, a: Attempt, verdict: Verdict): Report {
    Report(if verdict.Stop? then verdict.outcome else InternalError,
           soFar.trace + HandBack(form, a), soFar.attempts + 1,
           soFar.switched + if verdict.Again? then verdict.switched else 0,
           soFar.failed + FailedBy(a))
  }

  /** The report of a run that has come as far as `soFar`, with the counter at `retryCount` and `left` good
      switches to come. */
  function Loop(form: Form, maxRetries: int, w: World, retryCount: nat, left: nat, soFar: Report): Report
    decreases left, maxRetries + 1 - retryCount
  {
    if retryCount > maxRetries then soFar.(outcome := InternalError)
    else
      var a := w.attempts(soFar.attempts);
      var verdict := Judge(form, maxRetries, a, retryCount, left);
      var next := Extend(form, soFar, a, verdict);
      match verdict
      case Stop(_) => next
      case Again(count, switched) => Loop(form, maxRetries, w, count + 1, left - switched, next)
  }

  /** One turn of the loop: the run ends with it, or goes on from the longer report. */
  lemma {:induction false} LoopTurn(
      form: Form, maxRetries: int, w: World, retryCount: nat, left: nat, soFar: Report)
    requires retryCount <= maxRetries
    ensures var a := w.attempts(soFar.attempts);
      var verdict := Judge(form, maxRetries, a, retryCount, left);
      Loop(form, maxRetries, w, retryCount, left, soFar)
      == if verdict.Stop? then Extend(form, soFar, a, verdict)
         else Loop(form, maxRetries, w, verdict.retryCount + 1, left - verdict.switched,
                   Extend(form, soFar, a, verdict))
  {
  }

  /** The whole run. */
  function Run(form: Form, maxRetries: int, w: World): Report {
    Loop(form, maxRetries, w, 0, w.switches, START)
  }

  // ------------------------------------------------------------------------------- the code itself

  /** The transport factory as the loop sees it. `trace` records what happens to transports. */
  class Factory {
    const maxRetries: int
    var switchesLeft: nat
    var failedServers: set<Address>
    ghost var trace: seq<Event>

    constructor (maxRetries: int, switches: nat)
      ensures this.maxRetries == maxRetries && switchesLeft == switches && failedServers == {} && trace == []
    {
      this.maxRetries := maxRetries;
      switchesLeft, failedServers, trace := switches, {}, [];
    }

    method GetTransport(a: Attempt) returns (transport: Option<Transport>, thrown: Option<Failure>)
      modifies this`trace
      ensures a.NoTransport? ==> transport == None && thrown == Some(a.failure) && trace == old(trace)
      ensures a.Ran? ==>
        transport == Some(a.transport) && thrown == None && trace == old(trace) + [Borrowed(a.transport)]
    {
      match a
      case NoTransport(f) =>
        transport, thrown := None, Some(f);
      case Ran(t, _) =>
        trace := trace + [Borrowed(t)];
        transport, thrown := Some(t), None;
    }

    method ReleaseTransport(transport: Option<Transport>)
      modifies this`trace
      ensures trace == old(trace) + if transport.Some? then [Released(transport.value)] else []
    {
      if transport.Some? {
        trace := trace + [Released(transport.value)];
      }
    }

    method InvalidateTransport(transport: Option<Transport>)
      modifies this`trace
      ensures trace == old(trace) + if transport.Some? then [Invalidated(transport.value)] else []
    {
      if transport.Some? {
        trace := trace + [Invalidated(transport.value)];
      }
    }

    method ClusterSwitch() returns (switched: bool)
      modifies this`switchesLeft
      ensures switched == (old(switchesLeft) > 0)
      ensures switchesLeft == old(switchesLeft) - if switched then 1 else 0
    {
      switched := switchesLeft > 0;
      if switched {
        switchesLeft := switchesLeft - 1;
      }
    }

    /** logErrorAndThrowExceptionIfNeeded: the counter to go on with, or none when `e` is rethrown. */
    method HandleError(retryCount: nat, e: Failure) returns (verdict: Verdict)
      modifies this`switchesLeft
      ensures verdict == (if retryCount < maxRetries - 1 then Again(retryCount, 0)
                          else if old(switchesLeft) > 0 then Again(0, 1)
                          else Stop(Rethrown(e)))
      ensures switchesLeft == old(switchesLeft) - if verdict.Again? then verdict.switched else 0
    {
      if retryCount >= maxRetries - 1 {
        var switched := ClusterSwitch();
        verdict := if switched then Again(0, 1) else Stop(Rethrown(e));
      } else {
        verdict := Again(retryCount, 0);
      }
    }
  }

  /** One turn of the general loop: the try block and its five catch clauses. */
  method Turn(f: Factory, a: Attempt, retryCount: nat, failed: set<Address>)
    returns (verdict: Verdict, failed': set<Address>)
    modifies f
    ensures verdict == Judge(General, f.maxRetries, a, retryCount, old(f.switchesLeft))
    ensures f.trace == old(f.trace) + HandBack(General, a)
    ensures failed' == failed + FailedBy(a) && f.failedServers == old(f.failedServers)
    ensures f.switchesLeft == old(f.switchesLeft) - if verdict.Again? then verdict.switched else 0
  {
    failed' := failed;
    var transport, thrown := f.GetTransport(a);
    if thrown.None? {
      thrown := a.problem;
      if thrown.None? {
        f.ReleaseTransport(transport);
        return Stop(Returned), failed';
      }
    }
    match thrown.value
    case TransportFailure(server) =>
      failed' := failed' + {server};
      f.InvalidateTransport(transport);
      verdict := f.HandleError(retryCount, thrown.value);
    case NodeSuspected =>
      f.ReleaseTransport(transport);
      verdict := f.HandleError(retryCount, thrown.value);
    case ClientError =>
      f.ReleaseTransport(transport);
      verdict := f.HandleError(retryCount, thrown.value);
    case UpperBound =>
      f.ReleaseTransport(transport);
      verdict := Stop(Rethrown(thrown.value));
    case LowerBound =>
      f.ReleaseTransport(transport);
      verdict := Stop(Rethrown(thrown.value));
    case Foreign =>
      verdict := Stop(Escaped(thrown.value));
  }

  /** One turn of the specialised loop: three catch clauses, and failed servers are kept by the factory. */
  method VoidTurn(f: Factory, a: Attempt, retryCount: nat) returns (verdict: Verdict)
    modifies f
    ensures verdict == Judge(Void, f.maxRetries, a, retryCount, old(f.switchesLeft))
    ensures f.trace == old(f.trace) + HandBack(Void, a)
    ensures f.failedServers == old(f.failedServers) + FailedBy(a)
    ensures f.switchesLeft == old(f.switchesLeft) - if verdict.Again? then verdict.switched else 0
  {
    var transport, thrown := f.GetTransport(a);
    if thrown.None? {
      thrown := a.problem;
      if thrown.None? {
        f.ReleaseTransport(transport);
        return Stop(Returned);
      }
    }
    match thrown.value
    case TransportFailure(server) =>
      f.failedServers := f.failedServers + {server};
      f.InvalidateTransport(transport);
      verdict := f.HandleError(retryCount, thrown.value);
    case NodeSuspected =>
      f.ReleaseTransport(transport);
      verdict := f.HandleError(retryCount, thrown.value);
    case ClientError =>
      f.ReleaseTransport(transport);
      verdict := f.HandleError(retryCount, thrown.value);
    case UpperBound => verdict := Stop(Escaped(thrown.value));
    case LowerBound => verdict := Stop(Escaped(thrown.value));
    case Foreign => verdict := Stop(Escaped(thrown.value));
  }

  method Execute(f: Factory, attempts: nat -> Attempt) returns (outcome: Outcome, failed: set<Address>)
    modifies f
    ensures var r := Run(General, f.maxRetries, World(attempts, old(f.switchesLeft)));
      && outcome == r.outcome && failed == r.failed
      && f.trace == old(f.trace) + r.trace
      && f.switchesLeft == old(f.switchesLeft) - r.switched
      && f.failedServers == old(f.failedServers)
  {
    ghost var w, soFar := World(attempts, f.switchesLeft), START;
    var retryCount, n := 0, 0;
    failed := {};
    while retryCount <= f.maxRetries
      invariant soFar.attempts == n && soFar.failed == failed
      invariant f.trace == old(f.trace) + soFar.trace
      invariant f.switchesLeft == old(f.switchesLeft) - soFar.switched
      invariant f.failedServers == old(f.failedServers)
      invariant Loop(General, f.maxRetries, w, retryCount, f.switchesLeft, soFar) == Run(General, f.maxRetries, w)
      decreases f.switchesLeft, f.maxRetries + 1 - retryCount
    {
      var verdict;
      verdict, failed := Turn(f, attempts(n), retryCount, failed);
      soFar := Extend(General, soFar, attempts(n), verdict);
      n := n + 1;
      match verdict
      case Stop(o) => return o, failed;
      case Again(count, _) => retryCount := count + 1;
    }
    outcome := InternalError;
  }

  method ExecuteVoid(f: Factory, attempts: nat -> Attempt) returns (outcome: Outcome)
    modifies f
    ensures var r := Run(Void, f.maxRetries, World(attempts, old(f.switchesLeft)));
      && outcome == r.outcome
      && f.trace == old(f.trace) + r.trace
      && f.switchesLeft == old(f.switchesLeft) - r.switched
      && f.failedServers == old(f.failedServers) + r.failed
  {
    ghost var w, soFar := World(attempts, f.switchesLeft), START;
    var retryCount, n := 0, 0;
    while retryCount <= f.maxRetries
      invariant soFar.attempts == n
      invariant f.trace == old(f.trace) + soFar.trace
      invariant f.switchesLeft == old(f.switchesLeft) - soFar.switched
      invariant f.failedServers == old(f.failedServers) + soFar.failed
      invariant Loop(Void, f.maxRetries, w, retryCount, f.switchesLeft, soFar) == Run(Void, f.maxRetries, w)
      decreases f.switchesLeft, f.maxRetries + 1 - retryCount
    {
      var verdict := VoidTurn(f, attempts(n), retryCount);
      soFar := Extend(Void, soFar, attempts(n), verdict);
      n := n + 1;
      match verdict
      case Stop(o) => return o;
      case Again(count, _) => retryCount := count + 1;
    }
    outcome := InternalError;
  }

  // ---------------------------------------------------------------------------- transport accounting

  /** Borrows and hand-backs alternate, each hand-back for the transport just borrowed. */
  ghost predicate Paired(trace: seq<Event>) {
    && |trace| % 2 == 0
    && forall i :: 0 <= i < |trace| / 2 ==>
         && trace[2 * i].Borrowed?
         && !trace[2 * i + 1].Borrowed?
         && trace[2 * i + 1].transport == trace[2 * i].transport
  }

  /** Pairs, and then one transport that is never handed back. */
  ghost predicate PairedButLast(trace: seq<Event>) {
    |trace| % 2 == 1 && Paired(trace[..|trace| - 1]) && trace[|trace| - 1].Borrowed?
  }

  /** An attempt keeps the trace in pairs unless it throws what no clause catches while it holds a transport. */
  lemma AttemptPairedIff(form: Form, trace: seq<Event>, a: Attempt)
    requires Paired(trace)
    ensures Paired(trace + HandBack(form, a))
       <==> !(a.Ran? && a.problem.Some? && !Caught(form, a.problem.value))
    ensures Paired(trace + HandBack(form, a)) || PairedButLast(trace + HandBack(form, a))
  {
    var more := trace + HandBack(form, a);
    if |HandBack(form, a)| == 2 {
      forall i | 0 <= i < |more| / 2
        ensures more[2 * i].Borrowed? && !more[2 * i + 1].Borrowed? && more[2 * i + 1].transport == more[2 * i].transport
      {
        if i < |trace| / 2 {
          assert more[2 * i] == trace[2 * i] && more[2 * i + 1] == trace[2 * i + 1];
        }
      }
    } else if |HandBack(form, a)| == 0 {
      assert more == trace;
    } else {
      assert more[..|more| - 1] == trace;
    }
  }

  /** A report of a run that an uncaught exception ended while it held a transport. */
  ghost predicate EscapedHolding(w: World, r: Report) {
    r.outcome.Escaped? && r.attempts > 0 && w.attempts(r.attempts - 1).Ran?
  }

  /** The trace is in pairs, or the report is of a run that lost its last transport. */
  ghost predicate Settled(w: World, r: Report) {
    if EscapedHolding(w, r) then PairedButLast(r.trace) else Paired(r.trace)
  }

  lemma TurnSettles(form: Form, maxRetries: int, w: World, retryCount: nat, left: nat, soFar: Report)
    requires Paired(soFar.trace)
    ensures var a := w.attempts(soFar.attempts);
      var verdict := Judge(form, maxRetries, a, retryCount, left);
      var next := Extend(form, soFar, a, verdict);
      Settled(w, next) && (verdict.Again? ==> Paired(next.trace))
  {
    AttemptPairedIff(form, soFar.trace, w.attempts(soFar.attempts));
  }

  lemma {:induction false} RunSettles(
      form: Form, maxRetries: int, w: World, retryCount: nat, left: nat, soFar: Report)
    requires Paired(soFar.trace)
    ensures Settled(w, Loop(form, maxRetries, w, retryCount, left, soFar))
    decreases left, maxRetries + 1 - retryCount
  {
    if retryCount <= maxRetries {
      var a := w.attempts(soFar.attempts);
      var verdict := Judge(form, maxRetries, a, retryCount, left);
      LoopTurn(form, maxRetries, w, retryCount, left, soFar);
      TurnSettles(form, maxRetries, w, retryCount, left, soFar);
      if verdict.Again? {
        var next := Extend(form, soFar, a, verdict);
        RunSettles(form, maxRetries, w, verdict.retryCount + 1, left - verdict.switched, next);
      }
    }
  }

  /** A trace of pairs, with or without a last unpaired borrow, after its first pair. */
  lemma FirstPair(events: seq<Event>)
    requires |events| >= 2 && (Paired(events) || PairedButLast(events))
    ensures events[0].Borrowed? && !events[1].Borrowed? && events[1].transport == events[0].transport
    ensures Paired(events[2..]) || PairedButLast(events[2..])
    ensures Paired(events) <==> Paired(events[2..])
  {
    if Paired(events) {
      PairedTail(events);
    } else {
      var front := events[..|events| - 1];
      PairedTail(front);
      assert front[0] == events[0] && front[1] == events[1];
      assert events[2..][..|events[2..]| - 1] == front[2..];
    }
  }

  lemma PairedTail(events: seq<Event>)
    requires Paired(events) && |events| >= 2
    ensures events[0].Borrowed? && !events[1].Borrowed? && events[1].transport == events[0].transport
    ensures Paired(events[2..])
  {
    var pair := 2 * 0;
    assert events[pair].Borrowed? && !events[pair + 1].Borrowed? && events[pair + 1].transport == events[pair].transport;
    forall i | 0 <= i < |events[2..]| / 2
      ensures events[2..][2 * i].Borrowed? && !events[2..][2 * i + 1].Borrowed?
           && events[2..][2 * i + 1].transport == events[2..][2 * i].transport
    {
      var j := i + 1;
      assert events[2 * j].Borrowed? && !events[2 * j + 1].Borrowed?
          && events[2 * j + 1].transport == events[2 * j].transport;
    }
  }

  // --------------------------------------------------------- what happens to each transport, by attempt

  /** How many of the first `n` attempts got a transport. */
  ghost function RanBefore(w: World, n: nat): nat {
    if n == 0 then 0 else RanBefore(w, n - 1) + if w.attempts(n - 1).Ran? then 1 else 0
  }

  lemma {:induction false} RanGrows(w: World, m: nat, n: nat)
    requires m <= n
    ensures RanBefore(w, m) <= RanBefore(w, n)
    ensures m < n && w.attempts(m).Ran? ==> RanBefore(w, m) < RanBefore(w, n)
    decreases n - m
  {
    if m < n {
      RanGrows(w, m, n - 1);
    }
  }

  /** The kinds of failure after which a transport goes back to the pool. */
  ghost predicate ReleasedAfter(form: Form, f: Failure) {
    f == NodeSuspected || f == ClientError || (form == General && (f == UpperBound || f == LowerBound))
  }

  /** From `at` on the trace tells of attempt `a`: its transport is borrowed, then invalidated after a transport
      failure, released after success or another caught failure, and kept after anything else. */
  ghost predicate Tells(form: Form, trace: seq<Event>, at: nat, a: Attempt)
    requires a.Ran?
  {
    && at < |trace| && trace[at] == Borrowed(a.transport)
    && match a.problem
       case None => at + 1 < |trace| && trace[at + 1] == Released(a.transport)
       case Some(f) =>
         if f.TransportFailure? then at + 1 < |trace| && trace[at + 1] == Invalidated(a.transport)
         else if ReleasedAfter(form, f) then at + 1 < |trace| && trace[at + 1] == Released(a.transport)
         else at + 1 == |trace|
  }

  lemma TellsHandBack(form: Form, trace: seq<Event>, a: Attempt)
    requires a.Ran?
    ensures Tells(form, trace + HandBack(form, a), |trace|, a)
  {
  }

  lemma TellsStill(form: Form, trace: seq<Event>, at: nat, a: Attempt, more: seq<Event>)
    requires a.Ran? && Tells(form, trace, at, a) && at + 1 < |trace|
    ensures Tells(form, trace + more, at, a)
  {
  }

  /** A transport failure of one of the first `n` attempts names server `s`. */
  ghost predicate NamedBy(w: World, n: nat, s: Address) {
    exists i :: 0 <= i < n && Problem(w.attempts(i)) == Some(TransportFailure(s))
  }

  /** The failures after which the loop may try again. */
  ghost predicate TriedAgainAfter(a: Attempt) {
    exists f :: Problem(a) == Some(f) && (f.TransportFailure? || f == NodeSuspected || f == ClientError)
  }

  /** The trace tells what became of each attempt's transport. */
  ghost predicate TraceTold(form: Form, w: World, r: Report) {
    forall n :: 0 <= n < r.attempts && w.attempts(n).Ran? ==>
      Tells(form, r.trace, 2 * RanBefore(w, n), w.attempts(n))
  }

  ghost predicate FailedTold(w: World, r: Report) {
    forall s :: s in r.failed <==> NamedBy(w, r.attempts, s)
  }

  /** The first `m` attempts failed in a way after which the loop may try again. */
  ghost predicate TriedTold(w: World, m: int) {
    forall n :: 0 <= n < m ==> TriedAgainAfter(w.attempts(n))
  }

  /** A run that goes on: every transport so far was handed back. */
  ghost predicate AllBack(form: Form, w: World, r: Report) {
    TraceTold(form, w, r) && |r.trace| == 2 * RanBefore(w, r.attempts)
  }

  lemma FailedGrows(w: World, n: nat, failed: set<Address>)
    requires forall s :: s in failed <==> NamedBy(w, n, s)
    ensures forall s :: s in failed + FailedBy(w.attempts(n)) <==> NamedBy(w, n + 1, s)
  {
    forall s ensures s in failed + FailedBy(w.attempts(n)) <==> NamedBy(w, n + 1, s) {
      if NamedBy(w, n + 1, s) {
        var i :| 0 <= i < n + 1 && Problem(w.attempts(i)) == Some(TransportFailure(s));
        assert i < n ==> NamedBy(w, n, s);
      }
    }
  }

  /** Older attempts are told of as before. */
  lemma OlderTold(form: Form, w: World, r: Report, more: seq<Event>, n: nat)
    requires AllBack(form, w, r) && n < r.attempts && w.attempts(n).Ran?
    ensures Tells(form, r.trace + more, 2 * RanBefore(w, n), w.attempts(n))
  {
    RanGrows(w, n, r.attempts);
    TellsStill(form, r.trace, 2 * RanBefore(w, n), w.attempts(n), more);
  }

  lemma ExtendTells(form: Form, w: World, soFar: Report, verdict: Verdict)
    requires AllBack(form, w, soFar)
    ensures var a := w.attempts(soFar.attempts);
      var next := Extend(form, soFar, a, verdict);
      TraceTold(form, w, next) && (Retriable(a) ==> AllBack(form, w, next))
  {
    var now := soFar.attempts;
    var a := w.attempts(now);
    var next := Extend(form, soFar, a, verdict);
    forall n | 0 <= n < next.attempts && w.attempts(n).Ran?
      ensures Tells(form, next.trace, 2 * RanBefore(w, n), w.attempts(n))
    {
      if n == now {
        TellsHandBack(form, soFar.trace, a);
      } else {
        OlderTold(form, w, soFar, HandBack(form, a), n);
      }
    }
  }

  lemma {:induction false} RunTellsTrace(
      form: Form, maxRetries: int, w: World, retryCount: nat, left: nat, soFar: Report)
    requires AllBack(form, w, soFar)
    ensures TraceTold(form, w, Loop(form, maxRetries, w, retryCount, left, soFar))
    decreases left, maxRetries + 1 - retryCount
  {
    if retryCount <= maxRetries {
      var a := w.attempts(soFar.attempts);
      var verdict := Judge(form, maxRetries, a, retryCount, left);
      var next := Extend(form, soFar, a, verdict);
      LoopTurn(form, maxRetries, w, retryCount, left, soFar);
      ExtendTells(form, w, soFar, verdict);
      if verdict.Again? {
        RunTellsTrace(form, maxRetries, w, verdict.retryCount + 1, left - verdict.switched, next);
      } else {
        assert Loop(form, maxRetries, w, retryCount, left, soFar) == next;
      }
    }
  }

  lemma {:induction false} RunTellsFailed(
      form: Form, maxRetries: int, w: World, retryCount: nat, left: nat, soFar: Report)
    requires FailedTold(w, soFar) && TriedTold(w, soFar.attempts)
    ensures var r := Loop(form, maxRetries, w, retryCount, left, soFar);
      FailedTold(w, r) && TriedTold(w, r.attempts - 1)
    decreases left, maxRetries + 1 - retryCount
  {
    if retryCount <= maxRetries {
      var a := w.attempts(soFar.attempts);
      var verdict := Judge(form, maxRetries, a, retryCount, left);
      var next := Extend(form, soFar, a, verdict);
      LoopTurn(form, maxRetries, w, retryCount, left, soFar);
      FailedGrows(w, soFar.attempts, soFar.failed);
      assert FailedTold(w, next);
      if verdict.Again? {
        assert TriedAgainAfter(a);
        RunTellsFailed(form, maxRetries, w, verdict.retryCount + 1, left - verdict.switched, next);
      } else {
        assert Loop(form, maxRetries, w, retryCount, left, soFar) == next;
      }
    }
  }

  /** The hand-back of each attempt, in the order of the attempts: invalidated exactly after a transport failure,
      released exactly after success or another caught failure. */
  lemma HandBackByAttempt(form: Form, maxRetries: int, w: World, n: nat)
    requires n < Run(form, maxRetries, w).attempts && w.attempts(n).Ran?
    ensures var trace, at, a := Run(form, maxRetries, w).trace, 2 * RanBefore(w, n), w.attempts(n);
      && at < |trace| && trace[at] == Borrowed(a.transport)
      && (at + 1 < |trace| && trace[at + 1] == Invalidated(a.transport)
          <==> a.problem.Some? && a.problem.value.TransportFailure?)
      && (at + 1 < |trace| && trace[at + 1] == Released(a.transport)
          <==> a.problem == None || ReleasedAfter(form, a.problem.value))
  {
    RunTellsTrace(form, maxRetries, w, 0, w.switches, START);
  }

  /** The servers reported as failed are exactly those named by the transport failures met, and the loop goes on
      only after a transport failure, a suspected node or another client exception. */
  lemma FailedByAttempt(form: Form, maxRetries: int, w: World)
    ensures var r := Run(form, maxRetries, w);
      && (forall s :: s in r.failed <==> NamedBy(w, r.attempts, s))
      && (forall n :: 0 <= n < r.attempts - 1 ==> TriedAgainAfter(w.attempts(n)))
  {
    RunTellsFailed(form, maxRetries, w, 0, w.switches, START);
  }

  /** The outcome that an attempt which ends the run gives it. */
  ghost predicate EndsAs(form: Form, a: Attempt, outcome: Outcome) {
    match Problem(a)
    case None => outcome == Returned
    case Some(f) => outcome == if f.TransportFailure? || ReleasedAfter(form, f) then Rethrown(f) else Escaped(f)
  }

  lemma {:induction false} EndsByLast(form: Form, maxRetries: int, w: World, retryCount: nat, left: nat, soFar: Report)
    ensures var r := Loop(form, maxRetries, w, retryCount, left, soFar);
      r.outcome != InternalError ==> r.attempts > 0 && EndsAs(form, w.attempts(r.attempts - 1), r.outcome)
    decreases left, maxRetries + 1 - retryCount
  {
    if retryCount <= maxRetries {
      var a := w.attempts(soFar.attempts);
      var verdict := Judge(form, maxRetries, a, retryCount, left);
      var next := Extend(form, soFar, a, verdict);
      LoopTurn(form, maxRetries, w, retryCount, left, soFar);
      if verdict.Again? {
        EndsByLast(form, maxRetries, w, verdict.retryCount + 1, left - verdict.switched, next);
      } else {
        assert EndsAs(form, a, verdict.outcome);
        assert Loop(form, maxRetries, w, retryCount, left, soFar) == next;
      }
    }
  }

  /** How a run ends is told by its last attempt: it returns after success, rethrows a caught failure and lets
      any other escape. */
  lemma OutcomeByLastAttempt(form: Form, maxRetries: int, w: World)
    requires maxRetries >= 1
    ensures var r := Run(form, maxRetries, w);
      r.attempts > 0 && EndsAs(form, w.attempts(r.attempts - 1), r.outcome)
  {
    NeverInternal(form, maxRetries, w, 0, w.switches, START);
    EndsByLast(form, maxRetries, w, 0, w.switches, START);
  }

  // ------------------------------------------------------------------------------ how a run ends

  lemma {:induction false} NeverInternal(
      form: Form, maxRetries: int, w: World, retryCount: nat, left: nat, soFar: Report)
    requires maxRetries >= 1 && retryCount <= maxRetries
    ensures Loop(form, maxRetries, w, retryCount, left, soFar).outcome != InternalError
    decreases left, maxRetries + 1 - retryCount
  {
    var a := w.attempts(soFar.attempts);
    var verdict := Judge(form, maxRetries, a, retryCount, left);
    LoopTurn(form, maxRetries, w, retryCount, left, soFar);
    if verdict.Again? {
      var next := Extend(form, soFar, a, verdict);
      NeverInternal(form, maxRetries, w, verdict.retryCount + 1, left - verdict.switched, next);
    }
  }

  /** The error the code calls unreachable: it is reached exactly with a negative limit, or with a limit of
      zero when the only attempt fails and a cluster switch succeeds. */
  lemma InternalErrorIff(form: Form, maxRetries: int, w: World)
    ensures Run(form, maxRetries, w).outcome == InternalError
       <==> maxRetries < 0 || (maxRetries == 0 && Retriable(w.attempts(0)) && w.switches > 0)
  {
    if maxRetries >= 1 {
      NeverInternal(form, maxRetries, w, 0, w.switches, START);
    } else if maxRetries == 0 {
      var verdict := Judge(form, 0, w.attempts(0), 0, w.switches);
      if verdict.Again? {
        var next := Extend(form, START, w.attempts(0), verdict);
        assert Loop(form, 0, w, 1, w.switches - 1, next).outcome == InternalError;
      }
    }
  }

  /** Attempts allowed by `left` further rounds of `m` each. */
  function Rounds(left: nat, m: nat): nat {
    if left == 0 then 0 else m + Rounds(left - 1, m)
  }

  lemma {:induction false} RoundsIsProduct(left: nat, m: nat)
    ensures Rounds(left, m) == left * m
  {
    if left > 0 {
      RoundsIsProduct(left - 1, m);
    }
  }

  /** Attempts allowed from a given counter on: a switch restarts the counter at one. */
  function Budget(maxRetries: int, retryCount: nat, left: nat): int {
    Max(1, maxRetries - retryCount) + Rounds(left, Max(1, maxRetries - 1))
  }

  /** An attempt that may be repeated costs one; a switch pays for its round. */
  lemma {:induction false} BudgetShrinks(maxRetries: int, retryCount: nat, left: nat)
    requires 1 <= maxRetries && retryCount <= maxRetries
    ensures retryCount < maxRetries - 1 ==>
      Budget(maxRetries, retryCount, left) == 1 + Budget(maxRetries, retryCount + 1, left)
    ensures retryCount >= maxRetries - 1 && left > 0 ==>
      Budget(maxRetries, retryCount, left) == 1 + Budget(maxRetries, 1, left - 1)
    ensures retryCount >= maxRetries - 1 && left == 0 ==> Budget(maxRetries, retryCount, left) == 1
    ensures Budget(maxRetries, retryCount, left) >= 1
  {
  }

  /** The most attempts that a run can make. */
  function Limit(maxRetries: int, switches: nat): nat {
    if maxRetries < 0 then 0
    else if maxRetries == 0 then 1
    else
      assert switches * Max(1, maxRetries - 1) >= 0;
      maxRetries + switches * Max(1, maxRetries - 1)
  }

  /** The attempt throws what no clause catches while it holds a transport. */
  predicate Loses(form: Form, a: Attempt) {
    a.Ran? && a.problem.Some? && !Caught(form, a.problem.value)
  }

  /** From attempt `from` on, everything fails in a retriable way up to attempt `n`, which loses its transport. */
  ghost predicate LosesAt(form: Form, w: World, from: nat, n: nat) {
    from <= n && Loses(form, w.attempts(n)) && forall i :: from <= i < n ==> Retriable(w.attempts(i))
  }

  /** The world has an attempt in store that loses its transport, within the attempts allowed and behind
      nothing but retriable failures. */
  ghost predicate LosesTransport(form: Form, maxRetries: int, w: World) {
    exists n: nat :: n < Limit(maxRetries, w.switches) && LosesAt(form, w, 0, n)
  }

  /** Behind a retriable failure, losing is a matter of the attempts that follow. */
  lemma LosesLater(form: Form, w: World, from: nat, next: nat)
    requires next == from + 1 && Retriable(w.attempts(from))
    ensures forall n: nat {:trigger LosesAt(form, w, from, n)} {:trigger LosesAt(form, w, next, n)} ::
              LosesAt(form, w, from, n) <==> LosesAt(form, w, next, n)
  {
    forall n: nat ensures LosesAt(form, w, from, n) <==> LosesAt(form, w, next, n) {
      if LosesAt(form, w, from, n) {
        assert n != from;
      }
    }
  }

  /** The attempts that retriable failures use up from a given counter on. */
  function Allowed(maxRetries: int, retryCount: nat, left: nat): nat
    requires 1 <= maxRetries && retryCount <= maxRetries
    decreases left, maxRetries + 1 - retryCount
  {
    if retryCount < maxRetries - 1 then 1 + Allowed(maxRetries, retryCount + 1, left)
    else if left > 0 then 1 + Allowed(maxRetries, 1, left - 1)
    else 1
  }

  lemma {:induction false} AllowedIsBudget(maxRetries: int, retryCount: nat, left: nat)
    requires 1 <= maxRetries && retryCount <= maxRetries
    ensures Allowed(maxRetries, retryCount, left) == Budget(maxRetries, retryCount, left)
    decreases left, maxRetries + 1 - retryCount
  {
    BudgetShrinks(maxRetries, retryCount, left);
    if retryCount < maxRetries - 1 {
      AllowedIsBudget(maxRetries, retryCount + 1, left);
    } else if left > 0 {
      AllowedIsBudget(maxRetries, 1, left - 1);
    }
  }

  /** `limit` is one past the last attempt that the run can still make. */
  ghost predicate EndsBy(maxRetries: int, retryCount: nat, left: nat, soFar: Report, limit: int)
    requires 1 <= maxRetries && retryCount <= maxRetries
  {
    limit == soFar.attempts + Allowed(maxRetries, retryCount, left)
  }

  /** Going on does not move the end, and stopping at a retriable failure means that it is reached. */
  lemma EndStays(form: Form, maxRetries: int, a: Attempt, retryCount: nat, left: nat, soFar: Report, limit: int)
    requires 1 <= maxRetries && retryCount <= maxRetries && EndsBy(maxRetries, retryCount, left, soFar, limit)
    ensures soFar.attempts < limit
    ensures var verdict := Judge(form, maxRetries, a, retryCount, left);
      var next := Extend(form, soFar, a, verdict);
      if verdict.Again? then
        && Retriable(a) && verdict.retryCount + 1 <= maxRetries && verdict.switched <= left
        && EndsBy(maxRetries, verdict.retryCount + 1, left - verdict.switched, next, limit)
      else
        Retriable(a) ==> next.attempts == limit && left == 0 && verdict.outcome.Rethrown?
  {
  }

  /** A run loses a transport exactly when such an attempt comes before its end. */
  lemma {:induction false} EscapesIff(
      form: Form, maxRetries: int, w: World, retryCount: nat, left: nat, soFar: Report, limit: int)
    requires 1 <= maxRetries && retryCount <= maxRetries && EndsBy(maxRetries, retryCount, left, soFar, limit)
    ensures EscapedHolding(w, Loop(form, maxRetries, w, retryCount, left, soFar))
       <==> exists n: nat :: n < limit && LosesAt(form, w, soFar.attempts, n)
    decreases left, maxRetries + 1 - retryCount
  {
    var from := soFar.attempts;
    var a := w.attempts(from);
    var verdict := Judge(form, maxRetries, a, retryCount, left);
    var next := Extend(form, soFar, a, verdict);
    LoopTurn(form, maxRetries, w, retryCount, left, soFar);
    EndStays(form, maxRetries, a, retryCount, left, soFar, limit);
    if verdict.Again? {
      EscapesIff(form, maxRetries, w, verdict.retryCount + 1, left - verdict.switched, next, limit);
      LosesLater(form, w, from, next.attempts);
    } else {
      StopIff(form, maxRetries, w, a, verdict, next, from, limit);
    }
  }

  /** The last turn: nothing behind it can lose a transport. */
  lemma StopIff(form: Form, maxRetries: int, w: World, a: Attempt, verdict: Verdict, next: Report, from: nat, limit: int)
    requires a == w.attempts(from) && from < limit && next.attempts == from + 1 && verdict.Stop?
    requires next.outcome == verdict.outcome
    requires verdict.outcome.Escaped? <==> Problem(a).Some? && !Caught(form, Problem(a).value)
    requires Retriable(a) ==> next.attempts == limit
    ensures EscapedHolding(w, next) <==> exists n: nat :: n < limit && LosesAt(form, w, from, n)
  {
    if Loses(form, a) {
      assert LosesAt(form, w, from, from);
    }
    forall n: nat | LosesAt(form, w, from, n) ensures n == from || Retriable(a) {
    }
  }

  lemma LimitIs(maxRetries: int, switches: nat)
    requires 1 <= maxRetries
    ensures EndsBy(maxRetries, 0, switches, START, Limit(maxRetries, switches))
  {
    AllowedIsBudget(maxRetries, 0, switches);
    RoundsIsProduct(switches, Max(1, maxRetries - 1));
  }

  /** Which runs lose a transport, told from the world alone. */
  lemma RunEscapesIff(form: Form, maxRetries: int, w: World)
    ensures EscapedHolding(w, Run(form, maxRetries, w)) <==> LosesTransport(form, maxRetries, w)
  {
    if maxRetries >= 1 {
      LimitIs(maxRetries, w.switches);
      EscapesIff(form, maxRetries, w, 0, w.switches, START, Limit(maxRetries, w.switches));
    } else if maxRetries == 0 {
      var verdict := Judge(form, 0, w.attempts(0), 0, w.switches);
      LoopTurn(form, 0, w, 0, w.switches, START);
      if verdict.Again? {
        assert Loop(form, 0, w, 1, w.switches - 1, Extend(form, START, w.attempts(0), verdict)).outcome == InternalError;
      }
      assert Loses(form, w.attempts(0)) ==> LosesAt(form, w, 0, 0);
    }
  }

  /** Each borrowed transport is handed back exactly once, before the next one is borrowed, exactly when no
      attempt that can be reached, within the attempts allowed and behind nothing but retriable failures, throws
      what no clause catches while it holds a transport; otherwise that one transport is lost. */
  lemma EveryTransportHandedBackIff(form: Form, maxRetries: int, w: World)
    ensures var trace := Run(form, maxRetries, w).trace;
      && (Paired(trace) <==> !LosesTransport(form, maxRetries, w))
      && (PairedButLast(trace) <==> LosesTransport(form, maxRetries, w))
  {
    RunSettles(form, maxRetries, w, 0, w.switches, START);
    RunEscapesIff(form, maxRetries, w);
  }

  /** So if all failures are of the caught kinds, every transport is handed back exactly once on every path. */
  lemma EveryTransportHandedBack(form: Form, maxRetries: int, w: World)
    requires forall i: nat :: Problem(w.attempts(i)).Some? ==> Caught(form, Problem(w.attempts(i)).value)
    ensures Paired(Run(form, maxRetries, w).trace)
  {
    EveryTransportHandedBackIff(form, maxRetries, w);
    forall n: nat ensures !Loses(form, w.attempts(n)) {
      assert Problem(w.attempts(n)).Some? ==> Caught(form, Problem(w.attempts(n)).value);
    }
  }

  /** The input: an operation that borrows a transport and then meets an exception of another kind, such as the
      one that a failed system call raises. Both forms of the loop lose the transport. */
  lemma ForeignLosesTransport(form: Form, maxRetries: nat, w: World, t: Transport)
    requires w.attempts(0) == Ran(t, Some(Foreign))
    ensures Run(form, maxRetries, w).trace == [Borrowed(t)]
    ensures LosesTransport(form, maxRetries, w)
  {
    LoopTurn(form, maxRetries, w, 0, w.switches, START);
    assert LosesAt(form, w, 0, 0);
  }

  /** No run goes beyond its end or uses more switches than there are, and one whose last failure is retriable
      has come to its end, used every switch and rethrows. */
  lemma {:induction false} AttemptsWithin(
      form: Form, maxRetries: int, w: World, retryCount: nat, left: nat, soFar: Report, limit: int)
    requires 1 <= maxRetries && retryCount <= maxRetries && EndsBy(maxRetries, retryCount, left, soFar, limit)
    ensures var r := Loop(form, maxRetries, w, retryCount, left, soFar);
      && 0 < r.attempts <= limit && r.switched <= soFar.switched + left
      && (Retriable(w.attempts(r.attempts - 1)) ==>
            r.attempts == limit && r.switched == soFar.switched + left && r.outcome.Rethrown?)
    decreases left, maxRetries + 1 - retryCount
  {
    var a := w.attempts(soFar.attempts);
    var verdict := Judge(form, maxRetries, a, retryCount, left);
    var next := Extend(form, soFar, a, verdict);
    LoopTurn(form, maxRetries, w, retryCount, left, soFar);
    EndStays(form, maxRetries, a, retryCount, left, soFar, limit);
    if verdict.Again? {
      AttemptsWithin(form, maxRetries, w, verdict.retryCount + 1, left - verdict.switched, next, limit);
    } else {
      assert Loop(form, maxRetries, w, retryCount, left, soFar) == next;
      assert w.attempts(next.attempts - 1) == a;
    }
  }

  ghost predicate AlwaysFails(w: World) {
    forall i: nat :: TriedAgainAfter(w.attempts(i))
  }

  /** What a run rethrows is the failure of its last attempt. */
  lemma {:induction false} RethrowsLast(
      form: Form, maxRetries: int, w: World, retryCount: nat, left: nat, soFar: Report)
    ensures var r := Loop(form, maxRetries, w, retryCount, left, soFar);
      r.outcome.Rethrown? ==>
        r.attempts >= 1 && Problem(w.attempts(r.attempts - 1)) == Some(r.outcome.failure)
    decreases left, maxRetries + 1 - retryCount
  {
    if retryCount <= maxRetries {
      var a := w.attempts(soFar.attempts);
      var verdict := Judge(form, maxRetries, a, retryCount, left);
      LoopTurn(form, maxRetries, w, retryCount, left, soFar);
      if verdict.Again? {
        var next := Extend(form, soFar, a, verdict);
        RethrowsLast(form, maxRetries, w, verdict.retryCount + 1, left - verdict.switched, next);
      }
    }
  }

  /** With a limit of M >= 1 and s successful cluster switches, an operation that keeps failing makes exactly
      M + s * max(1, M - 1) attempts and then rethrows its last failure. */
  lemma AttemptCount(form: Form, maxRetries: int, w: World)
    requires maxRetries >= 1 && AlwaysFails(w)
    ensures var r := Run(form, maxRetries, w);
      && r.attempts == maxRetries + w.switches * Max(1, maxRetries - 1)
      && r.switched == w.switches
      && r.attempts >= 1 && r.outcome.Rethrown?
      && Problem(w.attempts(r.attempts - 1)) == Some(r.outcome.failure)
  {
    LimitIs(maxRetries, w.switches);
    AttemptsWithin(form, maxRetries, w, 0, w.switches, START, Limit(maxRetries, w.switches));
    assert TriedAgainAfter(w.attempts(Run(form, maxRetries, w).attempts - 1));
    RethrowsLast(form, maxRetries, w, 0, w.switches, START);
  }
}
