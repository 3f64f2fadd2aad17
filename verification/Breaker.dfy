/** The circuit breakers of the provider router (internal/aiprovider/router.go). Every breaker
    operation holds the router's lock, so a run under any number of callers is a log of operations;
    the clock may read anything. */
module Breaker {

  import opened Common

  const THRESHOLD: nat := 3
  const OPEN_NANOS: int := 30_000_000_000

  datatype Breaker = Breaker(failures: nat, openUntil: Option<int>, halfOpen: bool)

  const CLOSED := Breaker(0, None, false)

  type Table = map<string, Breaker>

  datatype Event =
    | Asked(id: string, now: int)     // may this endpoint be called?
    | Succeeded(id: string)
    | Refused(id: string)             // a failure that retrying cannot help
    | Failed(id: string, now: int)    // a failure worth retrying

  function BreakerOf(t: Table, id: string): Breaker {
    if id in t then t[id] else CLOSED
  }

  predicate Admits(t: Table, id: string, now: int) {
    var b := BreakerOf(t, id);
    b.openUntil.None? || (now >= b.openUntil.value && !b.halfOpen)
  }

  function Step(t: Table, e: Event): Table {
    match e
    case Asked(id, now) =>
      if id in t && t[id].openUntil.Some? && Admits(t, id, now) then t[id := t[id].(halfOpen := true)] else t
    case Succeeded(id) => t - {id}
    case Refused(id) => if id in t then t[id := t[id].(halfOpen := false)] else t
    case Failed(id, now) =>
      var b := BreakerOf(t, id);
      var deadline := if b.failures + 1 >= THRESHOLD then Some(now + OPEN_NANOS) else b.openUntil;
      t[id := Breaker(b.failures + 1, deadline, false)]
  }

  function Run(log: seq<Event>): Table {
    if log == [] then map[] else Step(Run(log[..|log| - 1]), log[|log| - 1])
  }

  // ----- What the log alone says about an endpoint -----

  function FailuresSinceSuccess(log: seq<Event>, id: string): nat {
    if log == [] then 0
    else
      var e, before := log[|log| - 1], FailuresSinceSuccess(log[..|log| - 1], id);
      if e == Succeeded(id) then 0 else if e.Failed? && e.id == id then before + 1 else before
  }

  function LastFailure(log: seq<Event>, id: string): Option<int> {
    if log == [] then None
    else
      var e := log[|log| - 1];
      if e.Failed? && e.id == id then Some(e.now) else LastFailure(log[..|log| - 1], id)
  }

  predicate IsRecord(e: Event, id: string) {
    !e.Asked? && e.id == id
  }

  /** Three failures without a success in between have opened the circuit. */
  predicate IsOpen(log: seq<Event>, id: string) {
    FailuresSinceSuccess(log, id) >= THRESHOLD
  }

  predicate PastDeadline(log: seq<Event>, id: string, now: int) {
    LastFailure(log, id).Some? && now >= LastFailure(log, id).value + OPEN_NANOS
  }

  /** A probe of the open circuit was let through and nothing has been recorded since. */
  predicate ProbeOut(log: seq<Event>, id: string) {
    log != [] &&
    var e, before := log[|log| - 1], log[..|log| - 1];
    if IsRecord(e, id) then false
    else ProbeOut(before, id) || (e.Asked? && e.id == id && IsOpen(before, id) && PastDeadline(before, id, e.now))
  }

  lemma {:induction false} FailuresHaveALast(log: seq<Event>, id: string)
    requires FailuresSinceSuccess(log, id) > 0
    ensures LastFailure(log, id).Some?
  {
    var e := log[|log| - 1];
    if !(e.Failed? && e.id == id) {
      FailuresHaveALast(log[..|log| - 1], id);
    }
  }

  lemma {:induction false} ProbeMeansOpen(log: seq<Event>, id: string)
    ensures ProbeOut(log, id) ==> IsOpen(log, id)
  {
    if log != [] {
      ProbeMeansOpen(log[..|log| - 1], id);
    }
  }

  function Deadline(log: seq<Event>, id: string): Option<int> {
    if IsOpen(log, id) && LastFailure(log, id).Some? then Some(LastFailure(log, id).value + OPEN_NANOS) else None
  }

  /** The breaker the log alone determines. */
  function Expected(log: seq<Event>, id: string): Breaker {
    Breaker(FailuresSinceSuccess(log, id), Deadline(log, id), ProbeOut(log, id))
  }

  ghost predicate Reflects(t: Table, log: seq<Event>, id: string) {
    (id in t <==> FailuresSinceSuccess(log, id) > 0) && BreakerOf(t, id) == Expected(log, id)
  }

  lemma LogSnoc(log: seq<Event>, e: Event, id: string)
    ensures var next := log + [e];
            && FailuresSinceSuccess(next, id) ==
               (if e == Succeeded(id) then 0 else FailuresSinceSuccess(log, id) + if e.Failed? && e.id == id then 1 else 0)
            && LastFailure(next, id) == (if e.Failed? && e.id == id then Some(e.now) else LastFailure(log, id))
            && ProbeOut(next, id) ==
               (!IsRecord(e, id) &&
                (ProbeOut(log, id) || (e.Asked? && e.id == id && IsOpen(log, id) && PastDeadline(log, id, e.now))))
  {
    var next := log + [e];
    assert next[..|next| - 1] == log && next[|next| - 1] == e;
  }

  /** What one event does to the breaker of `id`. */
  function After(b: Breaker, e: Event, id: string): Breaker {
    if e.id != id then b
    else match e
      case Asked(_, now) => if b.openUntil.Some? && now >= b.openUntil.value then b.(halfOpen := true) else b
      case Succeeded(_) => CLOSED
      case Refused(_) => b.(halfOpen := false)
      case Failed(_, now) =>
        Breaker(b.failures + 1, if b.failures + 1 >= THRESHOLD then Some(now + OPEN_NANOS) else None, false)
  }

  lemma ExpectedSnoc(log: seq<Event>, e: Event, id: string)
    ensures Expected(log + [e], id) == After(Expected(log, id), e, id)
  {
    LogSnoc(log, e, id);
    if FailuresSinceSuccess(log, id) > 0 {
      FailuresHaveALast(log, id);
    }
    ProbeMeansOpen(log, id);
  }

  lemma StepIsAfter(t: Table, e: Event, id: string)
    requires id in t <==> BreakerOf(t, id).failures > 0
    requires BreakerOf(t, id).failures < THRESHOLD ==> BreakerOf(t, id).openUntil.None?
    ensures BreakerOf(Step(t, e), id) == After(BreakerOf(t, id), e, id)
    ensures id in Step(t, e) <==> BreakerOf(Step(t, e), id).failures > 0
  {
  }

  lemma StepReflects(t: Table, log: seq<Event>, e: Event, id: string)
    requires Reflects(t, log, id)
    ensures Reflects(Step(t, e), log + [e], id)
  {
    StepIsAfter(t, e, id);
    ExpectedSnoc(log, e, id);
  }

  /** In every run a breaker is a function of the log: it holds the number of failures since the last
      success; it has a deadline iff there were at least three, 30 seconds after the latest; it is half
      open iff a probe is out; and half open implies open. */
  lemma {:induction false} StateIsLog(log: seq<Event>, id: string)
    ensures Reflects(Run(log), log, id)
    ensures BreakerOf(Run(log), id).openUntil.Some? <==> IsOpen(log, id)
    ensures BreakerOf(Run(log), id).halfOpen ==> BreakerOf(Run(log), id).openUntil.Some?
  {
    if log != [] {
      var before, e := log[..|log| - 1], log[|log| - 1];
      StateIsLog(before, id);
      StepReflects(Run(before), before, e, id);
      assert before + [e] == log;
    }
    if FailuresSinceSuccess(log, id) > 0 {
      FailuresHaveALast(log, id);
    }
    ProbeMeansOpen(log, id);
  }

  /** An endpoint is admitted exactly when its circuit is closed, or its 30 seconds are over and no
      probe is out. */
  lemma AdmitsIffClosedOrFirstProbe(log: seq<Event>, id: string, now: int)
    ensures Admits(Run(log), id, now) <==> !IsOpen(log, id) || (PastDeadline(log, id, now) && !ProbeOut(log, id))
  {
    StateIsLog(log, id);
  }

  ghost predicate NoRecord(log: seq<Event>, i: nat, j: nat, id: string) {
    forall k :: i <= k < j && k < |log| ==> !IsRecord(log[k], id)
  }

  lemma {:induction false} ProbeStaysOut(log: seq<Event>, i: nat, j: nat, id: string)
    requires i < j <= |log| && NoRecord(log, i, j, id)
    requires log[i].Asked? && log[i].id == id && IsOpen(log[..i], id) && PastDeadline(log[..i], id, log[i].now)
    ensures ProbeOut(log[..j], id)
  {
    assert log[..j][..j - 1] == log[..j - 1] && log[..j][j - 1] == log[j - 1];
    if i + 1 < j {
      ProbeStaysOut(log, i, j - 1, id);
    }
  }

  /** Once an open circuit has let a probe through at position `i`, no question up to position `j` is
      admitted unless something was recorded for the endpoint in between. */
  lemma OneProbeUntilRecorded(log: seq<Event>, i: nat, j: nat, id: string, now: int)
    requires i < j <= |log| && NoRecord(log, i, j, id)
    requires log[i].Asked? && log[i].id == id && IsOpen(log[..i], id) && Admits(Run(log[..i]), id, log[i].now)
    ensures !Admits(Run(log[..j]), id, now)
  {
    AdmitsIffClosedOrFirstProbe(log[..i], id, log[i].now);
    ProbeStaysOut(log, i, j, id);
    ProbeMeansOpen(log[..j], id);
    AdmitsIffClosedOrFirstProbe(log[..j], id, now);
  }

  /** Endpoints do not influence each other. */
  lemma OtherEndpointsUntouched(log: seq<Event>, e: Event, id: string)
    requires e.id != id
    ensures BreakerOf(Run(log + [e]), id) == BreakerOf(Run(log), id)
  {
    assert (log + [e])[..|log|] == log;
  }
}
