/** Failover over a provider's endpoints (internal/aiprovider/router.go). The clock, the clients, the
    retry sleep and the other callers' breaker operations are inputs. */
module Router {

  import opened Common
  import B = Breaker

  datatype Endpoint = Endpoint(
    id: string, enabled: bool, priority: int, maxRetries: int, modelOverride: string, style: string)

  datatype Reply = Success | FinalFailure | RetryableFailure

  /** Other callers operate on the breakers before this caller asks about its i-th endpoint and while
      it waits for its k-th client call; the clock is read at both points. */
  datatype World = World(
    auditReady: (Endpoint, string) -> bool, hasClient: string -> bool, replies: nat -> Reply,
    sleepFails: nat -> bool, clockAsking: nat -> int, clockFailing: nat -> int,
    othersAsking: nat -> seq<B.Event>, othersCalling: nat -> seq<B.Event>)

  datatype Request = Request(model: string, providerModel: string, formalAudit: bool)

  function ModelFor(e: Endpoint, q: Request): string {
    if e.modelOverride != "" then e.modelOverride else if q.model != "" then q.model else q.providerModel
  }

  predicate Eligible(e: Endpoint, q: Request, w: World) {
    e.enabled && (q.formalAudit ==> w.auditReady(e, ModelFor(e, q)))
  }

  function Attempts(e: Endpoint): (n: nat)
    ensures n >= 1 && (e.maxRetries >= 0 ==> n == e.maxRetries + 1) && (e.maxRetries < 0 ==> n == 1)
  {
    if e.maxRetries + 1 < 1 then 1 else e.maxRetries + 1
  }

  function Budget(es: seq<Endpoint>): nat {
    if es == [] then 0 else Budget(es[..|es| - 1]) + Attempts(es[|es| - 1])
  }

  // ----- Stable order by priority -----

  predicate ByPriority(es: seq<Endpoint>) {
    forall i, j :: 0 <= i < j < |es| ==> es[i].priority <= es[j].priority
  }

  function OfPriority(es: seq<Endpoint>, p: int): seq<Endpoint> {
    if es == [] then []
    else OfPriority(es[..|es| - 1], p) + if es[|es| - 1].priority == p then [es[|es| - 1]] else []
  }

  /** Behind every endpoint that is not strictly less urgent. */
  function Inserted(es: seq<Endpoint>, e: Endpoint): seq<Endpoint> {
    if es == [] || es[|es| - 1].priority <= e.priority then es + [e]
    else Inserted(es[..|es| - 1], e) + [es[|es| - 1]]
  }

  function StableSort(es: seq<Endpoint>): seq<Endpoint> {
    if es == [] then [] else Inserted(StableSort(es[..|es| - 1]), es[|es| - 1])
  }

  lemma OfPrioritySnoc(es: seq<Endpoint>, e: Endpoint, p: int)
    ensures OfPriority(es + [e], p) == OfPriority(es, p) + if e.priority == p then [e] else []
  {
    assert (es + [e])[..|es|] == es;
  }

  lemma BudgetSnoc(es: seq<Endpoint>, e: Endpoint)
    ensures Budget(es + [e]) == Budget(es) + Attempts(e)
  {
    assert (es + [e])[..|es|] == es;
  }

  lemma {:induction false} InsertedMultiset(es: seq<Endpoint>, e: Endpoint)
    ensures multiset(Inserted(es, e)) == multiset(es) + multiset{e}
  {
    if es != [] && es[|es| - 1].priority > e.priority {
      var front, last := es[..|es| - 1], es[|es| - 1];
      assert es == front + [last];
      InsertedMultiset(front, e);
    }
  }

  lemma {:induction false} InsertedMembers(es: seq<Endpoint>, e: Endpoint, x: Endpoint)
    requires x in Inserted(es, e)
    ensures x in es || x == e
  {
    if es != [] && es[|es| - 1].priority > e.priority && x != es[|es| - 1] {
      InsertedMembers(es[..|es| - 1], e, x);
    }
  }

  lemma ByPrioritySnoc(es: seq<Endpoint>, last: Endpoint)
    requires ByPriority(es) && forall x :: x in es ==> x.priority <= last.priority
    ensures ByPriority(es + [last])
  {
  }

  lemma {:induction false} InsertedByPriority(es: seq<Endpoint>, e: Endpoint)
    requires ByPriority(es)
    ensures ByPriority(Inserted(es, e))
  {
    if es == [] || es[|es| - 1].priority <= e.priority {
      ByPrioritySnoc(es, e);
    } else {
      var front, last := es[..|es| - 1], es[|es| - 1];
      InsertedByPriority(front, e);
      forall x | x in Inserted(front, e)
        ensures x.priority <= last.priority
      {
        InsertedMembers(front, e, x);
      }
      ByPrioritySnoc(Inserted(front, e), last);
    }
  }

  lemma {:induction false} InsertedBudget(es: seq<Endpoint>, e: Endpoint)
    ensures Budget(Inserted(es, e)) == Budget(es) + Attempts(e)
  {
    if es == [] || es[|es| - 1].priority <= e.priority {
      BudgetSnoc(es, e);
    } else {
      InsertedBudget(es[..|es| - 1], e);
      BudgetSnoc(Inserted(es[..|es| - 1], e), es[|es| - 1]);
    }
  }

  lemma {:induction false} InsertedStable(es: seq<Endpoint>, e: Endpoint, p: int)
    requires ByPriority(es)
    ensures OfPriority(Inserted(es, e), p) == OfPriority(es, p) + if e.priority == p then [e] else []
  {
    if es == [] || es[|es| - 1].priority <= e.priority {
      OfPrioritySnoc(es, e, p);
    } else {
      var front, last := es[..|es| - 1], es[|es| - 1];
      InsertedStable(front, e, p);
      OfPrioritySnoc(Inserted(front, e), last, p);
    }
  }

  /** The order calls are made in: by priority, equal priorities as configured, nothing lost. */
  lemma {:induction false} SortIsStable(es: seq<Endpoint>, p: int)
    ensures ByPriority(StableSort(es)) && multiset(StableSort(es)) == multiset(es)
    ensures OfPriority(StableSort(es), p) == OfPriority(es, p)
    ensures Budget(StableSort(es)) == Budget(es)
  {
    if es != [] {
      var front, last := es[..|es| - 1], es[|es| - 1];
      assert es == front + [last];
      SortIsStable(front, p);
      InsertedMultiset(StableSort(front), last);
      InsertedByPriority(StableSort(front), last);
      InsertedBudget(StableSort(front), last);
      InsertedStable(StableSort(front), last, p);
    }
  }

  // ----- Trials -----

  /** What became of one endpoint. */
  datatype Trial = Skipped | CircuitOpen | NoClient | Tried(calls: nat)

  function CallsOf(t: Trial): nat {
    if t.Tried? then t.calls else 0
  }

  function Total(ts: seq<Trial>): nat {
    if ts == [] then 0 else Total(ts[..|ts| - 1]) + CallsOf(ts[|ts| - 1])
  }

  ghost predicate AskedAt(log: seq<B.Event>, at: nat, id: string, admitted: bool) {
    && at < |log| && log[at].Asked? && log[at].id == id
    && B.Admits(B.Run(log[..at]), id, log[at].now) == admitted
  }

  /** `at` is where in the breaker log this endpoint was asked about. */
  ghost predicate TrialFits(log: seq<B.Event>, e: Endpoint, eligible: bool, t: Trial, at: nat) {
    match t
    case Skipped => !eligible
    case CircuitOpen => eligible && AskedAt(log, at, e.id, false)
    case NoClient => eligible && AskedAt(log, at, e.id, true)
    case Tried(n) => eligible && AskedAt(log, at, e.id, true) && 1 <= n <= Attempts(e)
  }

  /** The endpoint got every attempt it is entitled to. */
  predicate Exhausted(e: Endpoint, t: Trial) {
    t.Skipped? || t.CircuitOpen? || (t.Tried? && t.calls == Attempts(e))
  }

  ghost predicate TrialsFit(log: seq<B.Event>, es: seq<Endpoint>, q: Request, w: World, ts: seq<Trial>, ats: seq<nat>) {
    && |ts| <= |es| && |ats| == |ts|
    && (forall i :: 0 <= i < |ts| ==> TrialFits(log, es[i], Eligible(es[i], q, w), ts[i], ats[i]))
    && (forall i :: 0 <= i < |ts| - 1 ==> Exhausted(es[i], ts[i]))
  }

  /** A client call as the breakers are told of it. */
  datatype CallRecord = CallRecord(id: string, reply: Reply)

  function RecordOf(e: B.Event): seq<CallRecord> {
    match e
    case Asked(_, _) => []
    case Succeeded(id) => [CallRecord(id, Success)]
    case Refused(id) => [CallRecord(id, FinalFailure)]
    case Failed(id, _) => [CallRecord(id, RetryableFailure)]
  }

  function CallsTo(id: string, w: World, first: nat, n: nat): seq<CallRecord> {
    seq(n, j requires 0 <= j < n => CallRecord(id, w.replies(first + j)))
  }

  /** The client calls in order, each with the reply it got. */
  function CallsMade(es: seq<Endpoint>, ts: seq<Trial>, w: World): seq<CallRecord>
    requires |ts| <= |es|
  {
    if ts == [] then []
    else
      var before, t := ts[..|ts| - 1], ts[|ts| - 1];
      CallsMade(es, before, w) + CallsTo(es[|ts| - 1].id, w, Total(before), CallsOf(t))
  }

  lemma {:induction false} TotalWithinBudget(log: seq<B.Event>, es: seq<Endpoint>, q: Request, w: World, ts: seq<Trial>, ats: seq<nat>)
    requires TrialsFit(log, es, q, w, ts, ats)
    ensures Total(ts) <= Budget(es[..|ts|])
  {
    if ts != [] {
      var n := |ts| - 1;
      TotalWithinBudget(log, es, q, w, ts[..n], ats[..n]);
      assert es[..n + 1] == es[..n] + [es[n]];
      BudgetSnoc(es[..n], es[n]);
    }
  }

  /** When no endpoint answers, is skipped or is refused by its breaker, the whole budget is spent. */
  lemma {:induction false} BudgetSpent(es: seq<Endpoint>, ts: seq<Trial>)
    requires |ts| == |es| && forall i :: 0 <= i < |ts| ==> ts[i].Tried? && Exhausted(es[i], ts[i])
    ensures Total(ts) == Budget(es)
  {
    if ts != [] {
      BudgetSpent(es[..|es| - 1], ts[..|ts| - 1]);
    }
  }

  /** An endpoint is passed over iff it is disabled, or the request is a formal audit and the endpoint
      is not ready for the model it would be asked for: its own, else the request's, else the provider's. */
  lemma SkippedIff(log: seq<B.Event>, es: seq<Endpoint>, q: Request, w: World, ts: seq<Trial>, ats: seq<nat>, i: nat)
    requires TrialsFit(log, es, q, w, ts, ats) && i < |ts|
    ensures !es[i].enabled ==> ts[i].Skipped?
    ensures es[i].enabled && !q.formalAudit ==> !ts[i].Skipped?
    ensures es[i].enabled && q.formalAudit ==>
              && (es[i].modelOverride != "" ==> (ts[i].Skipped? <==> !w.auditReady(es[i], es[i].modelOverride)))
              && (es[i].modelOverride == "" != q.model ==> (ts[i].Skipped? <==> !w.auditReady(es[i], q.model)))
              && (es[i].modelOverride == "" == q.model ==> (ts[i].Skipped? <==> !w.auditReady(es[i], q.providerModel)))
    ensures ts[i].Skipped? ==> CallsOf(ts[i]) == 0
  {
    assert TrialFits(log, es[i], Eligible(es[i], q, w), ts[i], ats[i]);
  }

  lemma {:induction false} BudgetPrefix(es: seq<Endpoint>, n: nat)
    requires n <= |es|
    ensures Budget(es[..n]) <= Budget(es)
  {
    if n == |es| {
      assert es[..n] == es;
    } else {
      BudgetPrefix(es[..|es| - 1], n);
      assert es[..|es| - 1][..n] == es[..n];
    }
  }

  // ----- The router -----

  datatype Result =
    | Completed(id: string, attemptCount: nat)
    | NoClientFor(style: string) | GaveFinalFailure(id: string) | SleepCancelled | NoneEligible | AllFailed

  ghost predicate ResultFits(es: seq<Endpoint>, ts: seq<Trial>, w: World, r: Result) {
    var n := Total(ts);
    match r
    case Completed(id, count) =>
      && |ts| > 0 && ts[|ts| - 1].Tried? && |ts| <= |es| && id == es[|ts| - 1].id
      && count == n && n > 0 && w.replies(n - 1).Success?
    case GaveFinalFailure(id) =>
      |ts| > 0 && ts[|ts| - 1].Tried? && |ts| <= |es| && id == es[|ts| - 1].id && n > 0 && w.replies(n - 1).FinalFailure?
    case SleepCancelled => |ts| > 0 && ts[|ts| - 1].Tried? && n > 0 && w.replies(n - 1).RetryableFailure?
    case NoClientFor(style) => |ts| > 0 && ts[|ts| - 1].NoClient? && |ts| <= |es| && style == es[|ts| - 1].style && !w.hasClient(style)
    case NoneEligible => |ts| == |es| && forall i :: 0 <= i < |ts| ==> ts[i].Skipped?
    case AllFailed =>
      && |ts| == |es| && (exists i :: 0 <= i < |ts| && !ts[i].Skipped?)
      && (forall i :: 0 <= i < |ts| ==> Exhausted(es[i], ts[i]))
      && (n > 0 ==> w.replies(n - 1).RetryableFailure?)
  }

  /** Whether the endpoint just visited settles the whole call. */
  function Verdict(e: Endpoint, t: Trial, cancelled: bool, total: nat, w: World): Option<Result> {
    if t.NoClient? then Some(NoClientFor(e.style))
    else if !t.Tried? || total == 0 then None
    else if cancelled then Some(SleepCancelled)
    else match w.replies(total - 1)
      case Success => Some(Completed(e.id, total))
      case FinalFailure => Some(GaveFinalFailure(e.id))
      case RetryableFailure => None
  }

  ghost predicate RetryableBefore(w: World, n: int) {
    forall k :: 0 <= k < n ==> w.replies(k).RetryableFailure?
  }

  /** What visiting one endpoint from the `first` call on can come to. */
  ghost predicate VisitFits(e: Endpoint, t: Trial, cancelled: bool, first: nat, w: World) {
    var last := first + CallsOf(t) - 1;
    && (t.NoClient? ==> !w.hasClient(e.style))
    && (t.Tried? ==> t.calls > 0)
    && (forall k :: first <= k < last ==> w.replies(k).RetryableFailure?)
    && (cancelled ==> t.Tried? && w.replies(last).RetryableFailure?)
    && (!cancelled && t.Tried? && t.calls > 0 && w.replies(last).RetryableFailure? ==> Exhausted(e, t))
  }

  ghost predicate Unsettled(es: seq<Endpoint>, w: World, ts: seq<Trial>) {
    && |ts| <= |es| && RetryableBefore(w, Total(ts))
    && forall i :: 0 <= i < |ts| ==> Exhausted(es[i], ts[i])
  }

  predicate AllSkipped(ts: seq<Trial>) {
    forall i :: 0 <= i < |ts| ==> ts[i].Skipped?
  }

  lemma SkippedSnoc(ts: seq<Trial>, t: Trial)
    ensures AllSkipped(ts + [t]) <==> AllSkipped(ts) && t.Skipped?
  {
    var next := ts + [t];
    assert next[..|ts|] == ts && next[|ts|] == t;
    if AllSkipped(next) {
      assert forall i :: 0 <= i < |ts| ==> next[i] == ts[i];
    }
  }

  lemma SettledFits(es: seq<Endpoint>, ts: seq<Trial>, w: World, t: Trial, cancelled: bool, n: nat)
    requires |ts| < |es| && VisitFits(es[|ts|], t, cancelled, n, w) && n == Total(ts)
    requires Verdict(es[|ts|], t, cancelled, n + CallsOf(t), w).Some?
    ensures ResultFits(es, ts + [t], w, Verdict(es[|ts|], t, cancelled, n + CallsOf(t), w).value)
  {
    assert (ts + [t])[..|ts|] == ts && Total(ts + [t]) == n + CallsOf(t);
  }

  lemma StillUnsettled(es: seq<Endpoint>, ts: seq<Trial>, w: World, t: Trial, cancelled: bool, n: nat)
    requires Unsettled(es, w, ts) && |ts| < |es| && VisitFits(es[|ts|], t, cancelled, n, w) && n == Total(ts)
    requires Verdict(es[|ts|], t, cancelled, n + CallsOf(t), w).None?
    ensures Unsettled(es, w, ts + [t])
  {
    assert (ts + [t])[..|ts|] == ts && Total(ts + [t]) == n + CallsOf(t);
    assert Exhausted(es[|ts|], t);
    forall k | 0 <= k < n + CallsOf(t)
      ensures w.replies(k).RetryableFailure?
    {
    }
  }

  lemma NothingSettled(es: seq<Endpoint>, ts: seq<Trial>, w: World)
    requires Unsettled(es, w, ts) && |ts| == |es|
    ensures ResultFits(es, ts, w, if AllSkipped(ts) then NoneEligible else AllFailed)
  {
  }

  lemma RunSnoc(log: seq<B.Event>, e: B.Event)
    ensures B.Run(log + [e]) == B.Step(B.Run(log), e)
  {
    assert (log + [e])[..|log|] == log;
  }

  lemma CallsToSnoc(told: seq<CallRecord>, id: string, w: World, first: nat, n: nat)
    ensures told + CallsTo(id, w, first, n) + [CallRecord(id, w.replies(first + n))] == told + CallsTo(id, w, first, n + 1)
  {
  }

  lemma AskedAtGrows(log: seq<B.Event>, more: seq<B.Event>, at: nat, id: string, admitted: bool)
    requires AskedAt(log, at, id, admitted)
    ensures AskedAt(log + more, at, id, admitted)
  {
    assert (log + more)[..at] == log[..at];
  }

  lemma TrialsFitGrows(log: seq<B.Event>, longer: seq<B.Event>, es: seq<Endpoint>, q: Request, w: World, ts: seq<Trial>, ats: seq<nat>)
    requires TrialsFit(log, es, q, w, ts, ats) && log <= longer
    ensures TrialsFit(longer, es, q, w, ts, ats)
  {
    var more := longer[|log|..];
    assert longer == log + more;
    forall i | 0 <= i < |ts|
      ensures TrialFits(longer, es[i], Eligible(es[i], q, w), ts[i], ats[i])
    {
      assert TrialFits(log, es[i], Eligible(es[i], q, w), ts[i], ats[i]);
      if !ts[i].Skipped? {
        AskedAtGrows(log, more, ats[i], es[i].id, !ts[i].CircuitOpen?);
      }
    }
  }

  lemma TrialsSnoc(log: seq<B.Event>, es: seq<Endpoint>, q: Request, w: World, ts: seq<Trial>, ats: seq<nat>, t: Trial, at: nat)
    requires TrialsFit(log, es, q, w, ts, ats) && |ts| < |es| && TrialFits(log, es[|ts|], Eligible(es[|ts|], q, w), t, at)
    requires forall i :: 0 <= i < |ts| ==> Exhausted(es[i], ts[i])
    ensures TrialsFit(log, es, q, w, ts + [t], ats + [at])
    ensures Total(ts + [t]) == Total(ts) + CallsOf(t)
    ensures CallsMade(es, ts + [t], w) == CallsMade(es, ts, w) + CallsTo(es[|ts|].id, w, Total(ts), CallsOf(t))
  {
    assert (ts + [t])[..|ts|] == ts;
  }

  lemma WithinBudget(log: seq<B.Event>, endpoints: seq<Endpoint>, q: Request, w: World, ts: seq<Trial>, ats: seq<nat>)
    requires TrialsFit(log, StableSort(endpoints), q, w, ts, ats)
    ensures Total(ts) <= Budget(endpoints)
  {
    TotalWithinBudget(log, StableSort(endpoints), q, w, ts, ats);
    BudgetPrefix(StableSort(endpoints), |ts|);
    SortIsStable(endpoints, 0);
  }

  class Router {
    var breakers: B.Table
    ghost var log: seq<B.Event>      // every breaker operation so far
    ghost var told: seq<CallRecord>  // what the call in progress has reported to the breakers

    ghost predicate Valid()
      reads this
    {
      breakers == B.Run(log)
    }

    constructor ()
      ensures Valid() && log == []
    {
      breakers, log, told := map[], [], [];
    }

    ghost method Log(e: B.Event)
      modifies this`log, this`told
      ensures log == old(log) + [e] && told == old(told) + RecordOf(e)
      ensures B.Run(log) == B.Step(B.Run(old(log)), e)
    {
      RunSnoc(log, e);
      log, told := log + [e], told + RecordOf(e);
    }

    method BreakerAllows(id: string, now: int) returns (ok: bool)
      requires Valid()
      modifies this
      ensures Valid() && log == old(log) + [B.Asked(id, now)]
      ensures told == old(told) && AskedAt(log, |old(log)|, id, ok)
    {
      Log(B.Asked(id, now));
      assert log[..|old(log)|] == old(log);
      if id !in breakers || breakers[id].openUntil.None? {
        return true;
      }
      var b := breakers[id];
      if now < b.openUntil.value {
        return false;
      }
      if b.halfOpen {
        return false;
      }
      breakers := breakers[id := b.(halfOpen := true)];
      ok := true;
    }

    method RecordSuccess(id: string)
      requires Valid()
      modifies this
      ensures Valid() && log == old(log) + [B.Succeeded(id)] && told == old(told) + [CallRecord(id, Success)]
    {
      Log(B.Succeeded(id));
      breakers := breakers - {id};
    }

    method RecordNonRetryable(id: string)
      requires Valid()
      modifies this
      ensures Valid() && log == old(log) + [B.Refused(id)] && told == old(told) + [CallRecord(id, FinalFailure)]
    {
      Log(B.Refused(id));
      if id in breakers {
        breakers := breakers[id := breakers[id].(halfOpen := false)];
      }
    }

    method RecordFailure(id: string, now: int)
      requires Valid()
      modifies this
      ensures Valid() && log == old(log) + [B.Failed(id, now)]
      ensures told == old(told) + [CallRecord(id, RetryableFailure)]
    {
      Log(B.Failed(id, now));
      var b := if id in breakers then breakers[id] else B.CLOSED;
      b := B.Breaker(b.failures + 1, b.openUntil, false);
      if b.failures >= B.THRESHOLD {
        b := b.(openUntil := Some(now + B.OPEN_NANOS));
      }
      breakers := breakers[id := b];
    }

    /** Other callers' operations. */
    method Interleave(events: seq<B.Event>)
      requires Valid()
      modifies this`breakers, this`log
      ensures Valid() && log == old(log) + events
    {
      for i := 0 to |events|
        invariant Valid() && log == old(log) + events[..i]
      {
        RunSnoc(log, events[i]);
        assert events[..i + 1] == events[..i] + [events[i]];
        log := log + [events[i]];
        breakers := B.Step(breakers, events[i]);
      }
    }

    /** One client call, reported to the endpoint's breaker. */
    method CallOnce(e: Endpoint, k: nat, w: World) returns (reply: Reply)
      requires Valid()
      modifies this
      ensures Valid() && old(log) <= log && reply == w.replies(k)
      ensures told == old(told) + [CallRecord(e.id, reply)]
    {
      Interleave(w.othersCalling(k));
      reply := w.replies(k);
      match reply
      case Success => RecordSuccess(e.id);
      case FinalFailure => RecordNonRetryable(e.id);
      case RetryableFailure => RecordFailure(e.id, w.clockFailing(k));
    }

    /** Calls one client until it answers, fails finally, runs out of attempts or is cancelled. */
    method TryEndpoint(e: Endpoint, first: nat, w: World) returns (n: nat, cancelled: bool)
      requires Valid()
      modifies this
      ensures Valid() && old(log) <= log
      ensures 1 <= n <= Attempts(e) && told == old(told) + CallsTo(e.id, w, first, n)
      ensures forall k :: first <= k < first + n - 1 ==> w.replies(k).RetryableFailure?
      ensures cancelled ==> w.replies(first + n - 1).RetryableFailure?
      ensures !cancelled && w.replies(first + n - 1).RetryableFailure? ==> n == Attempts(e)
    {
      n, cancelled := 0, false;
      var attempts := Attempts(e);
      while n < attempts
        invariant n <= attempts && Valid() && old(log) <= log
        invariant told == old(told) + CallsTo(e.id, w, first, n)
        invariant forall k :: first <= k < first + n ==> w.replies(k).RetryableFailure?
      {
        var reply := CallOnce(e, first + n, w);
        CallsToSnoc(old(told), e.id, w, first, n);
        n := n + 1;
        if !reply.RetryableFailure? {
          return;
        }
        if n < attempts && w.sleepFails(first + n - 1) {
          cancelled := true;
          return;
        }
      }
    }

    /** Asks the breaker and, if admitted, tries the endpoint. */
    method VisitEndpoint(e: Endpoint, i: nat, first: nat, q: Request, w: World)
      returns (t: Trial, cancelled: bool, ghost at: nat)
      requires Valid()
      modifies this
      ensures Valid() && old(log) <= log && TrialFits(log, e, Eligible(e, q, w), t, at)
      ensures told == old(told) + CallsTo(e.id, w, first, CallsOf(t))
      ensures VisitFits(e, t, cancelled, first, w)
    {
      cancelled, at := false, 0;
      if !Eligible(e, q, w) {
        return Skipped, false, 0;
      }
      Interleave(w.othersAsking(i));
      at := |log|;
      var ok := BreakerAllows(e.id, w.clockAsking(i));
      if !ok {
        return CircuitOpen, false, at;
      }
      if !w.hasClient(e.style) {
        return NoClient, false, at;
      }
      ghost var asked := log;
      var n;
      n, cancelled := TryEndpoint(e, first, w);
      assert log == asked + log[|asked|..];
      AskedAtGrows(asked, log[|asked|..], at, e.id, true);
      t := Tried(n);
    }

    /** The bookkeeping of a call so far: what was tried, asked and recorded. */
    ghost predicate InProgress(es: seq<Endpoint>, q: Request, w: World, ts: seq<Trial>, ats: seq<nat>)
      reads this
    {
      && Valid() && TrialsFit(log, es, q, w, ts, ats) && told == CallsMade(es, ts, w)
      && RetryableBefore(w, Total(ts) - 1)
    }

    /** Visits the next endpoint and files what became of it. */
    method VisitNext(es: seq<Endpoint>, q: Request, w: World, first: nat, i: nat, ghost ts: seq<Trial>, ghost ats: seq<nat>)
      returns (t: Trial, cancelled: bool, ghost more: seq<nat>)
      requires InProgress(es, q, w, ts, ats) && i == |ts| < |es| && first == Total(ts) && Unsettled(es, w, ts)
      modifies this
      ensures InProgress(es, q, w, ts + [t], more) && old(log) <= log
      ensures Total(ts + [t]) == first + CallsOf(t)
      ensures VisitFits(es[i], t, cancelled, first, w)
    {
      ghost var before := log;
      ghost var at;
      t, cancelled, at := VisitEndpoint(es[i], i, first, q, w);
      TrialsFitGrows(before, log, es, q, w, ts, ats);
      TrialsSnoc(log, es, q, w, ts, ats, t, at);
      more := ats + [at];
    }

    /** Goes through the endpoints until one settles the call. */
    method TryAll(es: seq<Endpoint>, q: Request, w: World) returns (r: Result, ghost ts: seq<Trial>, ghost ats: seq<nat>)
      requires Valid() && told == []
      modifies this
      ensures InProgress(es, q, w, ts, ats) && old(log) <= log && ResultFits(es, ts, w, r)
    {
      ts, ats := [], [];
      var eligible, total, i := 0, 0, 0;
      while i < |es|
        invariant i == |ts| <= |es| && total == Total(ts) && old(log) <= log
        invariant InProgress(es, q, w, ts, ats) && Unsettled(es, w, ts)
        invariant eligible == 0 <==> AllSkipped(ts)
      {
        var t, cancelled;
        t, cancelled, ats := VisitNext(es, q, w, total, i, ts, ats);
        var verdict := Verdict(es[i], t, cancelled, total + CallsOf(t), w);
        if verdict.Some? {
          SettledFits(es, ts, w, t, cancelled, total);
          ts := ts + [t];
          r := verdict.value;
          return;
        }
        StillUnsettled(es, ts, w, t, cancelled, total);
        SkippedSnoc(ts, t);
        ts := ts + [t];
        total := total + CallsOf(t);
        if !t.Skipped? {
          eligible := eligible + 1;
        }
        i := i + 1;
      }
      r := if eligible == 0 then NoneEligible else AllFailed;
      NothingSettled(es, ts, w);
    }

    /** Tries the endpoints in priority order. Every client call is reported to the breaker of its
        endpoint with the reply it got; the calls stay within the configured attempts; an answer
        carries the exact number of calls made for it. */
    method Complete(endpoints: seq<Endpoint>, q: Request, w: World) returns (r: Result, ghost ts: seq<Trial>, ghost ats: seq<nat>)
      requires Valid()
      modifies this
      ensures Valid() && old(log) <= log
      ensures TrialsFit(log, StableSort(endpoints), q, w, ts, ats)
      ensures told == CallsMade(StableSort(endpoints), ts, w)
      ensures Total(ts) <= Budget(endpoints) && RetryableBefore(w, Total(ts) - 1)
      ensures ResultFits(StableSort(endpoints), ts, w, r)
    {
      var es := StableSort(endpoints);
      told := [];
      r, ts, ats := TryAll(es, q, w);
      WithinBudget(log, endpoints, q, w, ts, ats);
    }
  }
}
