/** Validate, Approve and Apply as the service performs them on one stored changeset. Each call is
    shown to be a run of the lifecycle's steps by one caller (internal/automation/service.go). */
module ChangesetService {

  import opened Common
  import opened ChangesetChecks
  import opened Changeset

  /** What the outside world answers during one apply: the clock, the inspection of each operation,
      the policy store, the claim, the handlers, and whether writes reach the store. */
  datatype ApplyInput = ApplyInput(
    expired: bool, hashable: bool, found: seq<Inspection>, lookups: seq<Lookup>, oauth: bool,
    reported: bool, outcomes: nat -> Outcome, stored: bool)

  datatype ApplyResult = AlreadySucceeded | NotApproved | Rejected | NotClaimed | HandlerStopped | Applied

  ghost predicate Good(s: State) {
    Justified(s) && Ordered(s) && SuccessIsComplete(s) && ClaimedOnce(s)
  }

  ghost predicate AllDone(outcomes: nat -> Outcome, n: nat) {
    forall i :: 0 <= i < n ==> outcomes(i).Done?
  }

  ghost predicate AllBy(steps: seq<Step>, t: int) {
    forall i :: 0 <= i < |steps| ==> CallerOf(steps[i]) == Some(t)
  }

  /** Steps of caller `t` alone, with no stale write among them, lead from `s` to `n`. */
  ghost predicate Runs(s: State, t: int, n: State) {
    exists steps :: Reaches(s, steps, n) && FreshRun(s, steps) && AllBy(steps, t)
  }

  lemma RunsNowhere(s: State, t: int)
    ensures Runs(s, t, s)
  {
    assert Reaches(s, [], s) && FreshRun(s, []) && AllBy([], t);
  }

  lemma {:induction false} FreshConcat(s: State, a: seq<Step>, m: State, b: seq<Step>)
    requires Reaches(s, a, m) && FreshRun(s, a) && FreshRun(m, b)
    ensures FreshRun(s, a + b)
    decreases |a|
  {
    if a == [] {
      assert a + b == b;
    } else {
      FreshConcat(Next(s, a[0]), a[1..], m, b);
      assert (a + b)[0] == a[0] && (a + b)[1..] == a[1..] + b;
    }
  }

  lemma RunsOn(s: State, t: int, m: State, n: State)
    requires Runs(s, t, m) && Runs(m, t, n)
    ensures Runs(s, t, n)
  {
    var a :| Reaches(s, a, m) && FreshRun(s, a) && AllBy(a, t);
    var b :| Reaches(m, b, n) && FreshRun(m, b) && AllBy(b, t);
    ReachesConcat(s, a, m, b, n);
    FreshConcat(s, a, m, b);
    assert AllBy(a + b, t);
  }

  lemma RunsStep(s: State, m: State, step: Step)
    requires Enabled(m, step) && Fresh(m, step) && !step.Edit? && Runs(s, step.t, m)
    ensures Runs(s, step.t, Next(m, step))
  {
    OneStep(m, step);
    assert [step][1..] == [] && AllBy([step], step.t) && FreshRun(m, [step]);
    RunsOn(s, step.t, m, Next(m, step));
  }

  /** Such runs keep every invariant of the lifecycle. */
  lemma RunsGood(s: State, t: int, n: State)
    requires Good(s) && Runs(s, t, n)
    ensures Good(n)
  {
    var steps :| Reaches(s, steps, n) && FreshRun(s, steps) && AllBy(steps, t);
    RunHolds(s, steps, n);
  }

  ghost predicate OnlyCaller(s: State, t: int) {
    forall u :: u != t ==> PhaseOf(s, u).Idle?
  }

  lemma StillOnlyCaller(s: State, step: Step)
    requires Enabled(s, step) && !step.Edit? && OnlyCaller(s, step.t)
    ensures OnlyCaller(Next(s, step), step.t)
  {
    forall u | u != step.t
      ensures PhaseOf(Next(s, step), u).Idle?
    {
      OthersWait(s, step, u);
    }
  }

  lemma {:induction false} ReachesGrows(s: State, steps: seq<Step>, n: State)
    requires Reaches(s, steps, n)
    ensures Grows(s, n)
    decreases |steps|
  {
    if steps != [] {
      StepGrows(s, steps[0]);
      ReachesGrows(Next(s, steps[0]), steps[1..], n);
    }
  }

  lemma RunsGrows(s: State, t: int, n: State)
    requires Runs(s, t, n)
    ensures Grows(s, n)
  {
    var steps :| Reaches(s, steps, n) && FreshRun(s, steps) && AllBy(steps, t);
    ReachesGrows(s, steps, n);
  }

  /** One inspection and one policy lookup for each operation. */
  predicate Answers(x: ApplyInput, item: Record) {
    Covers(x.found, x.lookups, item)
  }

  /** The copy may be claimed: in time, hashing as recorded, current, not refused. */
  predicate Passes(item: Record, x: ApplyInput) {
    && !x.expired && x.hashable && item.hash == Some(HashOf(item.plan))
    && IsCurrent(item.plan, x.found) && !AnyRefuses(x.lookups)
  }

  /** The row after the checks: expired or superseded when the copy itself no longer holds. */
  function CheckedRecord(r: Record, item: Record, x: ApplyInput): Record {
    if x.expired then Save(r, item, Expired, x.stored)
    else if Passes(item, x.(lookups := [])) then r
    else Save(r, item, Superseded, x.stored)
  }

  /** The one claim belongs to `t`, which stands at `p`; nobody else is mid-call. */
  ghost predicate Claimed(s: State, record: Record, start: State, t: int, item: Record, p: Phase) {
    && s.record == record && OnlyCaller(s, t) && PhaseOf(s, t) == p && Runs(start, t, s)
    && |s.claims| == 1 && s.claims[0].item == item
  }

  class Service {
    var record: Record
    ghost var state: State

    /** The stored row is the machine's, the machine's invariants hold, and nobody is mid-call. */
    ghost predicate Valid()
      reads this
    {
      state.record == record && Good(state) && forall t :: PhaseOf(state, t).Idle?
    }

    constructor (plan: Plan, risk: int)
      requires IsPlannable(plan)
      ensures Valid() && Init(state) && record == Record(Draft, None, risk, plan)
    {
      record := Record(Draft, None, risk, plan);
      state := State(Record(Draft, None, risk, plan), map[], {}, {}, {}, {}, []);
      new;
      InitHolds(state);
    }

    ghost method Advance(start: State, step: Step)
      requires Enabled(state, step) && Fresh(state, step)
      requires !step.Edit? && OnlyCaller(state, step.t) && Runs(start, step.t, state)
      modifies this`state
      ensures state == Next(old(state), step)
      ensures OnlyCaller(state, step.t) && Runs(start, step.t, state)
    {
      StillOnlyCaller(state, step);
      RunsStep(start, state, step);
      state := Next(state, step);
    }

    /** The store's unconditional update. */
    method Update(item: Record, st: Status, stored: bool)
      modifies this`record
      ensures record == Save(old(record), item, st, stored)
    {
      if stored {
        record := record.(status := st, hash := item.hash, risk := item.risk);
      }
    }

    /** The checks between loading an approved changeset and claiming it. */
    method CheckBeforeClaim(item: Record, x: ApplyInput) returns (ok: bool)
      requires Answers(x, item)
      modifies this`record
      ensures ok <==> Passes(item, x)
      ensures record == CheckedRecord(old(record), item, x)
      ensures x.stored && x.expired ==> record.status.Expired?
      ensures x.stored && !x.expired && (item.hash != Some(HashOf(item.plan)) || !IsCurrent(item.plan, x.found)) ==>
                record.status.Superseded?
      ensures ok ==> record == old(record) && !x.expired && item.hash == Some(HashOf(item.plan)) && IsCurrent(item.plan, x.found)
    {
      ok := false;
      if x.expired {
        Update(item, Expired, x.stored);
        return;
      }
      if !x.hashable || item.hash != Some(HashOf(item.plan)) {
        Update(item, Superseded, x.stored);
        return;
      }
      var current := ValidateOperations(item.plan, x.found);
      if !current {
        Update(item, Superseded, x.stored);
        return;
      }
      var decision := PoliciesAllowAutomatic(HashOf(item.plan).ops, x.lookups, x.oauth);
      ok := !decision.Refused?;
    }

    ghost method AdvanceInvoke(start: State, t: int, outcome: Outcome, stored: bool, item: Record, i: nat)
      requires Runs(start, t, state) && OnlyCaller(state, t)
      requires PhaseOf(state, t) == Running(0, i) && |state.claims| == 1 && state.claims[0].item == item
      requires i < |item.plan.ops|
      modifies this`state
      ensures Runs(start, t, state)
      ensures OnlyCaller(state, t) && |state.claims| == 1 && state.claims[0].item == item
      ensures PhaseOf(state, t) == if outcome.Done? then Running(0, i + 1) else Idle
      ensures state.record == if outcome.Done? then old(state).record else Save(old(state).record, item, Failed, stored)
    {
      Advance(start, Invoke(t, outcome, stored));
    }

    method InvokeHandler(t: int, item: Record, outcome: Outcome, stored: bool, i: nat, ghost start: State)
      returns (ghost p: Phase)
      requires Claimed(state, record, start, t, item, Running(0, i)) && i < |item.plan.ops|
      modifies this
      ensures Claimed(state, record, start, t, item, p)
      ensures p == if outcome.Done? then Running(0, i + 1) else Idle
      ensures !outcome.Done? && stored ==> record.status.Failed?
    {
      AdvanceInvoke(start, t, outcome, stored, item, i);
      if !outcome.Done? {
        Update(item, Failed, stored);
      }
      p := PhaseOf(state, t);
    }

    /** Calls the handlers in order and stops at the first that is missing, fails or cannot be
        recorded. */
    method RunHandlers(t: int, item: Record, outcomes: nat -> Outcome, stored: bool, ghost start: State)
      returns (ok: bool, ghost p: Phase)
      requires Claimed(state, record, start, t, item, Running(0, 0))
      modifies this
      ensures Claimed(state, record, start, t, item, p)
      ensures p == if ok then Running(0, |item.plan.ops|) else Idle
      ensures ok <==> AllDone(outcomes, |item.plan.ops|)
      ensures !ok && stored ==> record.status.Failed?
    {
      p, ok := Running(0, 0), true;
      var i := 0;
      while ok && i < |item.plan.ops|
        invariant i <= |item.plan.ops| && Claimed(state, record, start, t, item, p)
        invariant p == if ok then Running(0, i) else Idle
        invariant ok <==> AllDone(outcomes, i)
        invariant !ok && stored ==> record.status.Failed?
      {
        ok := outcomes(i).Done?;
        p := InvokeHandler(t, item, outcomes(i), stored, i, start);
        i := i + 1;
      }
    }

    ghost method AdvanceCheck(t: int, x: ApplyInput)
      requires ClaimedOnce(state) && OnlyCaller(state, t) && PhaseOf(state, t).Idle? && state.record.status.Approved?
      requires Answers(x, state.record)
      modifies this`state
      ensures OnlyCaller(state, t) && Runs(old(state), t, state)
      ensures state.record == CheckedRecord(old(state).record, old(state).record, x)
      ensures state.claims == [] && old(state).claims == []
      ensures PhaseOf(state, t) ==
              if Passes(old(state).record, x) then Checked(old(state).record, x.found, x.lookups) else Idle
    {
      RunsNowhere(state, t);
      Advance(state, Load(t));
      Advance(old(state), Check(t, x.expired, x.hashable, x.found, x.lookups, x.stored));
    }

    ghost method AdvanceClaim(start: State, t: int, reported: bool, item: Record)
      requires OnlyCaller(state, t) && Runs(start, t, state)
      requires PhaseOf(state, t).Checked? && PhaseOf(state, t).item == item
      requires state.record.status.Approved? && state.claims == []
      modifies this`state
      ensures OnlyCaller(state, t) && Runs(start, t, state)
      ensures state.record == old(state).record.(status := Applying)
      ensures PhaseOf(state, t) == if reported then Running(0, 0) else Idle
      ensures if reported then |state.claims| == 1 && state.claims[0].item == item else state.claims == []
    {
      Advance(start, TryClaim(t, reported));
    }

    /** Loads an approved row, checks it and claims it. */
    method LoadAndClaim(t: int, x: ApplyInput) returns (r: ApplyResult)
      requires Valid() && record.status.Approved? && Answers(x, record)
      modifies this
      ensures r.Rejected? || r.NotClaimed? || r.Applied?
      ensures r.Applied? ==> Claimed(state, record, old(state), t, old(record), Running(0, 0))
      ensures !r.Applied? ==> Valid() && Runs(old(state), t, state) && state.claims == []
      ensures old(state).claims == []
    {
      var item := record;
      var ok := CheckBeforeClaim(item, x);
      AdvanceCheck(t, x);
      if !ok {
        RunsGood(old(state), t, state);
        return Rejected;
      }
      AdvanceClaim(old(state), t, x.reported, item);
      record := record.(status := Applying);
      RunsGood(old(state), t, state);
      r := if x.reported then Applied else NotClaimed;
    }

    method FinishApply(t: int, item: Record, stored: bool, ghost start: State)
      requires Good(start) && Claimed(state, record, start, t, item, Running(0, |item.plan.ops|))
      modifies this
      ensures Claimed(state, record, start, t, item, Idle) && Complete(state.claims[0])
      ensures stored ==> record.status.Succeeded?
    {
      RunsGood(start, t, state);
      Advance(start, Finish(t, stored));
      Update(item, Succeeded, stored);
    }

    /** Runs an approved changeset: nothing is called unless the row was claimed, and an apply that
        reports success has called every handler of the approved plan, each successfully. */
    method Apply(t: int, x: ApplyInput) returns (r: ApplyResult)
      requires Valid() && Answers(x, record)
      modifies this
      ensures Valid() && Runs(old(state), t, state)
      ensures r.AlreadySucceeded? <==> old(record).status.Succeeded?
      ensures r.NotApproved? <==> !old(record).status.Succeeded? && !old(record).status.Approved?
      ensures r.AlreadySucceeded? || r.NotApproved? ==> record == old(record)
      ensures !r.HandlerStopped? && !r.Applied? ==> state.claims == old(state).claims
      ensures r.HandlerStopped? || r.Applied? ==> |state.claims| == 1 && state.claims[0].item == old(record)
      ensures r.Applied? ==> Complete(state.claims[0]) && (x.stored ==> record.status.Succeeded?)
      ensures r.HandlerStopped? && x.stored ==> record.status.Failed?
    {
      RunsNowhere(state, t);
      var item := record;
      if item.status.Succeeded? {
        return AlreadySucceeded;
      }
      if !item.status.Approved? {
        return NotApproved;
      }
      r := LoadAndClaim(t, x);
      if r.Applied? {
        var ok;
        ghost var p;
        ok, p := RunHandlers(t, item, x.outcomes, x.stored, old(state));
        if ok {
          FinishApply(t, item, x.stored, old(state));
        } else {
          r := HandlerStopped;
        }
        RunsGood(old(state), t, state);
      }
    }

    ghost method AdvanceApproval(t: int, who: Approver, stored: bool)
      requires OnlyCaller(state, t) && PhaseOf(state, t).Idle?
      requires MayApprove(who) && state.record.status.AwaitingApproval? && state.record.hash.Some?
      modifies this`state
      ensures OnlyCaller(state, t) && PhaseOf(state, t).Idle? && Runs(old(state), t, state)
      ensures state.record == Save(old(state).record, old(state).record, Approved, stored)
      ensures Approval(old(state).record.hash.value, who, old(state).record.risk) in state.approvals
      ensures state.claims == old(state).claims
    {
      RunsNowhere(state, t);
      Advance(state, ApproveBegin(t, who));
      Advance(old(state), ApproveRecord(t));
      Advance(old(state), ApproveEnd(t, stored));
    }

    /** An interactive operator approves what was validated, and the changeset is applied at once. */
    method Approve(t: int, who: Approver, x: ApplyInput) returns (r: Option<ApplyResult>)
      requires Valid() && Answers(x, record)
      modifies this
      ensures Valid() && Runs(old(state), t, state)
      ensures r.Some? <==> MayApprove(who) && old(record).status.AwaitingApproval? && old(record).hash.Some? && x.stored
      ensures r.Some? ==> Approval(old(record).hash.value, who, old(record).risk) in state.approvals
      ensures r.None? ==> state.claims == old(state).claims
    {
      var item := record;
      if !MayApprove(who) || !item.status.AwaitingApproval? || item.hash.None? {
        RunsNowhere(state, t);
        return None;
      }
      AdvanceApproval(t, who, x.stored);
      RunsGood(old(state), t, state);
      Update(item, Approved, x.stored);
      if !x.stored {
        return None;
      }
      ghost var mid := state;
      var applied := Apply(t, x);
      RunsGrows(mid, t, state);
      RunsOn(old(state), t, mid, state);
      r := Some(applied);
    }

    ghost method AdvanceValidation(t: int, found: seq<Inspection>, lookups: seq<Lookup>, oauth: bool, stored: bool)
      requires OnlyCaller(state, t) && PhaseOf(state, t).Idle?
      requires Open(state.record.status) && IsCurrent(state.record.plan, found) && !AnyRefuses(lookups)
      requires Covers(found, lookups, state.record)
      modifies this`state
      ensures OnlyCaller(state, t) && PhaseOf(state, t).Idle? && Runs(old(state), t, state)
      ensures var item, d := old(state).record, HashOf(old(state).record.plan);
              var st := if AllPreapproved(d.ops, lookups, oauth) then Approved else AwaitingApproval;
              state.record == Save(item, item.(hash := Some(d)), st, stored) && d in state.validated
      ensures state.claims == old(state).claims
    {
      RunsNowhere(state, t);
      Advance(state, ValidateBegin(t, false, stored));
      Advance(old(state), ValidateEnd(t, found, true, lookups, oauth, stored));
    }

    /** Hashes the plan whose revisions were just checked; a plan every policy preapproves is applied
        at once, with `y` as the world it meets, and any other waits for approval. */
    method Validate(t: int, x: ApplyInput, y: ApplyInput) returns (ok: bool, r: Option<ApplyResult>)
      requires Valid() && Answers(x, record) && Answers(y, record)
      modifies this
      ensures Valid() && Runs(old(state), t, state)
      ensures ok <==> !x.expired && Open(old(record).status) && IsCurrent(old(record).plan, x.found) && x.hashable
                      && !AnyRefuses(x.lookups) && x.stored
      ensures ok ==> HashOf(old(record).plan) in state.validated
      ensures ok && r.None? ==> record.status.AwaitingApproval? && record.hash == Some(HashOf(old(record).plan))
      ensures r.Some? <==> ok && AllPreapproved(HashOf(old(record).plan).ops, x.lookups, x.oauth)
      ensures r.None? ==> state.claims == old(state).claims
      ensures x.expired ==> record == Save(old(record), old(record), Expired, x.stored)
      ensures !ok && !x.expired ==> record == old(record)
    {
      RunsNowhere(state, t);
      var item := record;
      ok, r := false, None;
      if x.expired {
        Advance(state, ValidateBegin(t, true, x.stored));
        RunsGood(old(state), t, state);
        Update(item, Expired, x.stored);
        return;
      }
      if !Open(item.status) {
        return;
      }
      var current := ValidateOperations(item.plan, x.found);
      if !current || !x.hashable {
        return;
      }
      var decision := PoliciesAllowAutomatic(HashOf(item.plan).ops, x.lookups, x.oauth);
      if decision.Refused? {
        return;
      }
      AdvanceValidation(t, x.found, x.lookups, x.oauth, x.stored);
      RunsGood(old(state), t, state);
      Update(item.(hash := Some(HashOf(item.plan))), if decision.Automatic? then Approved else AwaitingApproval, x.stored);
      if !x.stored {
        return;
      }
      ok := true;
      if decision.Automatic? {
        ghost var mid := state;
        var applied := Apply(t, y);
        RunsGrows(mid, t, state);
        RunsOn(old(state), t, mid, state);
        r := Some(applied);
      }
    }
  }
}
