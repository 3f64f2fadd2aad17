/** Exactly when a changeset can be claimed and run again, and when a success lasts
    (internal/automation/service.go, internal/store/automation.go).

    The expiry of a changeset never changes and the clock does not run backwards: once a caller has
    found it expired, every later look does too. */
module ChangesetAgain {

  import opened Common
  import opened ChangesetChecks
  import opened Changeset

  // ----- The clock -----

  /** Validation and the check before a claim compare the expiry with the clock. */
  predicate LooksAtClock(step: Step) {
    step.ValidateBegin? || step.Check?
  }

  predicate IsLate(step: Step) {
    LooksAtClock(step) && step.expired
  }

  /** Every look at the clock finds the changeset expired, or none does. */
  predicate AllLooks(steps: seq<Step>, late: bool) {
    forall i :: 0 <= i < |steps| && LooksAtClock(steps[i]) ==> IsLate(steps[i]) == late
  }

  predicate FoundExpired(steps: seq<Step>) {
    exists i :: 0 <= i < |steps| && IsLate(steps[i])
  }

  /** After a look that found the changeset expired, none finds it in time. */
  predicate ClockAdvances(steps: seq<Step>) {
    forall i, j :: 0 <= i < j < |steps| && IsLate(steps[i]) && LooksAtClock(steps[j]) ==> IsLate(steps[j])
  }

  // ----- Settled changesets -----

  predicate NoEdit(steps: seq<Step>) {
    forall i :: 0 <= i < |steps| ==> !steps[i].Edit?
  }

  /** The row is closed and nobody is between reading it and writing a validation or approval. */
  ghost predicate Settled(s: State) {
    Closed(s.record.status) && forall t :: t in s.callers ==> !Writing(s.callers[t])
  }

  lemma StepSettled(s: State, step: Step)
    requires Settled(s) && Enabled(s, step)
    ensures Settled(Next(s, step)) && |Next(s, step).claims| == |s.claims|
  {
    var n := Next(s, step);
    forall u | u in n.callers
      ensures !Writing(n.callers[u])
    {
      if CallerOf(step) != Some(u) {
        OthersWait(s, step, u);
      }
    }
  }

  /** A settled changeset is never claimed again, whatever follows. */
  lemma {:induction false} SettledStays(s: State, steps: seq<Step>, n: State)
    requires Settled(s) && Reaches(s, steps, n)
    ensures Settled(n) && |n.claims| == |s.claims|
    decreases |steps|
  {
    if steps != [] {
      StepSettled(s, steps[0]);
      SettledStays(Next(s, steps[0]), steps[1..], n);
    }
  }

  /** The plan has never been edited: every copy, every claim and every hash is of `p`. */
  predicate OfPlan(r: Record, p: Plan) {
    r.plan == p && (r.hash.Some? ==> r.hash.value == HashOf(p))
  }

  ghost predicate PhaseOfPlan(f: Phase, p: Plan) {
    !f.Idle? && !f.Running? ==> OfPlan(f.item, p)
  }

  ghost predicate PlanKept(s: State, p: Plan) {
    && OfPlan(s.record, p)
    && (forall t :: t in s.callers ==> PhaseOfPlan(s.callers[t], p))
    && (forall k :: 0 <= k < |s.claims| ==> OfPlan(s.claims[k].item, p))
  }

  lemma CallerKeepsPlan(s: State, step: Step, p: Plan)
    requires PlanKept(s, p) && Enabled(s, step) && !step.Edit?
    ensures PhaseOfPlan(PhaseOf(Next(s, step), step.t), p)
  {
    assert PhaseOfPlan(PhaseOf(s, step.t), p);
  }

  lemma RecordKeepsPlan(s: State, step: Step, p: Plan)
    requires PlanKept(s, p) && Enabled(s, step) && !step.Edit? && Justified(s)
    ensures OfPlan(Next(s, step).record, p)
  {
    assert PhaseOfPlan(PhaseOf(s, step.t), p) && PhaseJustified(s, PhaseOf(s, step.t));
  }

  lemma ClaimsKeepPlan(s: State, step: Step, p: Plan)
    requires PlanKept(s, p) && Enabled(s, step) && !step.Edit?
    ensures forall k :: 0 <= k < |Next(s, step).claims| ==> OfPlan(Next(s, step).claims[k].item, p)
  {
    StepGrows(s, step);
    if step.TryClaim? {
      assert PhaseOfPlan(PhaseOf(s, step.t), p);
    } else {
      StepMoves(s, step);
    }
  }

  lemma StepKeepsPlan(s: State, step: Step, p: Plan)
    requires PlanKept(s, p) && Enabled(s, step) && !step.Edit? && Justified(s)
    ensures PlanKept(Next(s, step), p)
  {
    var n := Next(s, step);
    RecordKeepsPlan(s, step, p);
    ClaimsKeepPlan(s, step, p);
    forall u | u in n.callers
      ensures PhaseOfPlan(n.callers[u], p)
    {
      if u == step.t {
        CallerKeepsPlan(s, step, p);
      } else {
        OthersWait(s, step, u);
      }
    }
  }

  lemma {:induction false} RunKeepsPlan(s: State, steps: seq<Step>, n: State, p: Plan)
    requires PlanKept(s, p) && Justified(s) && Reaches(s, steps, n) && NoEdit(steps)
    ensures PlanKept(n, p)
    decreases |steps|
  {
    if steps != [] {
      StepKeepsPlan(s, steps[0], p);
      StepJustified(s, steps[0]);
      RunKeepsPlan(Next(s, steps[0]), steps[1..], n, p);
    }
  }

  /** Some run without edits, with every look at the clock late or none, leads from `s` to `n`. */
  ghost predicate Leads(s: State, n: State, late: bool) {
    exists steps :: Reaches(s, steps, n) && NoEdit(steps) && AllLooks(steps, late)
  }

  lemma LeadsStep(s: State, step: Step, late: bool)
    requires Enabled(s, step) && !step.Edit? && (LooksAtClock(step) ==> IsLate(step) == late)
    ensures Leads(s, Next(s, step), late)
  {
    OneStep(s, step);
    assert NoEdit([step]) && AllLooks([step], late);
  }

  lemma LeadsOn(s: State, m: State, n: State, late: bool)
    requires Leads(s, m, late) && Leads(m, n, late)
    ensures Leads(s, n, late)
  {
    var a :| Reaches(s, a, m) && NoEdit(a) && AllLooks(a, late);
    var b :| Reaches(m, b, n) && NoEdit(b) && AllLooks(b, late);
    ReachesConcat(s, a, m, b, n);
    assert NoEdit(a + b) && AllLooks(a + b, late);
  }

  /** `n` has one more claim than `s`, and that claim has called the first handler. */
  predicate RanAgain(s: State, n: State) {
    && |n.claims| == |s.claims| + 1 && n.claims[..|s.claims|] == s.claims && s.record.plan.ops != []
    && n.claims[|s.claims|].calls == [Call(s.record.plan.ops[0], true)]
  }

  /** Some such continuation claims the changeset and calls its first handler. */
  ghost predicate CanRun(s: State, late: bool) {
    exists n :: Leads(s, n, late) && RanAgain(s, n)
  }

  /** Only the row's status and hash and the callers differ. */
  predicate SameWork(s: State, m: State) {
    m.claims == s.claims && m.record.plan == s.record.plan
  }

  ghost predicate OthersSame(s: State, m: State, t: int) {
    forall u :: u != t ==> PhaseOf(m, u) == PhaseOf(s, u)
  }

  lemma LeadsThenRun(s: State, m: State, late: bool)
    requires Leads(s, m, late) && SameWork(s, m) && CanRun(m, late)
    ensures CanRun(s, late)
  {
    var n :| Leads(m, n, late) && RanAgain(m, n);
    LeadsOn(s, m, n, late);
    assert RanAgain(s, n);
  }

  function NoPolicies(p: Plan): seq<Lookup> {
    seq(|p.ops|, i => NoPolicy)
  }

  lemma NoPoliciesNeedApproval(p: Plan)
    requires p.ops != []
    ensures !AnyRefuses(NoPolicies(p)) && Decide(HashOf(p).ops, NoPolicies(p), false) == NeedsApproval
  {
    assert !Preapproves(NoPolicies(p)[0], HashOf(p).ops[0].risk, false);
  }

  const OPERATOR := Approver(true, true, Operator)

  // ----- What a caller can do without a look at the clock -----

  /** A validation can end with the row awaiting approval under its plan's hash. */
  lemma ValidationCanEnd(s: State, t: int, late: bool) returns (n: State)
    requires PhaseOf(s, t).Validating? && IsPlannable(PhaseOf(s, t).item.plan)
    ensures Leads(s, n, late) && SameWork(s, n) && PhaseOf(n, t).Idle? && OthersSame(s, n, t)
    ensures n.record.status.AwaitingApproval? && n.record.hash == Some(HashOf(PhaseOf(s, t).item.plan))
  {
    var p := PhaseOf(s, t).item.plan;
    FavourableIsCurrent(p);
    NoPoliciesNeedApproval(p);
    var step := ValidateEnd(t, Favourable(p), true, NoPolicies(p), false, true);
    LeadsStep(s, step, late);
    n := Next(s, step);
  }

  /** An operator can read a row awaiting approval. */
  lemma ApprovalCanBegin(s: State, t: int, late: bool) returns (n: State)
    requires s.record.status.AwaitingApproval? && s.record.hash.Some? && PhaseOf(s, t).Idle?
    ensures Leads(s, n, late) && n.claims == s.claims && n.record == s.record && OthersSame(s, n, t)
    ensures PhaseOf(n, t) == Approving(s.record, OPERATOR)
  {
    LeadsStep(s, ApproveBegin(t, OPERATOR), late);
    n := Next(s, ApproveBegin(t, OPERATOR));
  }

  lemma ApprovalCanBeRecorded(s: State, t: int, late: bool) returns (n: State)
    requires PhaseOf(s, t).Approving? && PhaseOf(s, t).item.hash.Some?
    ensures Leads(s, n, late) && n.claims == s.claims && n.record == s.record && OthersSame(s, n, t)
    ensures PhaseOf(n, t) == ApprovalRecorded(PhaseOf(s, t).item)
  {
    LeadsStep(s, ApproveRecord(t), late);
    n := Next(s, ApproveRecord(t));
  }

  /** Writing a recorded approval approves the row, whatever happened to it since it was read. */
  lemma ApprovalCanEnd(s: State, t: int, late: bool) returns (n: State)
    requires PhaseOf(s, t).ApprovalRecorded?
    ensures Leads(s, n, late) && SameWork(s, n) && PhaseOf(n, t).Idle? && OthersSame(s, n, t)
    ensures n.record.status.Approved? && n.record.hash == PhaseOf(s, t).item.hash
  {
    LeadsStep(s, ApproveEnd(t, true), late);
    n := Next(s, ApproveEnd(t, true));
  }

  /** A caller that passed the checks of an approved row can claim it and call the first handler. */
  lemma CheckedRuns(s: State, t: int, late: bool) returns (n: State)
    requires PhaseOf(s, t).Checked? && PhaseOf(s, t).item.plan == s.record.plan
    requires s.record.status.Approved? && s.record.plan.ops != []
    ensures Leads(s, n, late) && RanAgain(s, n) && n.record.plan == s.record.plan && OthersSame(s, n, t)
  {
    var p := PhaseOf(s, t);
    var m := Next(s, TryClaim(t, true));
    LeadsStep(s, TryClaim(t, true), late);
    var claim := Claim(p.item, p.found, p.lookups, []);
    assert PhaseOf(m, t) == Running(|s.claims|, 0) && m.claims == s.claims + [claim];
    assert m.claims[|s.claims|] == claim;
    n := Next(m, Invoke(t, Done, true));
    LeadsStep(m, Invoke(t, Done, true), late);
    LeadsOn(s, m, n, late);
    assert claim.calls + [Call(p.item.plan.ops[0], true)] == [Call(p.item.plan.ops[0], true)];
    assert n.claims[..|s.claims|] == s.claims;
  }

  // ----- In time: exactly the unsettled changesets -----

  /** A check of an approved copy that hashes to its plan can pass. */
  lemma CheckCanPass(s: State, t: int) returns (n: State)
    requires PhaseOf(s, t).Loaded? && IsPlannable(PhaseOf(s, t).item.plan)
    requires PhaseOf(s, t).item.hash == Some(HashOf(PhaseOf(s, t).item.plan))
    ensures Leads(s, n, false) && n.record == s.record && n.claims == s.claims && OthersSame(s, n, t)
    ensures PhaseOf(n, t).Checked? && PhaseOf(n, t).item == PhaseOf(s, t).item
  {
    var p := PhaseOf(s, t).item.plan;
    FavourableIsCurrent(p);
    NoPoliciesNeedApproval(p);
    var step := Check(t, false, true, Favourable(p), NoPolicies(p), true);
    LeadsStep(s, step, false);
    n := Next(s, step);
  }

  /** An approved row that hashes to its plan can be applied by any idle caller. */
  lemma ApprovedRuns(s: State, t: int) returns (n: State)
    requires PhaseOf(s, t).Idle? && s.record.status.Approved? && IsPlannable(s.record.plan)
    requires s.record.hash == Some(HashOf(s.record.plan))
    ensures Leads(s, n, false) && RanAgain(s, n) && n.record.plan == s.record.plan && OthersSame(s, n, t)
  {
    var m := Next(s, Load(t));
    LeadsStep(s, Load(t), false);
    var passed := CheckCanPass(m, t);
    LeadsOn(s, m, passed, false);
    n := CheckedRuns(passed, t, false);
    LeadsOn(s, passed, n, false);
  }

  /** In time, writing a recorded approval and applying it calls the first handler, whatever happened
      to the row since it was read, and leaves the other callers where they were. */
  lemma StaleApprovalRunsAgain(s: State, t: int) returns (n: State)
    requires PhaseOf(s, t).ApprovalRecorded? && PhaseOf(s, t).item.hash == Some(HashOf(s.record.plan))
    requires IsPlannable(s.record.plan)
    ensures Leads(s, n, false) && RanAgain(s, n) && n.record.plan == s.record.plan && OthersSame(s, n, t)
  {
    var m := ApprovalCanEnd(s, t, false);
    n := ApprovedRuns(m, t);
    LeadsOn(s, m, n, false);
  }

  lemma ApprovingCanRun(s: State, t: int)
    requires PhaseOf(s, t).Approving? && IsPlannable(s.record.plan)
    requires PhaseOf(s, t).item.hash == Some(HashOf(s.record.plan))
    ensures CanRun(s, false)
  {
    var m := ApprovalCanBeRecorded(s, t, false);
    var n := StaleApprovalRunsAgain(m, t);
    LeadsThenRun(s, m, false);
  }

  lemma AwaitingCanRun(s: State, t: int)
    requires PhaseOf(s, t).Idle? && s.record.status.AwaitingApproval? && IsPlannable(s.record.plan)
    requires s.record.hash == Some(HashOf(s.record.plan))
    ensures CanRun(s, false)
  {
    var m := ApprovalCanBegin(s, t, false);
    ApprovingCanRun(m, t);
    LeadsThenRun(s, m, false);
  }

  lemma ValidatingCanRun(s: State, t: int)
    requires PhaseOf(s, t).Validating? && PhaseOf(s, t).item.plan == s.record.plan && IsPlannable(s.record.plan)
    ensures CanRun(s, false)
  {
    var m := ValidationCanEnd(s, t, false);
    AwaitingCanRun(m, t);
    LeadsThenRun(s, m, false);
  }

  lemma OpenCanRun(s: State, t: int)
    requires PhaseOf(s, t).Idle? && Open(s.record.status) && IsPlannable(s.record.plan)
    ensures CanRun(s, false)
  {
    var m := Next(s, ValidateBegin(t, false, true));
    LeadsStep(s, ValidateBegin(t, false, true), false);
    ValidatingCanRun(m, t);
    LeadsThenRun(s, m, false);
  }

  /** In time, a caller that may still write re-arms the changeset, claimed or finished. */
  lemma WritingCanRun(s: State, t: int)
    requires Justified(s) && PlanKept(s, s.record.plan) && IsPlannable(s.record.plan) && Writing(PhaseOf(s, t))
    ensures CanRun(s, false)
  {
    assert PhaseOfPlan(PhaseOf(s, t), s.record.plan) && PhaseJustified(s, PhaseOf(s, t));
    match PhaseOf(s, t)
    case Validating(_) => ValidatingCanRun(s, t);
    case Approving(_, _) => ApprovingCanRun(s, t);
    case ApprovalRecorded(_) =>
      var n := StaleApprovalRunsAgain(s, t);
  }

  lemma UnclosedCanRun(s: State)
    requires Justified(s) && PlanKept(s, s.record.plan) && IsPlannable(s.record.plan) && !Closed(s.record.status)
    ensures CanRun(s, false)
  {
    var m := Next(s, Stop(0));
    LeadsStep(s, Stop(0), false);
    if Open(s.record.status) {
      OpenCanRun(m, 0);
    } else {
      var n := ApprovedRuns(m, 0);
    }
    LeadsThenRun(s, m, false);
  }

  lemma UnsettledCanRun(s: State)
    requires Justified(s) && PlanKept(s, s.record.plan) && IsPlannable(s.record.plan) && !Settled(s)
    ensures CanRun(s, false)
  {
    if Closed(s.record.status) {
      var t :| t in s.callers && Writing(s.callers[t]);
      WritingCanRun(s, t);
    } else {
      UnclosedCanRun(s);
    }
  }

  // ----- Once expired: exactly the changesets somebody has already checked -----

  ghost predicate SomeoneWriting(s: State) {
    exists t :: t in s.callers && Writing(s.callers[t])
  }

  ghost predicate SomeoneChecked(s: State) {
    exists t :: t in s.callers && s.callers[t].Checked?
  }

  /** The row is approved, or can still become so without a look at the clock. */
  ghost predicate CanBeApproved(s: State) {
    || s.record.status.Approved? || (s.record.status.AwaitingApproval? && s.record.hash.Some?)
    || SomeoneWriting(s)
  }

  /** Somebody passed the checks in time and only needs the row to be approved. */
  ghost predicate LateClaimable(s: State) {
    SomeoneChecked(s) && CanBeApproved(s)
  }

  lemma NobodyChecks(s: State, step: Step)
    requires Enabled(s, step) && (LooksAtClock(step) ==> IsLate(step)) && !SomeoneChecked(s)
    ensures !SomeoneChecked(Next(s, step)) && |Next(s, step).claims| == |s.claims|
  {
    var n := Next(s, step);
    forall u | u in n.callers
      ensures !n.callers[u].Checked?
    {
      if CallerOf(step) != Some(u) {
        OthersWait(s, step, u);
      }
    }
  }

  lemma NobodyApproves(s: State, step: Step)
    requires Enabled(s, step) && (LooksAtClock(step) ==> IsLate(step)) && !CanBeApproved(s)
    ensures !CanBeApproved(Next(s, step)) && |Next(s, step).claims| == |s.claims|
  {
    var n := Next(s, step);
    forall u | u in n.callers
      ensures !Writing(n.callers[u])
    {
      if CallerOf(step) != Some(u) {
        OthersWait(s, step, u);
      }
    }
  }

  lemma {:induction false} LateRunClaimsNothing(s: State, steps: seq<Step>, n: State)
    requires Reaches(s, steps, n) && AllLooks(steps, true) && !LateClaimable(s)
    ensures |n.claims| == |s.claims|
    decreases |steps|
  {
    if steps != [] {
      if !SomeoneChecked(s) {
        NobodyChecks(s, steps[0]);
      } else {
        NobodyApproves(s, steps[0]);
      }
      LateRunClaimsNothing(Next(s, steps[0]), steps[1..], n);
    }
  }

  /** `u` has passed the checks on the stored plan. */
  ghost predicate Ready(s: State, u: int) {
    PhaseOf(s, u).Checked? && PhaseOf(s, u).item.plan == s.record.plan && IsPlannable(s.record.plan)
  }

  lemma ReadyRunsOnceRecorded(s: State, u: int, w: int)
    requires Ready(s, u) && PhaseOf(s, w).ApprovalRecorded?
    ensures CanRun(s, true)
  {
    var m := ApprovalCanEnd(s, w, true);
    assert PhaseOf(m, u) == PhaseOf(s, u);
    var n := CheckedRuns(m, u, true);
    LeadsThenRun(s, m, true);
  }

  lemma ReadyRunsOnceApproving(s: State, u: int, w: int)
    requires Ready(s, u) && PhaseOf(s, w).Approving? && PhaseOf(s, w).item.hash.Some?
    ensures CanRun(s, true)
  {
    var m := ApprovalCanBeRecorded(s, w, true);
    assert PhaseOf(m, u) == PhaseOf(s, u);
    ReadyRunsOnceRecorded(m, u, w);
    LeadsThenRun(s, m, true);
  }

  lemma ReadyRunsOnceAwaiting(s: State, u: int)
    requires Ready(s, u) && s.record.status.AwaitingApproval? && s.record.hash.Some?
    ensures CanRun(s, true)
  {
    var w := u + 1;
    var idle := Next(s, Stop(w));
    LeadsStep(s, Stop(w), true);
    assert PhaseOf(idle, u) == PhaseOf(s, u);
    var m := ApprovalCanBegin(idle, w, true);
    assert PhaseOf(m, u) == PhaseOf(s, u);
    ReadyRunsOnceApproving(m, u, w);
    LeadsThenRun(idle, m, true);
    LeadsThenRun(s, idle, true);
  }

  lemma ReadyRunsOnceValidating(s: State, u: int, w: int)
    requires Ready(s, u) && PhaseOf(s, w).Validating? && IsPlannable(PhaseOf(s, w).item.plan)
    ensures CanRun(s, true)
  {
    var m := ValidationCanEnd(s, w, true);
    assert PhaseOf(m, u) == PhaseOf(s, u);
    ReadyRunsOnceAwaiting(m, u);
    LeadsThenRun(s, m, true);
  }

  lemma ReadyRunsOnceWritten(s: State, u: int, w: int)
    requires Justified(s) && PlanKept(s, s.record.plan) && Ready(s, u) && Writing(PhaseOf(s, w))
    ensures CanRun(s, true)
  {
    assert PhaseOfPlan(PhaseOf(s, w), s.record.plan) && PhaseJustified(s, PhaseOf(s, w));
    match PhaseOf(s, w)
    case Validating(_) => ReadyRunsOnceValidating(s, u, w);
    case Approving(_, _) => ReadyRunsOnceApproving(s, u, w);
    case ApprovalRecorded(_) => ReadyRunsOnceRecorded(s, u, w);
  }

  lemma LateClaimableRuns(s: State)
    requires Justified(s) && PlanKept(s, s.record.plan) && IsPlannable(s.record.plan) && LateClaimable(s)
    ensures CanRun(s, true)
  {
    var u :| u in s.callers && s.callers[u].Checked?;
    assert PhaseOfPlan(s.callers[u], s.record.plan);
    if s.record.status.Approved? {
      var n := CheckedRuns(s, u, true);
    } else if s.record.status.AwaitingApproval? && s.record.hash.Some? {
      ReadyRunsOnceAwaiting(s, u);
    } else {
      var w :| w in s.callers && Writing(s.callers[w]);
      ReadyRunsOnceWritten(s, u, w);
    }
  }

  // ----- The exact condition -----

  /** Some continuation of this history, under a clock that does not run backwards, claims again. */
  ghost predicate MayClaim(steps: seq<Step>, n: State) {
    exists more, m :: Reaches(n, more, m) && ClockAdvances(steps + more) && |m.claims| > |n.claims|
  }

  /** Some such continuation without edits also calls the first handler again. */
  ghost predicate MayRun(steps: seq<Step>, n: State) {
    exists more, m :: Reaches(n, more, m) && ClockAdvances(steps + more) && NoEdit(more) && RanAgain(n, m)
  }

  /** Before anybody found the changeset expired: the row is not closed, or somebody has yet to write.
      Afterwards: somebody passed the checks in time, and the row is or can become approved. */
  ghost predicate Claimable(steps: seq<Step>, n: State) {
    if FoundExpired(steps) then LateClaimable(n) else !Settled(n)
  }

  lemma LateAfterExpired(steps: seq<Step>, more: seq<Step>)
    requires FoundExpired(steps) && ClockAdvances(steps + more)
    ensures AllLooks(more, true)
  {
    var i :| 0 <= i < |steps| && IsLate(steps[i]);
    forall j | 0 <= j < |more| && LooksAtClock(more[j])
      ensures IsLate(more[j])
    {
      assert (steps + more)[i] == steps[i] && (steps + more)[|steps| + j] == more[j];
    }
  }

  lemma ClockContinues(steps: seq<Step>, more: seq<Step>, late: bool)
    requires ClockAdvances(steps) && AllLooks(more, late) && (FoundExpired(steps) ==> late)
    ensures ClockAdvances(steps + more)
  {
    var all := steps + more;
    forall i, j | 0 <= i < j < |all| && IsLate(all[i]) && LooksAtClock(all[j])
      ensures IsLate(all[j])
    {
      if j < |steps| {
        assert all[i] == steps[i] && all[j] == steps[j];
      } else {
        assert all[j] == more[j - |steps|];
        if i < |steps| {
          assert IsLate(steps[i]);
        } else {
          assert all[i] == more[i - |steps|];
        }
      }
    }
  }

  lemma RunMay(steps: seq<Step>, n: State, late: bool)
    requires ClockAdvances(steps) && (FoundExpired(steps) ==> late) && CanRun(n, late)
    ensures MayRun(steps, n) && MayClaim(steps, n)
  {
    var m :| Leads(n, m, late) && RanAgain(n, m);
    var more :| Reaches(n, more, m) && NoEdit(more) && AllLooks(more, late);
    ClockContinues(steps, more, late);
    assert |m.claims| > |n.claims|;
  }

  lemma MayClaimOnlyIf(steps: seq<Step>, n: State)
    requires MayClaim(steps, n)
    ensures Claimable(steps, n)
  {
    var more, m :| Reaches(n, more, m) && ClockAdvances(steps + more) && |m.claims| > |n.claims|;
    if FoundExpired(steps) {
      LateAfterExpired(steps, more);
      if !LateClaimable(n) {
        LateRunClaimsNothing(n, more, m);
      }
    } else if Settled(n) {
      SettledStays(n, more, m);
    }
  }

  /** The exact condition for running again. After any run of the stored plan under a clock that does
      not run backwards, a further claim, and with it a further call of the first handler, is possible
      iff the changeset is claimable. */
  lemma RunsAgainIffClaimable(s: State, steps: seq<Step>, n: State)
    requires Init(s) && Reaches(s, steps, n) && NoEdit(steps) && ClockAdvances(steps)
    ensures MayClaim(steps, n) <==> Claimable(steps, n)
    ensures MayRun(steps, n) <==> Claimable(steps, n)
  {
    InitHolds(s);
    RunHolds(s, steps, n);
    RunKeepsPlan(s, steps, n, s.record.plan);
    if Claimable(steps, n) {
      if FoundExpired(steps) {
        LateClaimableRuns(n);
        RunMay(steps, n, true);
      } else {
        UnsettledCanRun(n);
        RunMay(steps, n, false);
      }
    }
    if MayRun(steps, n) {
      var more, m :| Reaches(n, more, m) && ClockAdvances(steps + more) && NoEdit(more) && RanAgain(n, m);
      assert |m.claims| > |n.claims|;
    }
    if MayClaim(steps, n) {
      MayClaimOnlyIf(steps, n);
    }
  }

  // ----- Two overlapping approvals -----

  lemma DraftCanAwait(s: State) returns (n: State)
    requires Init(s)
    ensures Leads(s, n, false) && SameWork(s, n) && PhaseOf(n, 0).Idle? && PhaseOf(n, 1).Idle?
    ensures n.record.status.AwaitingApproval? && n.record.hash == Some(HashOf(s.record.plan))
  {
    var m := Next(s, ValidateBegin(0, false, true));
    LeadsStep(s, ValidateBegin(0, false, true), false);
    n := ValidationCanEnd(m, 0, false);
    LeadsOn(s, m, n, false);
  }

  lemma ApprovalCanWait(s: State, t: int) returns (n: State)
    requires s.record.status.AwaitingApproval? && s.record.hash.Some? && PhaseOf(s, t).Idle?
    ensures Leads(s, n, false) && n.claims == s.claims && n.record == s.record && OthersSame(s, n, t)
    ensures PhaseOf(n, t) == ApprovalRecorded(s.record)
  {
    var m := ApprovalCanBegin(s, t, false);
    n := ApprovalCanBeRecorded(m, t, false);
    LeadsOn(s, m, n, false);
  }

  lemma ApprovalsCanOverlap(s: State) returns (n: State)
    requires Init(s)
    ensures Leads(s, n, false) && SameWork(s, n)
    ensures forall t :: 0 <= t < 2 ==>
              PhaseOf(n, t).ApprovalRecorded? && PhaseOf(n, t).item.hash == Some(HashOf(s.record.plan))
  {
    var awaiting := DraftCanAwait(s);
    var one := ApprovalCanWait(awaiting, 0);
    n := ApprovalCanWait(one, 1);
    LeadsOn(s, awaiting, one, false);
    LeadsOn(s, one, n, false);
  }

  /** Two overlapping approvals of one draft, whatever its plan, can call its first handler twice in
      time: the store's update does not compare the status it replaces. */
  lemma OverlappingApprovalsRunTwice(s: State) returns (n: State)
    requires Init(s)
    ensures Leads(s, n, false) && |n.claims| == 2
    ensures forall k :: 0 <= k < 2 ==> n.claims[k].calls == [Call(s.record.plan.ops[0], true)]
  {
    var two := ApprovalsCanOverlap(s);
    var first := StaleApprovalRunsAgain(two, 0);
    n := StaleApprovalRunsAgain(first, 1);
    LeadsOn(s, two, first, false);
    LeadsOn(s, first, n, false);
    assert n.claims[0] == n.claims[..1][0] == first.claims[0];
  }

  // ----- Exactly when a success lasts -----

  /** A validation that starts after the expiry overwrites any row, a succeeded one included. */
  predicate IsLateValidation(step: Step) {
    step.ValidateBegin? && step.expired
  }

  ghost predicate NoLateValidation(steps: seq<Step>) {
    forall i :: 0 <= i < |steps| ==> !IsLateValidation(steps[i])
  }

  /** This caller can still write something else over a succeeded row: a validation, an approval, the
      verdict of a check on an earlier copy, or the failure of another claim. */
  ghost predicate Threatens(s: State, p: Phase) {
    Writing(p) || p.Loaded? || (p.Running? && p.claim < |s.claims| && p.done < |s.claims[p.claim].item.plan.ops|)
  }

  ghost predicate Lasting(s: State) {
    s.record.status.Succeeded? && forall t :: t in s.callers ==> !Threatens(s, s.callers[t])
  }

  lemma StepLasting(s: State, step: Step)
    requires Lasting(s) && Enabled(s, step) && !IsLateValidation(step)
    ensures Lasting(Next(s, step))
  {
    var n := Next(s, step);
    StepGrows(s, step);
    forall u | u in n.callers
      ensures !Threatens(n, n.callers[u])
    {
      if CallerOf(step) != Some(u) {
        OthersWait(s, step, u);
      }
    }
  }

  lemma {:induction false} RunLasting(s: State, steps: seq<Step>, n: State)
    requires Lasting(s) && Reaches(s, steps, n) && NoLateValidation(steps)
    ensures Lasting(n)
    decreases |steps|
  {
    if steps != [] {
      StepLasting(s, steps[0]);
      RunLasting(Next(s, steps[0]), steps[1..], n);
    }
  }

  ghost predicate CanLoseSuccess(s: State) {
    exists steps, n :: Reaches(s, steps, n) && NoLateValidation(steps) && !n.record.status.Succeeded?
  }

  lemma LoseInOneStep(s: State, step: Step)
    requires Enabled(s, step) && !IsLateValidation(step) && !Next(s, step).record.status.Succeeded?
    ensures CanLoseSuccess(s)
  {
    OneStep(s, step);
    assert NoLateValidation([step]);
  }

  lemma ThreatCanOverwrite(s: State, t: int)
    requires Justified(s) && Threatens(s, PhaseOf(s, t)) && s.record.status.Succeeded?
    requires PhaseOf(s, t).Validating? ==> IsPlannable(PhaseOf(s, t).item.plan)
    ensures CanLoseSuccess(s)
  {
    var p := PhaseOf(s, t);
    assert PhaseJustified(s, p);
    match p
    case Validating(item) =>
      FavourableIsCurrent(item.plan);
      NoPoliciesNeedApproval(item.plan);
      LoseInOneStep(s, ValidateEnd(t, Favourable(item.plan), true, NoPolicies(item.plan), false, true));
    case ApprovalRecorded(_) => LoseInOneStep(s, ApproveEnd(t, true));
    case Approving(_, _) =>
      var m := Next(s, ApproveRecord(t));
      TwoSteps(s, ApproveRecord(t), ApproveEnd(t, true));
      assert NoLateValidation([ApproveRecord(t), ApproveEnd(t, true)]);
    case Loaded(item) => LoseInOneStep(s, Check(t, true, true, Favourable(item.plan), NoPolicies(item.plan), true));
    case Running(_, _) => LoseInOneStep(s, Invoke(t, Unavailable, true));
  }

  ghost predicate CanExpire(s: State) {
    exists n :: Leads(s, n, true) && n.record.status.Expired?
  }

  /** The expiry is tested before the status, so a late validation expires a row in any state. */
  lemma LateValidationExpires(s: State)
    ensures CanExpire(s)
  {
    var m := Next(s, Stop(0));
    LeadsStep(s, Stop(0), true);
    var n := Next(m, ValidateBegin(0, true, true));
    LeadsStep(m, ValidateBegin(0, true, true), true);
    LeadsOn(s, m, n, true);
  }

  /** A validation after the expiry can undo any success. Short of one, a succeeded changeset stays succeeded in every
      continuation iff no caller is left that read the row before and can still write. */
  lemma SuccessLastsIffUnthreatened(s: State, steps: seq<Step>, n: State)
    requires Init(s) && Reaches(s, steps, n) && NoEdit(steps) && n.record.status.Succeeded?
    ensures CanLoseSuccess(n) <==> !Lasting(n)
    ensures CanExpire(n)
  {
    LateValidationExpires(n);
    InitHolds(s);
    RunHolds(s, steps, n);
    RunKeepsPlan(s, steps, n, s.record.plan);
    if t :| t in n.callers && Threatens(n, n.callers[t]) {
      assert PhaseOfPlan(n.callers[t], s.record.plan);
      ThreatCanOverwrite(n, t);
    }
    if CanLoseSuccess(n) {
      var more, m :| Reaches(n, more, m) && NoLateValidation(more) && !m.record.status.Succeeded?;
      if Lasting(n) {
        RunLasting(n, more, m);
      }
    }
  }
}
