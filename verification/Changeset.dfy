/** The changeset lifecycle as a state machine over its store operations
    (internal/automation/service.go, internal/store/automation.go).

    Every caller works on the copy of the row it read. Between reading and writing, other callers
    may step, and the stored plan itself may be edited. The store's update is unconditional; only
    the claim that precedes the handlers compares before it sets. */
module Changeset {

  import opened Common
  import opened ChangesetChecks

  datatype Status =
    | Draft | Validated | AwaitingApproval | Approved | Applying | Succeeded | Failed | Expired | Superseded

  predicate Open(st: Status) {
    st.Draft? || st.Validated? || st.AwaitingApproval?
  }

  predicate Closed(st: Status) {
    !Open(st) && !st.Approved?
  }

  datatype Record = Record(status: Status, hash: Option<Digest>, risk: int, plan: Plan)

  datatype Role = Admin | Operator | OtherRole

  datatype Approver = Approver(interactive: bool, identified: bool, role: Role)

  predicate MayApprove(who: Approver) {
    who.interactive && who.identified && (who.role.Admin? || who.role.Operator?)
  }

  /** Where one caller stands, with the row as it read it. */
  datatype Phase =
    | Idle
    | Validating(item: Record)
    | Approving(item: Record, who: Approver)
    | ApprovalRecorded(item: Record)
    | Loaded(item: Record)
    | Checked(item: Record, found: seq<Inspection>, lookups: seq<Lookup>)
    | Running(claim: nat, done: nat)

  // What the run leaves behind as evidence.
  datatype Validation = Validation(plan: Plan, found: seq<Inspection>)
  datatype Grant = Grant(digest: Digest, lookups: seq<Lookup>, oauth: bool)
  datatype Approval = Approval(digest: Digest, who: Approver, risk: int)
  datatype Call = Call(op: Operation, ok: bool)
  datatype Claim = Claim(item: Record, found: seq<Inspection>, lookups: seq<Lookup>, calls: seq<Call>)

  datatype State = State(
    record: Record, callers: map<int, Phase>,
    validated: set<Digest>, validations: set<Validation>, grants: set<Grant>, approvals: set<Approval>, claims: seq<Claim>)

  datatype Outcome = Unavailable | HandlerFailed | ResultNotStored | Done

  datatype Step =
    | ValidateBegin(t: int, expired: bool, stored: bool)
    | ValidateEnd(t: int, found: seq<Inspection>, hashable: bool, lookups: seq<Lookup>, oauth: bool, stored: bool)
    | ApproveBegin(t: int, who: Approver)
    | ApproveRecord(t: int)
    | ApproveEnd(t: int, stored: bool)
    | Load(t: int)
    | Check(t: int, expired: bool, hashable: bool, found: seq<Inspection>, lookups: seq<Lookup>, stored: bool)
    | TryClaim(t: int, reported: bool)
    | Invoke(t: int, outcome: Outcome, stored: bool)
    | Finish(t: int, stored: bool)
    | Stop(t: int)
    | Edit(plan: Plan)

  function PhaseOf(s: State, t: int): Phase {
    if t in s.callers then s.callers[t] else Idle
  }

  function Move(s: State, t: int, p: Phase): State {
    s.(callers := s.callers[t := p])
  }

  /** The unconditional update: status, hash and risk come from the caller's copy; `stored` is false
      when the write is lost. */
  function Save(r: Record, item: Record, st: Status, stored: bool): Record {
    if stored then r.(status := st, hash := item.hash, risk := item.risk) else r
  }

  /** One inspection and one policy lookup for each operation of the caller's copy. */
  predicate Covers(found: seq<Inspection>, lookups: seq<Lookup>, item: Record) {
    |found| == |item.plan.ops| && |lookups| == |item.plan.ops|
  }

  predicate Enabled(s: State, step: Step) {
    match step
    case ValidateBegin(t, _, _) => PhaseOf(s, t).Idle?
    case ValidateEnd(t, found, _, lookups, _, _) => PhaseOf(s, t).Validating? && Covers(found, lookups, PhaseOf(s, t).item)
    case ApproveBegin(t, _) => PhaseOf(s, t).Idle?
    case ApproveRecord(t) => PhaseOf(s, t).Approving?
    case ApproveEnd(t, _) => PhaseOf(s, t).ApprovalRecorded?
    case Load(t) => PhaseOf(s, t).Idle?
    case Check(t, _, _, found, lookups, _) => PhaseOf(s, t).Loaded? && Covers(found, lookups, PhaseOf(s, t).item)
    case TryClaim(t, _) => PhaseOf(s, t).Checked?
    case Invoke(t, _, _) =>
      var p := PhaseOf(s, t);
      p.Running? && p.claim < |s.claims| && p.done < |s.claims[p.claim].item.plan.ops|
    case Finish(t, _) =>
      var p := PhaseOf(s, t);
      p.Running? && p.claim < |s.claims| && p.done == |s.claims[p.claim].item.plan.ops|
    case Stop(t) => true
    case Edit(_) => true
  }

  function AfterValidateBegin(s: State, t: int, expired: bool, stored: bool): State {
    var item := s.record;
    if expired then s.(record := Save(s.record, item, Expired, stored))
    else if Open(item.status) then Move(s, t, Validating(item))
    else s
  }

  function AfterValidateEnd(s: State, t: int, item: Record, found: seq<Inspection>, hashable: bool,
                            lookups: seq<Lookup>, oauth: bool, stored: bool): State
  {
    var d := HashOf(item.plan);
    var decision := Decide(d.ops, lookups, oauth);
    if !IsCurrent(item.plan, found) || !hashable || decision.Refused? then Move(s, t, Idle)
    else
      var st := if decision.Automatic? then Approved else AwaitingApproval;
      Move(s, t, Idle).(
        record := Save(s.record, item.(hash := Some(d)), st, stored), validated := s.validated + {d}, validations := s.validations + {Validation(item.plan, found)},
        grants := if decision.Automatic? then s.grants + {Grant(d, lookups, oauth)} else s.grants)
  }

  function AfterApproveBegin(s: State, t: int, who: Approver): State {
    var item := s.record;
    if MayApprove(who) && item.status.AwaitingApproval? && item.hash.Some? then Move(s, t, Approving(item, who)) else s
  }

  function AfterCheck(s: State, t: int, item: Record, expired: bool, hashable: bool, found: seq<Inspection>,
                      lookups: seq<Lookup>, stored: bool): State
  {
    if expired then Move(s, t, Idle).(record := Save(s.record, item, Expired, stored))
    else if !hashable || item.hash != Some(HashOf(item.plan)) then
      Move(s, t, Idle).(record := Save(s.record, item, Superseded, stored))
    else if !IsCurrent(item.plan, found) then
      Move(s, t, Idle).(record := Save(s.record, item, Superseded, stored))
    else if AnyRefuses(lookups) then Move(s, t, Idle)
    else Move(s, t, Checked(item, found, lookups))
  }

  /** Compare-and-set from approved to applying. When the store reports an error the caller gives
      up, whether or not the row changed. */
  function AfterTryClaim(s: State, t: int, c: Claim, reported: bool): State {
    if !s.record.status.Approved? then Move(s, t, Idle)
    else if !reported then Move(s, t, Idle).(record := s.record.(status := Applying))
    else Move(s, t, Running(|s.claims|, 0)).(record := s.record.(status := Applying), claims := s.claims + [c])
  }

  function AfterInvoke(s: State, t: int, k: nat, done: nat, outcome: Outcome, stored: bool): State
    requires k < |s.claims| && done < |s.claims[k].item.plan.ops|
  {
    var c := s.claims[k];
    var failed := Save(s.record, c.item, Failed, stored);
    if outcome.Unavailable? then Move(s, t, Idle).(record := failed)
    else
      var called := s.(claims := s.claims[k := c.(calls := c.calls + [Call(c.item.plan.ops[done], !outcome.HandlerFailed?)])]);
      if outcome.Done? then Move(called, t, Running(k, done + 1)) else Move(called, t, Idle).(record := failed)
  }

  function Next(s: State, step: Step): State
    requires Enabled(s, step)
  {
    match step
    case ValidateBegin(t, expired, stored) => AfterValidateBegin(s, t, expired, stored)
    case ValidateEnd(t, found, hashable, lookups, oauth, stored) =>
      AfterValidateEnd(s, t, PhaseOf(s, t).item, found, hashable, lookups, oauth, stored)
    case ApproveBegin(t, who) => AfterApproveBegin(s, t, who)
    case ApproveRecord(t) =>
      var p := PhaseOf(s, t);
      if p.item.hash.None? then Move(s, t, Idle)
      else Move(s, t, ApprovalRecorded(p.item)).(approvals := s.approvals + {Approval(p.item.hash.value, p.who, p.item.risk)})
    case ApproveEnd(t, stored) =>
      Move(s, t, Idle).(record := Save(s.record, PhaseOf(s, t).item, Approved, stored))
    case Load(t) => if s.record.status.Approved? then Move(s, t, Loaded(s.record)) else s
    case Check(t, expired, hashable, found, lookups, stored) =>
      AfterCheck(s, t, PhaseOf(s, t).item, expired, hashable, found, lookups, stored)
    case TryClaim(t, reported) =>
      var p := PhaseOf(s, t);
      AfterTryClaim(s, t, Claim(p.item, p.found, p.lookups, []), reported)
    case Invoke(t, outcome, stored) =>
      var p := PhaseOf(s, t);
      AfterInvoke(s, t, p.claim, p.done, outcome, stored)
    case Finish(t, stored) =>
      Move(s, t, Idle).(record := Save(s.record, s.claims[PhaseOf(s, t).claim].item, Succeeded, stored))
    case Stop(t) => Move(s, t, Idle)
    case Edit(plan) => s.(record := s.record.(plan := plan))
  }

  /** A created changeset: 1 to 64 operations and base revisions that decode. */
  predicate IsPlannable(p: Plan) {
    1 <= |p.ops| <= 64 && Decodes(p.base)
  }

  ghost predicate Init(s: State) {
    && IsPlannable(s.record.plan)
    && s.record.status.Draft? && s.record.hash.None?
    && s.callers == map[] && s.validated == {} && s.validations == {} && s.grants == {} && s.approvals == {} && s.claims == []
  }

  /** `steps` is a run from `s` to `n`. */
  ghost predicate Reaches(s: State, steps: seq<Step>, n: State)
    decreases |steps|
  {
    if steps == [] then s == n else Enabled(s, steps[0]) && Reaches(Next(s, steps[0]), steps[1..], n)
  }

  // ----- Which plan the handlers run, in every interleaving -----

  ghost predicate Granted(s: State, d: Digest) {
    exists g :: g in s.grants && g.digest == d
  }

  ghost predicate ApprovedBySomeone(s: State, d: Digest) {
    exists a :: a in s.approvals && a.digest == d
  }

  /** This plan was validated, and either every operation was preapproved or an operator approved
      exactly this hash. */
  ghost predicate Vouched(s: State, d: Digest) {
    d in s.validated && (Granted(s, d) || ApprovedBySomeone(s, d))
  }

  ghost predicate HashValidated(s: State, r: Record) {
    r.hash.Some? ==> r.hash.value in s.validated
  }

  ghost predicate ApprovedItem(s: State, r: Record) {
    r.status.Approved? && r.hash.Some? && Vouched(s, r.hash.value)
  }

  ghost predicate CheckedItem(s: State, r: Record, found: seq<Inspection>, lookups: seq<Lookup>) {
    && ApprovedItem(s, r) && r.hash == Some(HashOf(r.plan))
    && IsCurrent(r.plan, found) && Covers(found, lookups, r) && !AnyRefuses(lookups)
  }

  ghost predicate PhaseJustified(s: State, p: Phase) {
    match p
    case Idle => true
    case Validating(item) => HashValidated(s, item) && Open(item.status)
    case Approving(item, who) => HashValidated(s, item) && item.status.AwaitingApproval? && item.hash.Some? && MayApprove(who)
    case ApprovalRecorded(item) =>
      HashValidated(s, item) && item.status.AwaitingApproval? && item.hash.Some? && ApprovedBySomeone(s, item.hash.value)
    case Loaded(item) => ApprovedItem(s, item)
    case Checked(item, found, lookups) => CheckedItem(s, item, found, lookups)
    case Running(k, _) => k < |s.claims|
  }

  ghost predicate Justified(s: State) {
    && HashValidated(s, s.record)
    && (s.record.status.Approved? ==> ApprovedItem(s, s.record))
    && (forall t :: t in s.callers ==> PhaseJustified(s, s.callers[t]))
    && (forall g :: g in s.grants ==> AllPreapproved(g.digest.ops, g.lookups, g.oauth))
    && (forall a :: a in s.approvals ==> MayApprove(a.who))
    && (forall k :: 0 <= k < |s.claims| ==> CheckedItem(s, s.claims[k].item, s.claims[k].found, s.claims[k].lookups))
  }

  /** Evidence only grows. */
  ghost predicate Grows(s: State, n: State) {
    s.validated <= n.validated && s.grants <= n.grants && s.approvals <= n.approvals && |s.claims| <= |n.claims|
  }

  lemma StillVouched(s: State, n: State, d: Digest)
    requires Grows(s, n)
    ensures Granted(s, d) ==> Granted(n, d)
    ensures ApprovedBySomeone(s, d) ==> ApprovedBySomeone(n, d)
    ensures Vouched(s, d) ==> Vouched(n, d)
  {
    if Granted(s, d) {
      var g :| g in s.grants && g.digest == d;
      assert g in n.grants;
    }
    if ApprovedBySomeone(s, d) {
      var a :| a in s.approvals && a.digest == d;
      assert a in n.approvals;
    }
  }

  lemma PhaseStaysJustified(s: State, n: State, p: Phase)
    requires Grows(s, n) && PhaseJustified(s, p)
    ensures PhaseJustified(n, p)
  {
    match p
    case Idle =>
    case Running(_, _) =>
    case _ =>
      if p.item.hash.Some? {
        StillVouched(s, n, p.item.hash.value);
      }
  }

  lemma StepGrows(s: State, step: Step)
    requires Enabled(s, step)
    ensures Grows(s, Next(s, step))
    ensures |Next(s, step).claims| <= |s.claims| + 1
    ensures forall k :: 0 <= k < |s.claims| ==>
              var c, d := s.claims[k], Next(s, step).claims[k];
              c.item == d.item && c.found == d.found && c.lookups == d.lookups
  {
  }

  /** The caller that stepped, if any. */
  function CallerOf(step: Step): Option<int> {
    if step.Edit? then None else Some(step.t)
  }

  lemma OthersWait(s: State, step: Step, u: int)
    requires Enabled(s, step) && CallerOf(step) != Some(u)
    ensures PhaseOf(Next(s, step), u) == PhaseOf(s, u)
  {
  }

  lemma CheckerStaysJustified(s: State, step: Step)
    requires Justified(s) && Enabled(s, step) && step.Check?
    ensures PhaseJustified(Next(s, step), PhaseOf(Next(s, step), step.t))
  {
    StepGrows(s, step);
    PhaseStaysJustified(s, Next(s, step), PhaseOf(s, step.t));
  }

  /** Reading the row copies what is known about it. */
  lemma ReaderStaysJustified(s: State, step: Step)
    requires Justified(s) && Enabled(s, step) && (step.ValidateBegin? || step.ApproveBegin? || step.Load?)
    ensures PhaseJustified(Next(s, step), PhaseOf(Next(s, step), step.t))
  {
    if s.record.hash.Some? {
      StepGrows(s, step);
      StillVouched(s, Next(s, step), s.record.hash.value);
    }
  }

  /** Ending a call, claiming and calling handlers leave nothing to justify. */
  lemma FinisherStaysJustified(s: State, step: Step)
    requires Justified(s) && Enabled(s, step)
    requires step.ValidateEnd? || step.ApproveEnd? || step.TryClaim? || step.Invoke? || step.Finish? || step.Stop?
    ensures PhaseJustified(Next(s, step), PhaseOf(Next(s, step), step.t))
  {
    StepGrows(s, step);
  }

  lemma CallerStaysJustified(s: State, step: Step)
    requires Justified(s) && Enabled(s, step) && !step.Edit?
    ensures PhaseJustified(Next(s, step), PhaseOf(Next(s, step), step.t))
  {
    var n := Next(s, step);
    match step
    case Check(_, _, _, _, _, _) => CheckerStaysJustified(s, step);
    case ApproveRecord(t) =>
      StepGrows(s, step);
      PhaseStaysJustified(s, n, PhaseOf(s, t));
      var p := PhaseOf(s, t);
      if p.item.hash.Some? {
        assert Approval(p.item.hash.value, p.who, p.item.risk) in n.approvals;
      }
    case ValidateBegin(_, _, _) => ReaderStaysJustified(s, step);
    case ApproveBegin(_, _) => ReaderStaysJustified(s, step);
    case Load(_) => ReaderStaysJustified(s, step);
    case _ => FinisherStaysJustified(s, step);
  }

  lemma WrittenStaysJustified(s: State, step: Step)
    requires Justified(s) && Enabled(s, step) && step.ValidateEnd?
    ensures var n := Next(s, step);
            HashValidated(n, n.record) && (n.record.status.Approved? ==> ApprovedItem(n, n.record))
  {
    var n := Next(s, step);
    StepGrows(s, step);
    if s.record.hash.Some? {
      StillVouched(s, n, s.record.hash.value);
    }
    var d := HashOf(PhaseOf(s, step.t).item.plan);
    if Decide(d.ops, step.lookups, step.oauth).Automatic? && n.record.status.Approved? && n.record != s.record {
      assert Grant(d, step.lookups, step.oauth) in n.grants;
    }
  }

  lemma CheckWrites(s: State, step: Step)
    requires Justified(s) && Enabled(s, step) && step.Check?
    ensures HashValidated(s, Next(s, step).record)
    ensures Next(s, step).record.status.Approved? ==> s.record.status.Approved? && Next(s, step).record.hash == s.record.hash
  {
    assert PhaseJustified(s, PhaseOf(s, step.t));
  }

  lemma InvokeWrites(s: State, step: Step)
    requires Justified(s) && Enabled(s, step) && step.Invoke?
    ensures HashValidated(s, Next(s, step).record)
    ensures Next(s, step).record.status.Approved? ==> s.record.status.Approved? && Next(s, step).record.hash == s.record.hash
  {
    var k := PhaseOf(s, step.t).claim;
    assert CheckedItem(s, s.claims[k].item, s.claims[k].found, s.claims[k].lookups);
  }

  lemma FinishWrites(s: State, step: Step)
    requires Justified(s) && Enabled(s, step) && step.Finish?
    ensures HashValidated(s, Next(s, step).record)
    ensures Next(s, step).record.status.Approved? ==> s.record.status.Approved? && Next(s, step).record.hash == s.record.hash
  {
    var k := PhaseOf(s, step.t).claim;
    assert CheckedItem(s, s.claims[k].item, s.claims[k].found, s.claims[k].lookups);
  }

  /** Every other write leaves an approved row as it was, or closes it under a validated hash. */
  lemma OtherWrites(s: State, step: Step)
    requires Justified(s) && Enabled(s, step) && !step.ValidateEnd? && !step.ApproveEnd?
    ensures HashValidated(s, Next(s, step).record)
    ensures Next(s, step).record.status.Approved? ==> s.record.status.Approved? && Next(s, step).record.hash == s.record.hash
  {
    match step
    case Check(_, _, _, _, _, _) => CheckWrites(s, step);
    case Invoke(_, _, _) => InvokeWrites(s, step);
    case Finish(_, _) => FinishWrites(s, step);
    case _ =>
  }

  lemma RecordStaysJustified(s: State, step: Step)
    requires Justified(s) && Enabled(s, step)
    ensures var n := Next(s, step);
            HashValidated(n, n.record) && (n.record.status.Approved? ==> ApprovedItem(n, n.record))
  {
    var n := Next(s, step);
    match step
    case ValidateEnd(_, _, _, _, _, _) => WrittenStaysJustified(s, step);
    case ApproveEnd(t, _) =>
      StepGrows(s, step);
      assert PhaseJustified(s, PhaseOf(s, t));
      StillVouched(s, n, PhaseOf(s, t).item.hash.value);
      if s.record.hash.Some? {
        StillVouched(s, n, s.record.hash.value);
      }
    case _ =>
      StepGrows(s, step);
      OtherWrites(s, step);
      if s.record.hash.Some? {
        StillVouched(s, n, s.record.hash.value);
      }
  }

  lemma OldClaimJustified(s: State, step: Step, k: nat)
    requires Justified(s) && Enabled(s, step) && k < |s.claims|
    ensures var n := Next(s, step);
            k < |n.claims| && CheckedItem(n, n.claims[k].item, n.claims[k].found, n.claims[k].lookups)
  {
    StepGrows(s, step);
    StillVouched(s, Next(s, step), s.claims[k].item.hash.value);
  }

  lemma NewClaimJustified(s: State, step: Step, k: nat)
    requires Justified(s) && Enabled(s, step) && |s.claims| <= k < |Next(s, step).claims|
    ensures var n := Next(s, step); CheckedItem(n, n.claims[k].item, n.claims[k].found, n.claims[k].lookups)
  {
    var p := PhaseOf(s, step.t);
    assert PhaseJustified(s, p);
    StepGrows(s, step);
    StillVouched(s, Next(s, step), p.item.hash.value);
  }

  lemma ClaimsStayJustified(s: State, step: Step)
    requires Justified(s) && Enabled(s, step)
    ensures var n := Next(s, step);
            forall k :: 0 <= k < |n.claims| ==> CheckedItem(n, n.claims[k].item, n.claims[k].found, n.claims[k].lookups)
  {
    var n := Next(s, step);
    forall k | 0 <= k < |n.claims|
      ensures CheckedItem(n, n.claims[k].item, n.claims[k].found, n.claims[k].lookups)
    {
      if k < |s.claims| {
        OldClaimJustified(s, step, k);
      } else {
        NewClaimJustified(s, step, k);
      }
    }
  }

  lemma OtherStaysJustified(s: State, step: Step, u: int)
    requires Justified(s) && Enabled(s, step) && CallerOf(step) != Some(u)
    ensures PhaseJustified(Next(s, step), PhaseOf(Next(s, step), u))
  {
    StepGrows(s, step);
    OthersWait(s, step, u);
    PhaseStaysJustified(s, Next(s, step), PhaseOf(s, u));
  }

  lemma GrantIsPreapproved(s: State, step: Step)
    requires Justified(s) && Enabled(s, step) && step.ValidateEnd?
    ensures forall g :: g in Next(s, step).grants ==> AllPreapproved(g.digest.ops, g.lookups, g.oauth)
    ensures Next(s, step).approvals == s.approvals
  {
  }

  lemma NoGrant(s: State, step: Step)
    requires Enabled(s, step) && !step.ValidateEnd?
    ensures Next(s, step).grants == s.grants
    ensures !step.ApproveRecord? ==> Next(s, step).approvals == s.approvals
  {
  }

  lemma EvidenceStaysGood(s: State, step: Step)
    requires Justified(s) && Enabled(s, step)
    ensures forall g :: g in Next(s, step).grants ==> AllPreapproved(g.digest.ops, g.lookups, g.oauth)
    ensures forall a :: a in Next(s, step).approvals ==> MayApprove(a.who)
  {
    if step.ValidateEnd? {
      GrantIsPreapproved(s, step);
    } else {
      NoGrant(s, step);
      if step.ApproveRecord? {
        assert PhaseJustified(s, PhaseOf(s, step.t));
      }
    }
  }

  lemma StepJustified(s: State, step: Step)
    requires Justified(s) && Enabled(s, step)
    ensures Justified(Next(s, step))
  {
    var n := Next(s, step);
    RecordStaysJustified(s, step);
    ClaimsStayJustified(s, step);
    EvidenceStaysGood(s, step);
    forall u | u in n.callers
      ensures PhaseJustified(n, n.callers[u])
    {
      if CallerOf(step) == Some(u) {
        CallerStaysJustified(s, step);
      } else {
        OtherStaysJustified(s, step, u);
      }
    }
  }

  // ----- The order of the handlers, in every interleaving -----

  /** The calls follow the plan in order, and only the last may have failed. */
  predicate InOrder(c: Claim) {
    && |c.calls| <= |c.item.plan.ops|
    && (forall i :: 0 <= i < |c.calls| ==> c.calls[i].op == c.item.plan.ops[i])
    && (forall i :: 0 <= i < |c.calls| - 1 ==> c.calls[i].ok)
  }

  predicate AllOk(c: Claim) {
    forall i :: 0 <= i < |c.calls| ==> c.calls[i].ok
  }

  ghost predicate Ordered(s: State) {
    && (forall k :: 0 <= k < |s.claims| ==> InOrder(s.claims[k]))
    && (forall t :: t in s.callers && s.callers[t].Running? ==>
          var p := s.callers[t];
          p.claim < |s.claims| && AllOk(s.claims[p.claim]) && |s.claims[p.claim].calls| == p.done)
    && (forall t, u :: t in s.callers && u in s.callers && t != u && s.callers[t].Running? && s.callers[u].Running? ==>
          s.callers[t].claim != s.callers[u].claim)
  }

  lemma InvokeOrdered(s: State, t: int, outcome: Outcome, stored: bool)
    requires Ordered(s) && Enabled(s, Invoke(t, outcome, stored))
    ensures Ordered(Next(s, Invoke(t, outcome, stored)))
  {
    var n := Next(s, Invoke(t, outcome, stored));
    var p := PhaseOf(s, t);
    assert t in s.callers && s.callers[t] == p;
    assert InOrder(n.claims[p.claim]);
  }

  lemma ClaimOrdered(s: State, t: int, reported: bool)
    requires Ordered(s) && Enabled(s, TryClaim(t, reported))
    ensures Ordered(Next(s, TryClaim(t, reported)))
  {
  }

  /** Other than that, `n` has the claims of `s` and runs no caller that was not running. */
  ghost predicate Quiet(s: State, n: State) {
    && n.claims == s.claims
    && forall t :: t in n.callers && n.callers[t].Running? ==> t in s.callers && n.callers[t] == s.callers[t]
  }

  lemma QuietValidateEnd(s: State, step: Step)
    requires Enabled(s, step) && step.ValidateEnd?
    ensures Quiet(s, Next(s, step))
  {
  }

  lemma QuietCheck(s: State, step: Step)
    requires Enabled(s, step) && step.Check?
    ensures Quiet(s, Next(s, step))
  {
  }

  lemma QuietStep(s: State, step: Step)
    requires Enabled(s, step) && !step.Invoke? && !step.TryClaim? && !step.ValidateEnd? && !step.Check?
    ensures Quiet(s, Next(s, step))
  {
  }

  lemma QuietOrdered(s: State, n: State)
    requires Ordered(s) && Quiet(s, n)
    ensures Ordered(n)
  {
  }

  lemma StepOrdered(s: State, step: Step)
    requires Ordered(s) && Enabled(s, step)
    ensures Ordered(Next(s, step))
  {
    match step
    case Invoke(t, outcome, stored) => InvokeOrdered(s, t, outcome, stored);
    case TryClaim(t, reported) => ClaimOrdered(s, t, reported);
    case ValidateEnd(_, _, _, _, _, _) =>
      QuietValidateEnd(s, step);
      QuietOrdered(s, Next(s, step));
    case Check(_, _, _, _, _, _) =>
      QuietCheck(s, step);
      QuietOrdered(s, Next(s, step));
    case _ =>
      QuietStep(s, step);
      QuietOrdered(s, Next(s, step));
  }

  /** Every operation's handler was called, and succeeded. */
  predicate Complete(c: Claim) {
    |c.calls| == |c.item.plan.ops| && AllOk(c)
  }

  ghost predicate SomeComplete(s: State) {
    exists k :: 0 <= k < |s.claims| && Complete(s.claims[k])
  }

  ghost predicate SuccessIsComplete(s: State) {
    s.record.status.Succeeded? ==> SomeComplete(s)
  }

  lemma CompleteStays(s: State, step: Step, k: nat)
    requires Ordered(s) && Enabled(s, step) && k < |s.claims| && Complete(s.claims[k])
    ensures k < |Next(s, step).claims| && Next(s, step).claims[k] == s.claims[k]
  {
  }

  lemma StepSuccess(s: State, step: Step)
    requires Ordered(s) && SuccessIsComplete(s) && Enabled(s, step)
    ensures SuccessIsComplete(Next(s, step))
  {
    if s.record.status.Succeeded? {
      var k :| 0 <= k < |s.claims| && Complete(s.claims[k]);
      CompleteStays(s, step, k);
    } else if step.Finish? {
      assert Complete(s.claims[PhaseOf(s, step.t).claim]);
    }
  }

  // ----- At most one claim, when no stale write lands -----

  /** A validation or approval is written while the row still has the status its caller read. */
  predicate Fresh(s: State, step: Step) {
    match step
    case ValidateEnd(t, _, _, _, _, _) => PhaseOf(s, t).Validating? ==> PhaseOf(s, t).item.status == s.record.status
    case ApproveEnd(t, _) => PhaseOf(s, t).ApprovalRecorded? ==> PhaseOf(s, t).item.status == s.record.status
    case _ => true
  }

  ghost predicate FreshRun(s: State, steps: seq<Step>)
    decreases |steps|
  {
    steps == [] || (Fresh(s, steps[0]) && (Enabled(s, steps[0]) ==> FreshRun(Next(s, steps[0]), steps[1..])))
  }

  predicate ClaimedOnce(s: State) {
    |s.claims| <= 1 && (|s.claims| == 1 ==> Closed(s.record.status))
  }

  /** Only a claim adds a claim, from approved to applying, and only the end of a validation or
      approval opens a row that was closed. */
  ghost predicate StatusMoves(s: State, n: State, writes: bool) {
    && (|n.claims| == |s.claims| || (s.record.status.Approved? && n.record.status.Applying? && |n.claims| == |s.claims| + 1))
    && (n.record.status == s.record.status || Closed(n.record.status) || writes)
  }

  lemma ValidateEndMoves(s: State, step: Step)
    requires Enabled(s, step) && step.ValidateEnd?
    ensures StatusMoves(s, Next(s, step), true) && |Next(s, step).claims| == |s.claims|
  {
  }

  lemma CheckMoves(s: State, step: Step)
    requires Enabled(s, step) && step.Check?
    ensures StatusMoves(s, Next(s, step), false)
  {
  }

  lemma StepMoves(s: State, step: Step)
    requires Enabled(s, step)
    ensures StatusMoves(s, Next(s, step), step.ValidateEnd? || step.ApproveEnd?)
    ensures step.ValidateEnd? || step.ApproveEnd? ==> |Next(s, step).claims| == |s.claims|
  {
    match step
    case ValidateEnd(_, _, _, _, _, _) => ValidateEndMoves(s, step);
    case Check(_, _, _, _, _, _) => CheckMoves(s, step);
    case _ =>
  }

  lemma FreshWriteIsOpen(s: State, step: Step)
    requires Justified(s) && Enabled(s, step) && Fresh(s, step) && (step.ValidateEnd? || step.ApproveEnd?)
    ensures Open(s.record.status)
  {
    assert PhaseJustified(s, PhaseOf(s, step.t));
  }

  lemma MovesClaimOnce(s: State, n: State, writes: bool)
    requires ClaimedOnce(s) && StatusMoves(s, n, writes) && (writes ==> Open(s.record.status) && |n.claims| == |s.claims|)
    ensures ClaimedOnce(n)
  {
  }

  lemma StepClaimsOnce(s: State, step: Step)
    requires Justified(s) && ClaimedOnce(s) && Enabled(s, step) && Fresh(s, step)
    ensures ClaimedOnce(Next(s, step))
  {
    StepMoves(s, step);
    if step.ValidateEnd? || step.ApproveEnd? {
      FreshWriteIsOpen(s, step);
    }
    MovesClaimOnce(s, Next(s, step), step.ValidateEnd? || step.ApproveEnd?);
  }

  lemma InitHolds(s: State)
    requires Init(s)
    ensures Justified(s) && Ordered(s) && SuccessIsComplete(s) && ClaimedOnce(s)
  {
  }

  lemma {:induction false} RunHolds(s: State, steps: seq<Step>, n: State)
    requires Justified(s) && Ordered(s) && SuccessIsComplete(s) && Reaches(s, steps, n)
    ensures Justified(n) && Ordered(n) && SuccessIsComplete(n)
    ensures ClaimedOnce(s) && FreshRun(s, steps) ==> ClaimedOnce(n)
    decreases |steps|
  {
    if steps != [] {
      StepJustified(s, steps[0]);
      StepOrdered(s, steps[0]);
      StepSuccess(s, steps[0]);
      if ClaimedOnce(s) && FreshRun(s, steps) {
        StepClaimsOnce(s, steps[0]);
      }
      RunHolds(Next(s, steps[0]), steps[1..], n);
    }
  }

  // ----- The plans behind the hashes -----

  ghost predicate HasPlan(s: State, d: Digest) {
    exists v :: v in s.validations && HashOf(v.plan) == d
  }

  /** Every validated hash is that of a validated plan, which was current when it was validated. */
  ghost predicate PlansKnown(s: State) {
    && (forall d :: d in s.validated ==> HasPlan(s, d))
    && (forall v :: v in s.validations ==> IsCurrent(v.plan, v.found))
  }

  lemma PlansGrow(s: State, step: Step)
    requires Enabled(s, step)
    ensures s.validations <= Next(s, step).validations
    ensures forall v :: v in Next(s, step).validations && v !in s.validations ==> IsCurrent(v.plan, v.found)
    ensures forall d :: d in Next(s, step).validated && d !in s.validated ==> HasPlan(Next(s, step), d)
  {
    if step.ValidateEnd? {
      var n, p := Next(s, step), PhaseOf(s, step.t).item.plan;
      assert n.validated != s.validated ==> Validation(p, step.found) in n.validations;
    }
  }

  lemma StepPlans(s: State, step: Step)
    requires Enabled(s, step) && PlansKnown(s)
    ensures PlansKnown(Next(s, step))
  {
    var n := Next(s, step);
    PlansGrow(s, step);
    forall d | d in n.validated
      ensures HasPlan(n, d)
    {
      if d in s.validated {
        var v :| v in s.validations && HashOf(v.plan) == d;
        assert v in n.validations;
      }
    }
  }

  lemma {:induction false} RunPlans(s: State, steps: seq<Step>, n: State)
    requires PlansKnown(s) && Reaches(s, steps, n)
    ensures PlansKnown(n)
    decreases |steps|
  {
    if steps != [] {
      StepPlans(s, steps[0]);
      RunPlans(Next(s, steps[0]), steps[1..], n);
    }
  }

  /** A plan that agrees with this one in everything that matters was validated while current. */
  ghost predicate WasValidated(s: State, p: Plan) {
    exists v :: v in s.validations && SamePlan(p, v.plan) && IsCurrent(v.plan, v.found)
  }

  /** Every operation of this plan was preapproved by a policy, at its own risk class. */
  ghost predicate WasPreapproved(s: State, p: Plan) {
    exists g :: g in s.grants && g.digest == HashOf(p) && |g.lookups| == |p.ops|
                && forall i :: 0 <= i < |p.ops| ==> Preapproves(g.lookups[i], p.ops[i].risk, g.oauth)
  }

  /** An interactive, identified administrator or operator approved this plan's hash. */
  ghost predicate WasApproved(s: State, p: Plan) {
    exists a :: a in s.approvals && a.digest == HashOf(p)
                && a.who.interactive && a.who.identified && (a.who.role.Admin? || a.who.role.Operator?)
  }

  lemma VouchedPlan(s: State, p: Plan)
    requires PlansKnown(s) && Justified(s) && Vouched(s, HashOf(p))
    ensures WasValidated(s, p) && (WasPreapproved(s, p) || WasApproved(s, p))
  {
    var v :| v in s.validations && HashOf(v.plan) == HashOf(p);
    HashDeterminesPlan(p, v.plan);
    if Granted(s, HashOf(p)) {
      var g :| g in s.grants && g.digest == HashOf(p);
      forall i | 0 <= i < |p.ops|
        ensures Preapproves(g.lookups[i], p.ops[i].risk, g.oauth)
      {
        assert HashOf(p).ops[i].risk == p.ops[i].risk;
      }
    } else {
      var a :| a in s.approvals && a.digest == HashOf(p);
    }
  }

  /** In every interleaving whatsoever, handlers run only for a plan that was validated and, as that
      plan, preapproved or approved. At the check before the claim every operation was inspected and
      accepted, no policy among one lookup per operation refused, and the base revisions were what the
      operations resolved unless one resolved to the empty string. The handlers run in order, each
      only after every earlier one succeeded. */
  lemma HandlersRunTheValidatedPlan(s: State, steps: seq<Step>, n: State, k: nat)
    requires Init(s) && Reaches(s, steps, n) && k < |n.claims|
    ensures var c := n.claims[k];
            && InOrder(c) && WasValidated(n, c.item.plan)
            && (WasPreapproved(n, c.item.plan) || WasApproved(n, c.item.plan))
            && (forall g :: g in n.grants ==> AllPreapproved(g.digest.ops, g.lookups, g.oauth))
            && (forall a :: a in n.approvals ==> MayApprove(a.who))
            && AllAccepted(c.item.plan.ops, c.found) && |c.lookups| == |c.item.plan.ops| && !AnyRefuses(c.lookups)
            && IsUnion(UnionOf(c.found), c.found) && Matches(c.item.plan.base, UnionOf(c.found))
            && (c.item.plan.base == UnionOf(c.found) <==> NoEmptyRevision(UnionOf(c.found)))
  {
    InitHolds(s);
    RunHolds(s, steps, n);
    RunPlans(s, steps, n);
    VouchedPlan(n, n.claims[k].item.plan);
    CurrentMeansResolved(n.claims[k].item.plan, n.claims[k].found);
  }

  lemma OnceFacts(n: State)
    requires ClaimedOnce(n) && Ordered(n) && SuccessIsComplete(n)
    ensures |n.claims| == 1 ==> InOrder(n.claims[0]) && Closed(n.record.status)
    ensures n.record.status.Succeeded? ==> |n.claims| == 1 && Complete(n.claims[0])
  {
  }

  /** Without a stale write there is one claim at most, so no operation's handler runs twice. */
  lemma HandlersRunAtMostOnce(s: State, steps: seq<Step>, n: State)
    requires Init(s) && Reaches(s, steps, n) && FreshRun(s, steps)
    ensures |n.claims| <= 1
    ensures |n.claims| == 1 ==> InOrder(n.claims[0]) && Closed(n.record.status)
    ensures n.record.status.Succeeded? ==> |n.claims| == 1 && Complete(n.claims[0])
  {
    InitHolds(s);
    RunHolds(s, steps, n);
    OnceFacts(n);
  }

  // ----- Sequential validation and approval -----

  predicate Writing(p: Phase) {
    p.Validating? || p.Approving? || p.ApprovalRecorded?
  }

  /** From reading the row to writing it, a validation or approval is not overtaken. Applies may
      interleave with each other in any way. */
  ghost predicate NotOvertaken(s: State, step: Step) {
    forall t :: t in s.callers && Writing(s.callers[t]) ==> step.Edit? || step.t == t
  }

  ghost predicate SequentialRun(s: State, steps: seq<Step>)
    decreases |steps|
  {
    steps == [] || (NotOvertaken(s, steps[0]) && (Enabled(s, steps[0]) ==> SequentialRun(Next(s, steps[0]), steps[1..])))
  }

  ghost predicate UpToDate(s: State) {
    forall t :: t in s.callers && Writing(s.callers[t]) ==> s.callers[t].item.status == s.record.status
  }

  lemma StepUpToDate(s: State, step: Step)
    requires UpToDate(s) && Enabled(s, step) && NotOvertaken(s, step)
    ensures UpToDate(Next(s, step))
  {
    var n := Next(s, step);
    forall u | u in n.callers && Writing(n.callers[u])
      ensures n.callers[u].item.status == n.record.status
    {
      if CallerOf(step) != Some(u) {
        OthersWait(s, step, u);
      }
    }
  }

  lemma {:induction false} SequentialFromUpToDate(s: State, steps: seq<Step>)
    requires UpToDate(s) && SequentialRun(s, steps)
    ensures FreshRun(s, steps)
    decreases |steps|
  {
    if steps != [] && Enabled(s, steps[0]) {
      StepUpToDate(s, steps[0]);
      SequentialFromUpToDate(Next(s, steps[0]), steps[1..]);
    }
  }

  /** With validations and approvals one after another and applies interleaved at will, no handler
      runs twice. */
  lemma SequentialRunsOnce(s: State, steps: seq<Step>, n: State)
    requires Init(s) && Reaches(s, steps, n) && SequentialRun(s, steps)
    ensures |n.claims| <= 1 && forall k :: 0 <= k < |n.claims| ==> InOrder(n.claims[k])
  {
    SequentialFromUpToDate(s, steps);
    HandlersRunAtMostOnce(s, steps, n);
  }

  // ----- What a stale write does -----

  lemma {:induction false} ReachesConcat(s: State, a: seq<Step>, m: State, b: seq<Step>, n: State)
    requires Reaches(s, a, m) && Reaches(m, b, n)
    ensures Reaches(s, a + b, n)
    decreases |a|
  {
    if a == [] {
      assert a + b == b;
    } else {
      ReachesConcat(Next(s, a[0]), a[1..], m, b, n);
      assert (a + b)[0] == a[0] && (a + b)[1..] == a[1..] + b;
    }
  }

  lemma OneStep(s: State, step: Step)
    requires Enabled(s, step)
    ensures Reaches(s, [step], Next(s, step))
  {
    assert [step][1..] == [];
  }

  lemma TwoSteps(s: State, a: Step, b: Step)
    requires Enabled(s, a) && Enabled(Next(s, a), b)
    ensures Reaches(s, [a, b], Next(Next(s, a), b))
  {
    OneStep(s, a);
    OneStep(Next(s, a), b);
    ReachesConcat(s, [a], Next(s, a), [b], Next(Next(s, a), b));
    assert [a] + [b] == [a, b];
  }
}
