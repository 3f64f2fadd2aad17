/** The checks a changeset passes before its handlers run: policy decisions, resolved base
    revisions and the plan hash (internal/automation/service.go). */
module ChangesetChecks {

  import opened Common

  datatype Operation = Operation(id: string, capability: string, input: string, refs: string, risk: int)

  type Revisions = map<string, string>

  datatype Plan = Plan(base: Revisions, ops: seq<Operation>)

  // ----- The plan hash -----

  datatype HashedOperation = HashedOperation(capability: string, input: string, refs: string, risk: int)

  /** The hash stands for its argument: SHA-256 of the encoded plan is taken to be injective. */
  datatype Digest = Digest(base: Revisions, ops: seq<HashedOperation>)

  function Hashed(op: Operation): HashedOperation {
    HashedOperation(op.capability, op.input, op.refs, op.risk)
  }

  function HashOf(p: Plan): Digest {
    Digest(p.base, seq(|p.ops|, i requires 0 <= i < |p.ops| => Hashed(p.ops[i])))
  }

  /** Everything a handler run depends on: base revisions and, position by position, what is called
      on what, touching what, at which risk. */
  predicate SamePlan(p: Plan, q: Plan) {
    && p.base == q.base && |p.ops| == |q.ops|
    && forall i :: 0 <= i < |p.ops| ==>
         && p.ops[i].capability == q.ops[i].capability && p.ops[i].input == q.ops[i].input
         && p.ops[i].refs == q.ops[i].refs && p.ops[i].risk == q.ops[i].risk
  }

  /** The hash covers exactly that: two plans share it iff they agree in all of it. */
  lemma HashDeterminesPlan(p: Plan, q: Plan)
    ensures HashOf(p) == HashOf(q) <==> SamePlan(p, q)
  {
    if HashOf(p) == HashOf(q) {
      forall i | 0 <= i < |p.ops|
        ensures Hashed(p.ops[i]) == Hashed(q.ops[i])
      {
        assert HashOf(p).ops[i] == HashOf(q).ops[i];
      }
    }
  }

  // ----- Base revisions -----

  /** Reading a missing key gives the empty string. */
  function Revision(m: Revisions, key: string): string {
    if key in m then m[key] else ""
  }

  predicate NoEmptyRevision(m: Revisions) {
    forall key :: key in m ==> m[key] != ""
  }

  predicate Matches(expected: Revisions, current: Revisions) {
    |expected| == |current| && forall key :: key in current ==> Revision(expected, key) == current[key]
  }

  method CompareRevisions(expected: Revisions, current: Revisions) returns (ok: bool)
    ensures ok <==> Matches(expected, current)
  {
    if |expected| != |current| {
      return false;
    }
    var todo := current.Keys;
    while todo != {}
      invariant todo <= current.Keys
      invariant forall key :: key in current && key !in todo ==> Revision(expected, key) == current[key]
      decreases |todo|
    {
      var key :| key in todo;
      if Revision(expected, key) != current[key] {
        return false;
      }
      todo := todo - {key};
    }
    ok := true;
  }

  /** Stored base revisions are never empty strings, so a passed comparison is equality of the two
      maps exactly when no resolver returned an empty revision. */
  lemma MatchIsEquality(expected: Revisions, current: Revisions)
    requires NoEmptyRevision(expected)
    ensures expected == current <==> Matches(expected, current) && NoEmptyRevision(current)
  {
    if Matches(expected, current) && NoEmptyRevision(current) {
      forall key | key in current
        ensures key in expected && expected[key] == current[key]
      {
        assert Revision(expected, key) == current[key];
      }
      assert |expected.Keys| == |expected| && |current.Keys| == |current|;
      if current.Keys != expected.Keys {
        ProperSubsetSize(current.Keys, expected.Keys);
      }
    }
  }

  /** The failing family: replacing a key by one that resolves to the empty string goes unnoticed. */
  lemma EmptyRevisionHidesChange(rest: Revisions, gone: string, revision: string, added: string)
    requires gone != added && gone !in rest && added !in rest
    ensures var expected, current := rest[gone := revision], rest[added := ""];
            Matches(expected, current) && expected != current
  {
    var expected, current := rest[gone := revision], rest[added := ""];
    assert |expected| == |rest| + 1 && |current| == |rest| + 1;
    assert gone in expected && gone !in current;
  }

  // ----- Inspecting the operations -----

  datatype Descriptor = Descriptor(readOnly: bool, executable: bool, risk: int)

  datatype Resolution = NoResolver | ResolveFailed | Resolved(revisions: Revisions)

  /** What the catalog, the store, the validator and the resolver answer about one operation;
      `targetsKept` is false when a target was replaced or could not be looked up, and `registered`
      when the build lacks its validator or handler. */
  datatype Inspection = Inspection(
    descriptor: Option<Descriptor>, targetsKept: bool, registered: bool, valid: bool, resolution: Resolution)

  predicate Authorizes(descriptor: Option<Descriptor>, op: Operation) {
    && descriptor.Some? && !descriptor.value.readOnly && descriptor.value.executable
    && descriptor.value.risk == op.risk
  }

  predicate Accepts(op: Operation, i: Inspection) {
    Authorizes(i.descriptor, op) && i.targetsKept && i.registered && i.valid && !i.resolution.ResolveFailed?
  }

  function RevisionsOf(i: Inspection): Revisions {
    if i.resolution.Resolved? then i.resolution.revisions else map[]
  }

  predicate AllAccepted(ops: seq<Operation>, found: seq<Inspection>) {
    |found| == |ops| && forall i :: 0 <= i < |ops| ==> Accepts(ops[i], found[i])
  }

  predicate Agree(a: Revisions, b: Revisions) {
    forall key :: key in a && key in b ==> a[key] == b[key]
  }

  predicate AllAgree(found: seq<Inspection>) {
    forall i, j :: 0 <= i < j < |found| ==> Agree(RevisionsOf(found[i]), RevisionsOf(found[j]))
  }

  function UnionOf(found: seq<Inspection>): Revisions {
    if found == [] then map[] else UnionOf(found[..|found| - 1]) + RevisionsOf(found[|found| - 1])
  }

  function Inspected(ops: seq<Operation>, found: seq<Inspection>): Option<Revisions> {
    if AllAccepted(ops, found) && AllAgree(found) then Some(UnionOf(found)) else None
  }

  predicate Resolves(found: seq<Inspection>, key: string) {
    exists i :: 0 <= i < |found| && key in RevisionsOf(found[i])
  }

  /** `m` holds every resource some operation resolved, at the revision each of them saw. */
  ghost predicate IsUnion(m: Revisions, found: seq<Inspection>) {
    && (forall key :: key in m ==> Resolves(found, key))
    && (forall i, key :: 0 <= i < |found| && key in RevisionsOf(found[i]) ==>
          key in m && m[key] == RevisionsOf(found[i])[key])
  }

  method AddResolved(current: Revisions, resolved: Revisions) returns (merged: Option<Revisions>)
    ensures merged == if Agree(current, resolved) then Some(current + resolved) else None
  {
    var m := current;
    var todo := resolved.Keys;
    while todo != {}
      invariant todo <= resolved.Keys
      invariant m.Keys == current.Keys + (resolved.Keys - todo)
      invariant forall key :: key in current ==> m[key] == current[key]
      invariant forall key :: key in resolved && key !in todo ==> m[key] == resolved[key]
      decreases |todo|
    {
      var key :| key in todo;
      if key in m && m[key] != resolved[key] {
        assert key in current && key in resolved && current[key] != resolved[key];
        return None;
      }
      m := m[key := resolved[key]];
      todo := todo - {key};
    }
    assert m == current + resolved;
    merged := Some(m);
  }

  lemma AgreeWithUnion(m: Revisions, found: seq<Inspection>, next: Inspection)
    requires IsUnion(m, found) && AllAgree(found)
    ensures Agree(m, RevisionsOf(next)) <==> AllAgree(found + [next])
    ensures Agree(m, RevisionsOf(next)) ==> IsUnion(m + RevisionsOf(next), found + [next])
  {
    var all, added := found + [next], RevisionsOf(next);
    if Agree(m, added) {
      forall i | 0 <= i < |found|
        ensures Agree(RevisionsOf(found[i]), added)
      {
      }
      forall key | key in m + added
        ensures Resolves(all, key)
      {
        if key in added {
          assert key in RevisionsOf(all[|found|]);
        } else {
          var i :| 0 <= i < |found| && key in RevisionsOf(found[i]);
          assert key in RevisionsOf(all[i]);
        }
      }
    }
    if AllAgree(all) {
      forall key | key in m && key in added
        ensures m[key] == added[key]
      {
        var i :| 0 <= i < |found| && key in RevisionsOf(found[i]);
        assert Agree(RevisionsOf(all[i]), RevisionsOf(all[|found|]));
      }
    }
  }

  lemma DisagreementPersists(found: seq<Inspection>, n: nat)
    requires n <= |found|
    ensures AllAgree(found) ==> AllAgree(found[..n])
  {
  }

  lemma UnionSnoc(found: seq<Inspection>, next: Inspection)
    ensures UnionOf(found + [next]) == UnionOf(found) + RevisionsOf(next)
  {
    assert (found + [next])[..|found|] == found;
  }

  /** The first `i` operations were accepted and agree, and resolved `current` between them. */
  ghost predicate InspectedSoFar(ops: seq<Operation>, found: seq<Inspection>, i: nat, current: Revisions) {
    && i <= |ops| == |found| && AllAccepted(ops[..i], found[..i]) && AllAgree(found[..i])
    && IsUnion(current, found[..i]) && current == UnionOf(found[..i])
  }

  lemma AcceptNext(ops: seq<Operation>, found: seq<Inspection>, i: nat, current: Revisions)
    requires InspectedSoFar(ops, found, i, current) && i < |ops| && Accepts(ops[i], found[i])
    ensures Agree(current, RevisionsOf(found[i])) ==> InspectedSoFar(ops, found, i + 1, current + RevisionsOf(found[i]))
    ensures !Agree(current, RevisionsOf(found[i])) ==> !AllAgree(found)
  {
    assert found[..i] + [found[i]] == found[..i + 1] && ops[..i] + [ops[i]] == ops[..i + 1];
    AgreeWithUnion(current, found[..i], found[i]);
    UnionSnoc(found[..i], found[i]);
    DisagreementPersists(found, i + 1);
  }

  lemma RejectNext(ops: seq<Operation>, found: seq<Inspection>, i: nat)
    requires |found| == |ops| && i < |ops| && !Accepts(ops[i], found[i])
    ensures Inspected(ops, found).None?
  {
  }

  method AddInspection(current: Revisions, f: Inspection) returns (merged: Option<Revisions>)
    requires !f.resolution.ResolveFailed?
    ensures merged == if Agree(current, RevisionsOf(f)) then Some(current + RevisionsOf(f)) else None
  {
    if f.resolution.NoResolver? {
      assert current + RevisionsOf(f) == current;
      return Some(current);
    }
    merged := AddResolved(current, f.resolution.revisions);
  }

  predicate Passed(op: Operation, f: Inspection) {
    Authorizes(f.descriptor, op) && f.targetsKept && f.registered && f.valid
  }

  method InspectNext(ops: seq<Operation>, found: seq<Inspection>, i: nat, current: Revisions) returns (r: Option<Revisions>)
    requires InspectedSoFar(ops, found, i, current) && i < |ops|
    ensures r.Some? ==> InspectedSoFar(ops, found, i + 1, r.value)
    ensures r.None? ==> Inspected(ops, found).None?
  {
    if !Passed(ops[i], found[i]) || found[i].resolution.ResolveFailed? {
      RejectNext(ops, found, i);
      return None;
    }
    AcceptNext(ops, found, i, current);
    r := AddInspection(current, found[i]);
  }

  /** Inspects the operations in order and merges what they resolve. It succeeds exactly when each
      one is still authorised at its recorded risk class, executable, valid and resolvable, and no two
      resolved one resource differently; the result is then the union of what they resolved. */
  method InspectOperations(ops: seq<Operation>, found: seq<Inspection>) returns (r: Option<Revisions>)
    requires |found| == |ops|
    ensures r == Inspected(ops, found)
    ensures r.Some? ==> IsUnion(r.value, found)
    ensures r.Some? <==>
            && (forall i :: 0 <= i < |ops| ==>
                  && found[i].descriptor.Some? && found[i].descriptor.value.risk == ops[i].risk
                  && found[i].descriptor.value.executable && !found[i].descriptor.value.readOnly
                  && found[i].targetsKept && found[i].registered && found[i].valid && !found[i].resolution.ResolveFailed?)
            && AllAgree(found)
  {
    var current: Revisions := map[];
    for i := 0 to |ops|
      invariant InspectedSoFar(ops, found, i, current)
    {
      var next := InspectNext(ops, found, i, current);
      if next.None? {
        return None;
      }
      current := next.value;
    }
    assert found[..|found|] == found && ops[..|ops|] == ops;
    r := Some(current);
  }

  // ----- Is the plan still current? -----

  predicate Blank(s: string) {
    forall i :: 0 <= i < |s| ==> IsSpace(s[i])
  }

  /** Stored base revisions decode only if no key and no revision is blank. */
  predicate Decodes(base: Revisions) {
    forall key :: key in base ==> !Blank(key) && !Blank(base[key])
  }

  /** A revision map decodes iff every key and every revision has a character that is not white space. */
  lemma DecodesMeans(base: Revisions)
    ensures Decodes(base) <==>
            forall key :: key in base ==> (exists c :: c in key && !IsSpace(c)) && (exists c :: c in base[key] && !IsSpace(c))
  {
    forall s: string
      ensures !Blank(s) <==> exists c :: c in s && !IsSpace(c)
    {
      if !Blank(s) {
        var i :| 0 <= i < |s| && !IsSpace(s[i]);
        assert s[i] in s;
      }
    }
  }

  predicate IsCurrent(p: Plan, found: seq<Inspection>) {
    && Decodes(p.base) && AllAccepted(p.ops, found) && AllAgree(found)
    && Matches(p.base, UnionOf(found))
  }

  method ValidateOperations(p: Plan, found: seq<Inspection>) returns (ok: bool)
    requires |found| == |p.ops|
    ensures ok <==> IsCurrent(p, found)
  {
    if !Decodes(p.base) {
      return false;
    }
    var current := InspectOperations(p.ops, found);
    if current.None? {
      return false;
    }
    ok := CompareRevisions(p.base, current.value);
  }

  lemma {:induction false} UnionMeans(found: seq<Inspection>)
    requires AllAgree(found)
    ensures IsUnion(UnionOf(found), found)
  {
    if found != [] {
      var front, last := found[..|found| - 1], found[|found| - 1];
      DisagreementPersists(found, |found| - 1);
      UnionMeans(front);
      AgreeWithUnion(UnionOf(front), front, last);
      assert front + [last] == found;
    }
  }

  /** A current plan's base revisions are exactly the revisions its operations resolved, provided none
      of those is the empty string. */
  lemma CurrentMeansResolved(p: Plan, found: seq<Inspection>)
    requires IsCurrent(p, found)
    ensures IsUnion(UnionOf(found), found)
    ensures p.base == UnionOf(found) <==> NoEmptyRevision(UnionOf(found))
  {
    UnionMeans(found);
    MatchIsEquality(p.base, UnionOf(found));
  }

  /** Answers under which any decodable plan with operations is current: everything is accepted and
      the first operation resolves all base revisions. */
  function Favourable(p: Plan): seq<Inspection> {
    seq(|p.ops|, i requires 0 <= i < |p.ops| =>
      Inspection(Some(Descriptor(false, true, p.ops[i].risk)), true, true, true, if i == 0 then Resolved(p.base) else NoResolver))
  }

  lemma {:induction false} FavourableUnion(p: Plan, n: nat)
    requires 0 < n <= |p.ops|
    ensures UnionOf(Favourable(p)[..n]) == p.base
  {
    var found := Favourable(p);
    assert found[..n][..n - 1] == found[..n - 1] && found[..n][n - 1] == found[n - 1];
    if n > 1 {
      FavourableUnion(p, n - 1);
    }
  }

  lemma FavourableIsCurrent(p: Plan)
    requires Decodes(p.base) && p.ops != []
    ensures IsCurrent(p, Favourable(p))
  {
    var found := Favourable(p);
    FavourableUnion(p, |p.ops|);
    assert found[..|p.ops|] == found;
  }

  // ----- Approval policies -----

  datatype Mode = AutomaticMode | RequiredMode | DeniedMode

  /** The answer of the policy store for one operation; `filterAllows` is the resource filter's
      verdict on that operation's references. */
  datatype Lookup = NoPolicy | LookupFailed | Policy(mode: Mode, allowRisk4: bool, filterAllows: bool)

  datatype Decision = Refused | NeedsApproval | Automatic

  predicate Refuses(l: Lookup) {
    l.LookupFailed? || (l.Policy? && l.mode.DeniedMode?)
  }

  predicate Preapproves(l: Lookup, risk: int, oauth: bool) {
    l.Policy? && l.mode.AutomaticMode? && (risk >= 4 ==> !oauth && l.allowRisk4) && l.filterAllows
  }

  predicate AnyRefuses(lookups: seq<Lookup>) {
    exists i :: 0 <= i < |lookups| && Refuses(lookups[i])
  }

  predicate AllPreapproved(ops: seq<HashedOperation>, lookups: seq<Lookup>, oauth: bool) {
    |lookups| == |ops| && forall i :: 0 <= i < |ops| ==> Preapproves(lookups[i], ops[i].risk, oauth)
  }

  function Decide(ops: seq<HashedOperation>, lookups: seq<Lookup>, oauth: bool): Decision {
    if AnyRefuses(lookups) then Refused else if AllPreapproved(ops, lookups, oauth) then Automatic else NeedsApproval
  }

  /** One refusal refuses the changeset; it is automatic only if every single operation is
      preapproved, and a preapproval of risk 4 needs both a policy for it and no OAuth principal. */
  method PoliciesAllowAutomatic(ops: seq<HashedOperation>, lookups: seq<Lookup>, oauth: bool) returns (d: Decision)
    requires |lookups| == |ops|
    ensures d == Decide(ops, lookups, oauth)
    ensures d.Automatic? <==>
            forall i :: 0 <= i < |ops| ==>
              && lookups[i].Policy? && lookups[i].mode.AutomaticMode? && lookups[i].filterAllows
              && (ops[i].risk < 4 || (lookups[i].allowRisk4 && !oauth))
    ensures d.Refused? <==>
            exists i :: 0 <= i < |lookups| && (lookups[i].LookupFailed? || (lookups[i].Policy? && lookups[i].mode.DeniedMode?))
  {
    var automatic := true;
    for i := 0 to |ops|
      invariant forall j :: 0 <= j < i ==> !Refuses(lookups[j])
      invariant automatic <==> forall j :: 0 <= j < i ==> Preapproves(lookups[j], ops[j].risk, oauth)
    {
      match lookups[i]
      case NoPolicy =>
        automatic := false;
      case LookupFailed =>
        assert Refuses(lookups[i]);
        return Refused;
      case Policy(mode, allowRisk4, filterAllows) =>
        if mode.DeniedMode? {
          assert Refuses(lookups[i]);
          return Refused;
        }
        if !mode.AutomaticMode? || (ops[i].risk >= 4 && (oauth || !allowRisk4)) {
          automatic := false;
        } else if !filterAllows {
          automatic := false;
        }
    }
    d := if automatic then Automatic else NeedsApproval;
  }
}
