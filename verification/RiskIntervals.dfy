/** Interval soundness of evaluation: less evidence only widens the reported bounds. */
module RiskIntervals {

  import opened Common
  import opened RiskScore
  import opened RiskEvaluate

  /** `a` knows at least as much about every minute as `b`. */
  predicate NarrowerMinutes(a: seq<Minute>, b: seq<Minute>) {
    |a| == |b| && forall i :: 0 <= i < |a| ==> NarrowerRange(a[i].sources, b[i].sources)
  }

  predicate NarrowerRange(a: CountRange, b: CountRange) {
    b.lower <= a.lower <= a.upper <= b.upper
  }

  predicate Narrower(f: Features, g: Features) {
    && NarrowerMinutes(f.activity, g.activity)
    && NarrowerMinutes(f.exposureActivity, g.exposureActivity)
    && NarrowerRange(f.novelRepeated, g.novelRepeated)
  }

  /** Both windows have their thirty minutes, as the source's array type says. */
  predicate FullWindow(f: Features) {
    |f.activity| == |f.exposureActivity| == WINDOW_MINUTES
  }

  /** `q` has complete history and supported collection wherever `r` has. */
  predicate NoWorse(q: Quality, r: Quality) {
    && (r.historyComplete.state == Satisfied ==> q.historyComplete.state == Satisfied)
    && (r.capabilitySupported.state != Unsatisfied ==> q.capabilitySupported.state != Unsatisfied)
  }

  predicate ScoreNested(inner: Option<Score>, outer: Option<Score>) {
    && inner.Some? && outer.Some?
    && 0 <= outer.value.lower <= inner.value.lower <= inner.value.upper <= outer.value.upper <= 100
  }

  // ----- Exact intervals -----

  lemma ActivityUnit(minutes: seq<Minute>, p: Policy)
    requires forall i :: 0 <= i < |minutes| ==> minutes[i].sources.lower <= minutes[i].sources.upper
    ensures Unit(ActivityInterval(minutes, p))
  {
    ActivityRange(Counts(minutes, false), p);
    ActivityRange(Counts(minutes, true), p);
    ActivityMonotone(Counts(minutes, false), p, Counts(minutes, true), p);
  }

  lemma ActivityNested(a: seq<Minute>, b: seq<Minute>, p: Policy)
    requires NarrowerMinutes(a, b)
    ensures Nested(ActivityInterval(a, p), ActivityInterval(b, p))
  {
    ActivityMonotone(Counts(b, false), p, Counts(a, false), p);
    ActivityMonotone(Counts(a, true), p, Counts(b, true), p);
  }

  lemma Saturated(ns: seq<int>, p: Policy)
    requires ValidPolicy(p) && |ns| == WINDOW_MINUTES
    requires forall i :: 0 <= i < |ns| ==> ns[i] >= p.activitySources.full
    ensures ActivityValue(ns, p) == 1.0
  {
    var full := p.activitySources.full;
    CountAll(ns, full);
    assert Sweep(ns, p)(full) == 1.0;
    PeakCovers(Sweep(ns, p), p.activitySources.start, full, full);
    ActivityRange(ns, p);
  }

  /** Unsupported collection reports the widest activity interval. */
  lemma UnsupportedIsWidest(f: Features, q: Quality, p: Policy)
    requires ValidPolicy(p) && FullWindow(f) && q.capabilitySupported.state == Unsatisfied
    ensures ActivityInterval(Observed(f, q, p), p) == Interval(0.0, 1.0)
  {
    var minutes := Observed(f, q, p);
    Saturated(Counts(minutes, true), p);
    NoSources(Counts(minutes, false), p);
  }

  lemma NoSources(ns: seq<int>, p: Policy)
    requires ValidPolicy(p) && forall i :: 0 <= i < |ns| ==> ns[i] <= 0
    ensures ActivityValue(ns, p) == 0.0
  {
    var c := Evidence(ns, p);
    EvidenceIsWitness(ns, p);
    if c.Some? {
      ThresholdWithoutMinutes(ns, c.value.sources, p);
    }
  }

  lemma ActivityPart(f: Features, q: Quality, g: Features, r: Quality, p: Policy)
    requires ValidPolicy(p) && FullWindow(f) && FullWindow(g) && Narrower(f, g) && NoWorse(q, r)
    ensures Unit(ActivityInterval(Observed(f, q, p), p))
    ensures Nested(ActivityInterval(Observed(f, q, p), p), ActivityInterval(Observed(g, r, p), p))
  {
    if q.capabilitySupported.state == Unsatisfied {
      UnsupportedIsWidest(f, q, p);
    } else {
      ActivityUnit(f.activity, p);
    }
    if r.capabilitySupported.state == Unsatisfied {
      UnsupportedIsWidest(g, r, p);
    } else {
      ActivityNested(f.activity, g.activity, p);
    }
  }

  lemma PostUpdatePart(f: Features, q: Quality, g: Features, r: Quality, p: Policy)
    requires Narrower(f, g) && NoWorse(q, r)
    ensures Unit(PostUpdateInterval(f, q, p))
    ensures Nested(PostUpdateInterval(f, q, p), PostUpdateInterval(g, r, p))
  {
    ActivityUnit(f.exposureActivity, p);
    ActivityNested(f.exposureActivity, g.exposureActivity, p);
  }

  lemma ExposureValueMonotone(n: int, m: real, n': int, m': real, s: Scale)
    requires Normalized(n, s) <= Normalized(n', s) && 0.0 <= m <= m' <= 1.0
    ensures 0.0 <= ExposureValue(n, m, s) <= ExposureValue(n', m', s) <= 1.0
  {
    ProductMonotone((1.0 + m) / 2.0, Normalized(n, s), (1.0 + m') / 2.0, Normalized(n', s));
    ProductMonotone((1.0 + m') / 2.0, Normalized(n', s), 1.0, 1.0);
  }

  lemma NovelPart(f: Features, q: Quality, g: Features, r: Quality, p: Policy)
    requires ValidPolicy(p) && Narrower(f, g) && NoWorse(q, r) && 0 <= g.novelRepeated.lower
    ensures var n, w := NovelRange(f, q, p), NovelRange(g, r, p);
            && Normalized(w.lower, p.exposureSources) <= Normalized(n.lower, p.exposureSources)
            && Normalized(n.lower, p.exposureSources) <= Normalized(n.upper, p.exposureSources)
            && Normalized(n.upper, p.exposureSources) <= Normalized(w.upper, p.exposureSources)
  {
    var n, w := NovelRange(f, q, p), NovelRange(g, r, p);
    NormalizedMonotone(w.lower, n.lower, p.exposureSources);
    NormalizedMonotone(n.lower, n.upper, p.exposureSources);
    if r.historyComplete.state == Satisfied {
      NormalizedMonotone(n.upper, w.upper, p.exposureSources);
    }
  }

  lemma ExposurePart(f: Features, q: Quality, g: Features, r: Quality, p: Policy)
    requires ValidPolicy(p) && Narrower(f, g) && NoWorse(q, r) && 0 <= g.novelRepeated.lower
    ensures Unit(ExposureInterval(f, q, p))
    ensures Nested(ExposureInterval(f, q, p), ExposureInterval(g, r, p))
  {
    PostUpdatePart(f, q, g, r, p);
    NovelPart(f, q, g, r, p);
    var n, w := NovelRange(f, q, p), NovelRange(g, r, p);
    var m, u := PostUpdateInterval(f, q, p), PostUpdateInterval(g, r, p);
    PostUpdatePart(g, r, g, r, p);
    ExposureValueMonotone(n.lower, m.lo, n.upper, m.hi, p.exposureSources);
    ExposureValueMonotone(w.lower, u.lo, n.lower, m.lo, p.exposureSources);
    ExposureValueMonotone(n.upper, m.hi, w.upper, u.hi, p.exposureSources);
  }

  // ----- Rounded scores -----

  predicate Reports(s: Option<Score>, v: Interval) {
    s.Some? && s.value.lower == HalfUp(v.lo) && s.value.upper == HalfUp(v.hi)
  }

  ghost predicate ReportsAll(s: Snapshot, f: Features, q: Quality, p: Policy) {
    var a, e := ActivityInterval(Observed(f, q, p), p), ExposureInterval(f, q, p);
    Reports(s.activity, a) && Reports(s.exposure, e) && Reports(s.attention, Joined(a, e))
  }

  lemma SnapshotReports(f: Features, q: Quality, p: Policy, asOf: int)
    requires ValidResources(f.resources) && FirstUnmet(q.Essential()).None?
    ensures ReportsAll(SnapshotOf(f, q, p, asOf), f, q, p)
  {
  }

  lemma RoundedNested(inner: Interval, outer: Interval, s: Option<Score>, t: Option<Score>)
    requires Unit(inner) && Unit(outer) && Nested(inner, outer) && Reports(s, inner) && Reports(t, outer)
    ensures ScoreNested(s, t)
  {
    HalfUpRange(outer.lo);
    HalfUpRange(outer.hi);
    HalfUpMonotone(outer.lo, inner.lo);
    HalfUpMonotone(inner.lo, inner.hi);
    HalfUpMonotone(inner.hi, outer.hi);
  }

  lemma ScoresNested(f: Features, q: Quality, g: Features, r: Quality, p: Policy, s: Snapshot, t: Snapshot)
    requires FullWindow(f) && FullWindow(g) && Narrower(f, g) && NoWorse(q, r)
    requires ValidPolicy(p) && 0 <= g.novelRepeated.lower
    requires ReportsAll(s, f, q, p) && ReportsAll(t, g, r, p)
    ensures ScoreNested(s.activity, t.activity) && ScoreNested(s.exposure, t.exposure) && ScoreNested(s.attention, t.attention)
  {
    var a, b := ActivityInterval(Observed(f, q, p), p), ActivityInterval(Observed(g, r, p), p);
    var d, e := ExposureInterval(f, q, p), ExposureInterval(g, r, p);
    ActivityPart(f, q, g, r, p);
    ActivityPart(g, r, g, r, p);
    ExposurePart(f, q, g, r, p);
    ExposurePart(g, r, g, r, p);
    RoundedNested(a, b, s.activity, t.activity);
    RoundedNested(d, e, s.exposure, t.exposure);
    RoundedNested(Joined(a, d), Joined(b, e), s.attention, t.attention);
  }

  lemma EvaluationIsSnapshot(f: Features, q: Quality, p: Policy, v: Versions, asOf: int)
    requires Evaluation(f, q, p, v, asOf).Success?
    ensures ValidPolicy(p) && ValidResources(f.resources) && 0 <= f.novelRepeated.lower
    ensures Evaluation(f, q, p, v, asOf).value == SnapshotOf(f, q, p, asOf)
  {
  }

  lemma SnapshotsNested(f: Features, q: Quality, g: Features, r: Quality, p: Policy, asOf: int)
    requires FullWindow(f) && FullWindow(g) && Narrower(f, g) && NoWorse(q, r)
    requires ValidPolicy(p) && ValidResources(f.resources) && ValidResources(g.resources) && 0 <= g.novelRepeated.lower
    requires FirstUnmet(q.Essential()).None? && FirstUnmet(r.Essential()).None?
    ensures AllNested(SnapshotOf(f, q, p, asOf), SnapshotOf(g, r, p, asOf))
  {
    SnapshotReports(f, q, p, asOf);
    SnapshotReports(g, r, p, asOf);
    ScoresNested(f, q, g, r, p, SnapshotOf(f, q, p, asOf), SnapshotOf(g, r, p, asOf));
  }

  predicate AllNested(inner: Snapshot, outer: Snapshot) {
    && ScoreNested(inner.activity, outer.activity)
    && ScoreNested(inner.exposure, outer.exposure)
    && ScoreNested(inner.attention, outer.attention)
  }

  /** Narrowing any minute or novelty range, or regaining history or collector support, yields
      score intervals inside the wider ones; all are percentages with lower <= upper. */
  lemma EvaluationNested(f: Features, q: Quality, g: Features, r: Quality, p: Policy, v: Versions, asOf: int)
    requires FullWindow(f) && FullWindow(g) && Narrower(f, g) && NoWorse(q, r)
    requires Evaluation(f, q, p, v, asOf).Success? && Evaluation(g, r, p, v, asOf).Success?
    requires FirstUnmet(q.Essential()).None? && FirstUnmet(r.Essential()).None?
    ensures AllNested(Evaluation(f, q, p, v, asOf).value, Evaluation(g, r, p, v, asOf).value)
  {
    EvaluationIsSnapshot(f, q, p, v, asOf);
    EvaluationIsSnapshot(g, r, p, v, asOf);
    SnapshotsNested(f, q, g, r, p, asOf);
  }

  // ----- Resources -----

  lemma {:induction false} MaxUsageCovers(ds: seq<Resource>, i: nat)
    requires i < |ds| && Measured(ds[i])
    ensures Usage(ds[i]) <= MaxUsage(ds)
  {
    if i < |ds| - 1 {
      MaxUsageCovers(ds[..|ds| - 1], i);
    }
  }

  lemma {:induction false} MaxUsageMonotone(ds: seq<Resource>, es: seq<Resource>)
    requires forall i :: 0 <= i < |ds| && Measured(ds[i]) ==> ds[i] in es
    ensures MaxUsage(ds) <= MaxUsage(es)
  {
    MaxUsageRange(es);
    if ds != [] {
      MaxUsageMonotone(ds[..|ds| - 1], es);
      if Measured(ds[|ds| - 1]) {
        var j :| 0 <= j < |es| && es[j] == ds[|ds| - 1];
        MaxUsageCovers(es, j);
      }
    }
  }

  lemma CompleteIsFull(ds: seq<Resource>, es: seq<Resource>)
    requires ValidResources(ds) && ValidResources(es) && |ds| == 3
    requires forall i :: 0 <= i < |ds| ==> ds[i] in es
    ensures |es| == 3
    ensures forall j :: 0 <= j < |es| ==> es[j] in ds
  {
    var k0 :| 0 <= k0 < |es| && es[k0] == ds[0];
    var k1 :| 0 <= k1 < |es| && es[k1] == ds[1];
    var k2 :| 0 <= k2 < |es| && es[k2] == ds[2];
    assert k0 != k1 && k0 != k2 && k1 != k2;
    assert |es| == 3;
    forall j | 0 <= j < |es|
      ensures es[j] in ds
    {
      assert j == k0 || j == k1 || j == k2;
    }
  }

  lemma ResourceIntervalNested(ds: seq<Resource>, es: seq<Resource>)
    requires ValidResources(ds) && ValidResources(es)
    requires forall i :: 0 <= i < |ds| && Measured(ds[i]) ==> ds[i] in es
    ensures Nested(ResourceInterval(es), ResourceInterval(ds))
  {
    MaxUsageRange(es);
    MaxUsageMonotone(ds, es);
    if |ds| == 3 && AllMeasured(ds) {
      CompleteIsFull(ds, es);
      MaxUsageMonotone(es, ds);
      assert |es| == 3 && AllMeasured(es);
    }
  }

  lemma ResourceUnit(ds: seq<Resource>)
    ensures Unit(ResourceInterval(ds))
  {
    MaxUsageRange(ds);
  }

  /** Measuring more resource dimensions never moves the interval outside the earlier one. */
  lemma ResourceNested(ds: seq<Resource>, es: seq<Resource>)
    requires ValidResources(ds) && ValidResources(es) && AnyMeasured(ds)
    requires forall i :: 0 <= i < |ds| && Measured(ds[i]) ==> ds[i] in es
    ensures AnyMeasured(es)
    ensures ScoreNested(ResourceScore(es).value, ResourceScore(ds).value)
  {
    var i :| 0 <= i < |ds| && Measured(ds[i]);
    var j :| 0 <= j < |es| && es[j] == ds[i];
    assert AnyMeasured(es);
    ResourceUnit(ds);
    ResourceUnit(es);
    ResourceIntervalNested(ds, es);
    var inner, outer := ResourceInterval(es), ResourceInterval(ds);
    RoundedNested(inner, outer, Some(ScoreOf(inner)), Some(ScoreOf(outer)));
  }
}
