/** Behaviour baseline and policy adaptation (internal/auditrisk/activity.go). */
module RiskBaseline {

  import opened Common
  import opened RiskScore
  import opened RiskEvaluate
  import opened RiskIntervals

  const BUCKETS: nat := 33
  const MAX_DAYS: nat := 14
  const MAX_MINUTES: nat := 1440

  type Histogram = h: seq<nat> | |h| == BUCKETS witness seq(BUCKETS, _ => 0)

  datatype Day = Day(histogram: Histogram, overflow: bool)

  datatype Baseline = Baseline(ready: bool, limited: bool, validDays: nat, activeMinutes: nat, q95: int)

  datatype BaselineError = TooManyDays | InactiveMinutes | TooManyMinutes

  datatype Outcome<T> = Ok(value: T) | Err(error: BaselineError)

  function Sum(ns: seq<nat>): nat {
    if ns == [] then 0 else Sum(ns[..|ns| - 1]) + ns[|ns| - 1]
  }

  predicate Counted(d: Day) {
    !d.overflow && Sum(d.histogram) > 0
  }

  predicate Acceptable(d: Day) {
    d.overflow || (d.histogram[0] == 0 && Sum(d.histogram) <= MAX_MINUTES)
  }

  /** Counted days, their active minutes, and their minutes in bucket `i`. */
  function ValidDays(days: seq<Day>): nat {
    if days == [] then 0 else ValidDays(days[..|days| - 1]) + if Counted(days[|days| - 1]) then 1 else 0
  }

  function ActiveMinutes(days: seq<Day>): nat {
    if days == [] then 0
    else ActiveMinutes(days[..|days| - 1]) + if Counted(days[|days| - 1]) then Sum(days[|days| - 1].histogram) else 0
  }

  function MinutesIn(days: seq<Day>, i: nat): nat
    requires i < BUCKETS
  {
    if days == [] then 0
    else MinutesIn(days[..|days| - 1], i) + if Counted(days[|days| - 1]) then days[|days| - 1].histogram[i] else 0
  }

  function MergedHistogram(days: seq<Day>): Histogram {
    seq(BUCKETS, i requires 0 <= i < BUCKETS => MinutesIn(days, i))
  }

  /** At least 95% of the active minutes lie in buckets up to `q`, and fewer up to `q - 1`. */
  predicate IsQ95(q: int, merged: Histogram, active: nat) {
    && 0 <= q < BUCKETS
    && 100 * Sum(merged[..q + 1]) >= 95 * active
    && (q > 0 ==> 100 * Sum(merged[..q]) < 95 * active)
  }

  // ----- Summation -----

  lemma {:induction false} SumAdd(a: seq<nat>, b: seq<nat>, c: seq<nat>)
    requires |a| == |b| == |c| && forall i :: 0 <= i < |a| ==> c[i] == a[i] + b[i]
    ensures Sum(c) == Sum(a) + Sum(b)
  {
    if a != [] {
      SumAdd(a[..|a| - 1], b[..|b| - 1], c[..|c| - 1]);
    }
  }

  lemma {:induction false} SumZero(a: seq<nat>)
    requires forall i :: 0 <= i < |a| ==> a[i] == 0
    ensures Sum(a) == 0
  {
    if a != [] {
      SumZero(a[..|a| - 1]);
    }
  }

  lemma {:induction false} SumMonotone(a: seq<nat>, i: nat, j: nat)
    requires i <= j <= |a|
    ensures Sum(a[..i]) <= Sum(a[..j])
    decreases j
  {
    if i < j {
      SumMonotone(a, i, j - 1);
      assert a[..j][..j - 1] == a[..j - 1];
    }
  }

  /** Merging conserves minutes. */
  lemma {:induction false} MergedTotal(days: seq<Day>)
    ensures Sum(MergedHistogram(days)) == ActiveMinutes(days)
  {
    if days == [] {
      SumZero(MergedHistogram(days));
    } else {
      var front, last := days[..|days| - 1], days[|days| - 1];
      MergedTotal(front);
      if Counted(last) {
        SumAdd(MergedHistogram(front), last.histogram, MergedHistogram(days));
      } else {
        assert MergedHistogram(days) == MergedHistogram(front);
      }
    }
  }

  lemma SnocDays(days: seq<Day>, i: nat)
    requires i < |days|
    ensures ValidDays(days[..i + 1]) == ValidDays(days[..i]) + if Counted(days[i]) then 1 else 0
    ensures ActiveMinutes(days[..i + 1]) == ActiveMinutes(days[..i]) + if Counted(days[i]) then Sum(days[i].histogram) else 0
    ensures forall b :: 0 <= b < BUCKETS ==>
              MergedHistogram(days[..i + 1])[b] == MergedHistogram(days[..i])[b] + if Counted(days[i]) then days[i].histogram[b] else 0
  {
    assert days[..i + 1][..i] == days[..i];
  }

  // ----- SummarizeBaseline -----

  /** Total minutes of a day; no active minute may sit in the inactive bucket. */
  method DayTotal(h: Histogram) returns (r: Outcome<nat>)
    ensures r == if h[0] != 0 then Err(InactiveMinutes) else Ok(Sum(h))
  {
    var total := 0;
    for i := 0 to BUCKETS
      invariant total == Sum(h[..i]) && (i > 0 ==> h[0] == 0)
    {
      assert h[..i + 1][..i] == h[..i];
      if i == 0 && h[i] != 0 {
        return Err(InactiveMinutes);
      }
      total := total + h[i];
    }
    assert h[..BUCKETS] == h;
    return Ok(total);
  }

  method AddHistogram(merged: array<nat>, h: Histogram)
    requires merged.Length == BUCKETS
    modifies merged
    ensures forall b :: 0 <= b < BUCKETS ==> merged[b] == old(merged[b]) + h[b]
  {
    for i := 0 to BUCKETS
      invariant forall b :: 0 <= b < BUCKETS ==> merged[b] == old(merged[b]) + if b < i then h[b] else 0
    {
      merged[i] := merged[i] + h[i];
    }
  }

  /** The first bucket whose running total reaches `target`. */
  method FindBucket(merged: array<nat>, target: nat) returns (q: nat)
    requires merged.Length == BUCKETS && target <= Sum(merged[..BUCKETS])
    ensures q < BUCKETS && Sum(merged[..q + 1]) >= target && (q > 0 ==> Sum(merged[..q]) < target)
  {
    q := 0;
    var sum, i, found := 0, 0, false;
    while !found && i < BUCKETS
      invariant i <= BUCKETS
      invariant !found ==> sum == Sum(merged[..i]) && (i > 0 ==> sum < target)
      invariant found ==> q < BUCKETS && Sum(merged[..q + 1]) >= target && (q > 0 ==> Sum(merged[..q]) < target)
    {
      assert merged[..i + 1][..i] == merged[..i];
      sum := sum + merged[i];
      if sum >= target {
        q, found := i, true;
      }
      i := i + 1;
    }
  }

  ghost predicate IsSummary(b: Baseline, days: seq<Day>) {
    && b.validDays == ValidDays(days) && b.activeMinutes == ActiveMinutes(days)
    && (b.limited <==> exists i :: 0 <= i < |days| && days[i].overflow)
    && (b.ready <==> b.validDays >= 7 && b.activeMinutes >= 200)
    && IsQ95(b.q95, MergedHistogram(days), b.activeMinutes)
  }

  method MergeDays(days: seq<Day>) returns (r: Outcome<(bool, nat, nat)>, merged: array<nat>)
    ensures fresh(merged) && merged.Length == BUCKETS
    ensures r.Ok? <==> forall i :: 0 <= i < |days| ==> Acceptable(days[i])
    ensures r.Ok? ==> merged[..] == MergedHistogram(days)
    ensures r.Ok? ==> && (r.value.0 <==> exists i :: 0 <= i < |days| && days[i].overflow)
                      && r.value.1 == ValidDays(days) && r.value.2 == ActiveMinutes(days)
  {
    merged := new nat[BUCKETS](_ => 0);
    var limited, valid, active := false, 0, 0;
    assert merged[..] == MergedHistogram(days[..0]);
    for i := 0 to |days|
      invariant fresh(merged) && merged.Length == BUCKETS
      invariant forall j :: 0 <= j < i ==> Acceptable(days[j])
      invariant limited <==> exists j :: 0 <= j < i && days[j].overflow
      invariant valid == ValidDays(days[..i]) && active == ActiveMinutes(days[..i])
      invariant forall b :: 0 <= b < BUCKETS ==> merged[b] == MergedHistogram(days[..i])[b]
    {
      var d := days[i];
      SnocDays(days, i);
      if d.overflow {
        limited := true;
        continue;
      }
      var total := DayTotal(d.histogram);
      if total.Err? {
        return Err(InactiveMinutes), merged;
      }
      if total.value > MAX_MINUTES {
        return Err(TooManyMinutes), merged;
      }
      if total.value > 0 {
        valid, active := valid + 1, active + total.value;
        AddHistogram(merged, d.histogram);
      }
    }
    assert days[..|days|] == days;
    return Ok((limited, valid, active)), merged;
  }

  method SummarizeBaseline(days: seq<Day>) returns (r: Outcome<Baseline>)
    ensures r.Ok? <==>
            |days| <= 14 && forall i :: 0 <= i < |days| && !days[i].overflow ==> days[i].histogram[0] == 0 && Sum(days[i].histogram) <= 1440
    ensures r.Ok? ==> IsSummary(r.value, days)
  {
    if |days| > MAX_DAYS {
      return Err(TooManyDays);
    }
    var totals, merged := MergeDays(days);
    if totals.Err? {
      return Err(totals.error);
    }
    var (limited, valid, active) := totals.value;
    MergedTotal(days);
    var target := (active * 95 + 99) / 100;
    assert merged[..BUCKETS] == MergedHistogram(days);
    var q := FindBucket(merged, target);
    assert merged[..q + 1] == MergedHistogram(days)[..q + 1] && merged[..q] == MergedHistogram(days)[..q];
    return Ok(Baseline(valid >= 7 && active >= 200, limited, valid, active, q));
  }

  /** The quantile is unique. */
  lemma Q95Unique(q: int, r: int, merged: Histogram, active: nat)
    requires IsQ95(q, merged, active) && IsQ95(r, merged, active)
    ensures q == r
  {
    if q < r {
      SumMonotone(merged, q + 1, r);
    } else if r < q {
      SumMonotone(merged, r + 1, q);
    }
  }

  // ----- The summary in terms of days and minutes -----

  /** The days with activity that did not overflow. */
  function ActiveDays(days: seq<Day>): set<int> {
    set i | 0 <= i < |days| && !days[i].overflow && Sum(days[i].histogram) >= 1
  }

  lemma {:induction false} ValidDaysIsCount(days: seq<Day>)
    ensures ValidDays(days) == |ActiveDays(days)|
  {
    if days != [] {
      var n := |days| - 1;
      ValidDaysIsCount(days[..n]);
      assert ActiveDays(days) == ActiveDays(days[..n]) + if Counted(days[n]) then {n} else {};
    }
  }

  /** The minutes of bucket `b`, day by day; an overflowed day gives none. */
  function BucketByDay(days: seq<Day>, b: nat): seq<nat>
    requires b < BUCKETS
  {
    seq(|days|, i requires 0 <= i < |days| => if days[i].overflow then 0 else days[i].histogram[b])
  }

  lemma {:induction false} SumCovers(ns: seq<nat>, i: nat)
    requires i < |ns|
    ensures ns[i] <= Sum(ns)
  {
    if i < |ns| - 1 {
      SumCovers(ns[..|ns| - 1], i);
    }
  }

  /** Merging adds the days up bucket by bucket. */
  lemma {:induction false} MergedBucket(days: seq<Day>, b: nat)
    requires b < BUCKETS
    ensures MergedHistogram(days)[b] == Sum(BucketByDay(days, b))
  {
    if days != [] {
      var n := |days| - 1;
      MergedBucket(days[..n], b);
      assert BucketByDay(days, b)[..n] == BucketByDay(days[..n], b);
      SumCovers(days[n].histogram, b);
    }
  }

  function MinutesAtMost(minutes: seq<nat>, q: int): nat {
    if minutes == [] then 0 else MinutesAtMost(minutes[..|minutes| - 1], q) + if minutes[|minutes| - 1] <= q then 1 else 0
  }

  function EqualTo(minutes: seq<nat>, q: int): nat {
    if minutes == [] then 0 else EqualTo(minutes[..|minutes| - 1], q) + if minutes[|minutes| - 1] == q then 1 else 0
  }

  lemma {:induction false} MinutesAtMostNext(minutes: seq<nat>, q: int)
    ensures MinutesAtMost(minutes, q) == MinutesAtMost(minutes, q - 1) + EqualTo(minutes, q)
    ensures q < 0 ==> MinutesAtMost(minutes, q) == 0
  {
    if minutes != [] {
      MinutesAtMostNext(minutes[..|minutes| - 1], q);
    }
  }

  lemma {:induction false} SumIsAtMost(minutes: seq<nat>, h: Histogram, n: nat)
    requires n <= BUCKETS && forall b :: 0 <= b < BUCKETS ==> h[b] == EqualTo(minutes, b)
    ensures Sum(h[..n]) == MinutesAtMost(minutes, n - 1)
  {
    MinutesAtMostNext(minutes, n - 1);
    if n > 0 {
      SumIsAtMost(minutes, h, n - 1);
      assert h[..n][..n - 1] == h[..n - 1];
    }
  }

  /** For minutes with that histogram, the quantile is the least number of sources that at least 95 in
      100 of the minutes do not exceed. */
  lemma Q95Means(minutes: seq<nat>, h: Histogram, q: int)
    requires 0 <= q < BUCKETS && forall b :: 0 <= b < BUCKETS ==> h[b] == EqualTo(minutes, b)
    ensures IsQ95(q, h, |minutes|) <==>
            MinutesAtMost(minutes, q) * 100 >= |minutes| * 95 && (q > 0 ==> MinutesAtMost(minutes, q - 1) * 100 < |minutes| * 95)
  {
    SumIsAtMost(minutes, h, q + 1);
    SumIsAtMost(minutes, h, q);
  }

  // ----- AdaptPolicy -----

  datatype Adapted = Adapted(policy: Policy, limited: bool)

  function AdaptPolicy(p: Policy, b: Baseline): Option<Adapted> {
    if !ValidPolicy(p) then None
    else if !b.ready || b.limited then Some(Adapted(p, false))
    else
      var start := if p.activitySources.start >= b.q95 + 1 then p.activitySources.start else b.q95 + 1;
      var full := start + p.activitySources.full - p.activitySources.start;
      if full > p.sourceCapacity then Some(Adapted(p, true))
      else Some(Adapted(p.(activitySources := Scale(start, full)), false))
  }

  predicate ScoreAtMost(a: Option<Score>, b: Option<Score>) {
    a.Some? && b.Some? && a.value.lower <= b.value.lower && a.value.upper <= b.value.upper
  }

  predicate AtMost(a: Interval, b: Interval) {
    a.lo <= b.lo && a.hi <= b.hi
  }

  /** Same gap, starting no lower: how adaptation changes a policy. */
  predicate Raised(p: Policy, r: Policy) {
    && ValidPolicy(p) && ValidPolicy(r)
    && r == p.(activitySources := r.activitySources)
    && p.activitySources.start <= r.activitySources.start
    && r.activitySources.full - r.activitySources.start == p.activitySources.full - p.activitySources.start
  }

  /** Adaptation keeps the policy valid and its saturation gap, starts above the baseline unless it
      would not fit the capacity, and refuses only invalid policies. */
  lemma AdaptedIsRaised(p: Policy, b: Baseline)
    ensures AdaptPolicy(p, b).None? <==> !ValidPolicy(p)
    ensures ValidPolicy(p) ==> Raised(p, AdaptPolicy(p, b).value.policy)
    ensures ValidPolicy(p) && b.ready && !b.limited && !AdaptPolicy(p, b).value.limited
            ==> AdaptPolicy(p, b).value.policy.activitySources.start > b.q95
  {
  }

  /** It starts the scale at the least point that is neither below the configured start nor within the
      baseline. It is limited exactly when a usable baseline moves the scale beyond the capacity, and
      then, as without a usable baseline, leaves the policy alone. */
  lemma AdaptationIsLeast(p: Policy, b: Baseline, start: int)
    requires ValidPolicy(p)
    requires start >= p.activitySources.start && start >= b.q95 + 1
    requires start == p.activitySources.start || start == b.q95 + 1
    ensures var a := AdaptPolicy(p, b).value;
            var gap := p.activitySources.full - p.activitySources.start;
            && (a.limited <==> b.ready && !b.limited && start + gap > p.sourceCapacity)
            && (b.ready && !b.limited && !a.limited ==> a.policy.activitySources == Scale(start, start + gap))
            && (!b.ready || b.limited || a.limited ==> a.policy == p)
  {
  }

  lemma ActivityAtMost(minutes: seq<Minute>, p: Policy, r: Policy)
    requires Raised(p, r)
    ensures AtMost(ActivityInterval(minutes, r), ActivityInterval(minutes, p))
  {
    ActivityMonotone(Counts(minutes, false), r, Counts(minutes, false), p);
    ActivityMonotone(Counts(minutes, true), r, Counts(minutes, true), p);
  }

  lemma ObservedAtMost(f: Features, q: Quality, p: Policy, r: Policy)
    requires Raised(p, r) && FullWindow(f)
    ensures AtMost(ActivityInterval(Observed(f, q, r), r), ActivityInterval(Observed(f, q, p), p))
  {
    if q.capabilitySupported.state == Unsatisfied {
      UnsupportedIsWidest(f, q, p);
      UnsupportedIsWidest(f, q, r);
    } else {
      ActivityAtMost(f.activity, p, r);
    }
  }

  lemma PostUpdateAtMost(f: Features, q: Quality, p: Policy, r: Policy)
    requires Raised(p, r)
    requires forall i :: 0 <= i < |f.exposureActivity| ==> f.exposureActivity[i].sources.lower <= f.exposureActivity[i].sources.upper
    ensures Unit(PostUpdateInterval(f, q, p)) && Unit(PostUpdateInterval(f, q, r))
    ensures AtMost(PostUpdateInterval(f, q, r), PostUpdateInterval(f, q, p))
  {
    ActivityAtMost(f.exposureActivity, p, r);
    ActivityUnit(f.exposureActivity, p);
    ActivityUnit(f.exposureActivity, r);
  }

  lemma ExposureAtMost(f: Features, q: Quality, p: Policy, r: Policy)
    requires Raised(p, r)
    requires forall i :: 0 <= i < |f.exposureActivity| ==> f.exposureActivity[i].sources.lower <= f.exposureActivity[i].sources.upper
    ensures AtMost(ExposureInterval(f, q, r), ExposureInterval(f, q, p))
  {
    PostUpdateAtMost(f, q, p, r);
    var n := NovelRange(f, q, p);
    var m, u := PostUpdateInterval(f, q, r), PostUpdateInterval(f, q, p);
    ExposureValueMonotone(n.lower, m.lo, n.lower, u.lo, p.exposureSources);
    ExposureValueMonotone(n.upper, m.hi, n.upper, u.hi, p.exposureSources);
  }

  lemma RaisedAcceptsSame(f: Features, q: Quality, p: Policy, r: Policy, v: Versions, asOf: int)
    requires Raised(p, r)
    ensures InputError(f, q, r, v, asOf) == InputError(f, q, p, v, asOf)
  {
  }

  lemma ReportsAtMost(s: Option<Score>, v: Interval, s': Option<Score>, v': Interval)
    requires Reports(s, v) && Reports(s', v') && AtMost(v, v')
    ensures ScoreAtMost(s, s')
  {
    HalfUpMonotone(v.lo, v'.lo);
    HalfUpMonotone(v.hi, v'.hi);
  }

  lemma JoinedAtMost(a: Interval, b: Interval, c: Interval, d: Interval)
    requires AtMost(a, b) && AtMost(c, d)
    ensures AtMost(Joined(a, c), Joined(b, d))
  {
  }

  lemma RaisedScores(f: Features, q: Quality, p: Policy, r: Policy, before: Snapshot, after: Snapshot)
    requires Raised(p, r) && FullWindow(f)
    requires forall i :: 0 <= i < |f.exposureActivity| ==> f.exposureActivity[i].sources.lower <= f.exposureActivity[i].sources.upper
    requires ReportsAll(before, f, q, p) && ReportsAll(after, f, q, r)
    ensures ScoreAtMost(after.activity, before.activity)
    ensures ScoreAtMost(after.exposure, before.exposure)
    ensures ScoreAtMost(after.attention, before.attention)
  {
    var a, c := ActivityInterval(Observed(f, q, r), r), ActivityInterval(Observed(f, q, p), p);
    var d, e := ExposureInterval(f, q, r), ExposureInterval(f, q, p);
    ObservedAtMost(f, q, p, r);
    ExposureAtMost(f, q, p, r);
    JoinedAtMost(a, c, d, e);
    ReportsAtMost(after.activity, a, before.activity, c);
    ReportsAtMost(after.exposure, d, before.exposure, e);
    ReportsAtMost(after.attention, Joined(a, d), before.attention, Joined(c, e));
  }

  /** On any baseline, the adapted policy accepts the same inputs and never raises an activity,
      exposure or attention bound. */
  lemma AdaptationNeverRaises(f: Features, q: Quality, p: Policy, b: Baseline, v: Versions, asOf: int)
    requires FullWindow(f) && Evaluation(f, q, p, v, asOf).Success?
    ensures var r := AdaptPolicy(p, b);
            && r.Some? && Evaluation(f, q, r.value.policy, v, asOf).Success?
            && (FirstUnmet(q.Essential()).None? ==>
                var before, after := Evaluation(f, q, p, v, asOf).value, Evaluation(f, q, r.value.policy, v, asOf).value;
                && ScoreAtMost(after.activity, before.activity)
                && ScoreAtMost(after.exposure, before.exposure)
                && ScoreAtMost(after.attention, before.attention))
  {
    AdaptedIsRaised(p, b);
    var r := AdaptPolicy(p, b).value.policy;
    RaisedAcceptsSame(f, q, p, r, v, asOf);
    if FirstUnmet(q.Essential()).None? {
      SnapshotReports(f, q, p, asOf);
      SnapshotReports(f, q, r, asOf);
      RaisedScores(f, q, p, r, SnapshotOf(f, q, p, asOf), SnapshotOf(f, q, r, asOf));
    }
  }
}
