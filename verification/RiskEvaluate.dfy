/** Evaluation of one account's features into activity, exposure, resource and attention
    scores (internal/auditrisk/model.go). Instants are integers in nanoseconds. */
module RiskEvaluate {

  import opened Common
  import opened RiskScore

  const MINUTE: int := 60_000_000_000
  const ZERO: int := 0

  datatype DimensionState = Satisfied | Unsatisfied | Unknown | Malformed

  datatype Dimension = Dimension(state: DimensionState, reasonCode: string)

  datatype Quality = Quality(
    identityTrusted: Dimension, sourceUsable: Dimension, deduplicated: Dimension, measurementValid: Dimension,
    coverageComplete: Dimension, timeAligned: Dimension, sourceSetComplete: Dimension, baselineReady: Dimension,
    historyComplete: Dimension, freshness: Dimension, capabilitySupported: Dimension)
  {
    function Dimensions(): seq<Dimension> {
      [identityTrusted, sourceUsable, deduplicated, measurementValid, coverageComplete, timeAligned,
       sourceSetComplete, baselineReady, historyComplete, freshness, capabilitySupported]
    }

    /** Without these there is no lower bound to report. */
    function Essential(): seq<Dimension> {
      [identityTrusted, sourceUsable, deduplicated, measurementValid, timeAligned]
    }
  }

  datatype Resource = Resource(name: string, unit: string, value: Option<nat>, start: Option<nat>, full: Option<nat>)

  datatype Features = Features(
    accountId: int, activity: seq<Minute>, exposureActivity: seq<Minute>, novelRepeated: CountRange,
    resources: seq<Resource>, evidenceCutoff: int)

  datatype Versions = Versions(model: string, baseline: string, source: string)

  datatype Level = Low | Medium | High | VeryHigh | Uncertain

  datatype Score = Score(lower: int, upper: int, complete: bool, level: Level,
                         lowerContribution: Option<Contribution>, upperContribution: Option<Contribution>)

  datatype Status = NotEvaluable | Evaluated | Stale

  datatype Snapshot = Snapshot(
    activity: Option<Score>, exposure: Option<Score>, resource: Option<Score>, attention: Option<Score>,
    windowStart: int, windowEnd: int, status: Status, automaticActionEligible: bool, blockReasons: seq<string>)

  datatype Error = InvalidPolicy | InvalidIdentity | InvalidQuality | InvalidMinute | InvalidNovelty | InvalidResource

  datatype Result<T> = Success(value: T) | Failure(error: Error)

  // ----- Scores from exact intervals -----

  datatype Interval = Interval(lo: real, hi: real)

  predicate Nested(inner: Interval, outer: Interval) {
    outer.lo <= inner.lo && inner.hi <= outer.hi
  }

  predicate Unit(v: Interval) {
    0.0 <= v.lo <= v.hi <= 1.0
  }

  function LevelOf(n: int): Level {
    if n >= 90 then VeryHigh else if n >= 70 then High else if n >= 40 then Medium else Low
  }

  function ScoreOf(v: Interval): Score {
    Score(HalfUp(v.lo), HalfUp(v.hi), v.lo == v.hi, if v.lo == v.hi then LevelOf(HalfUp(v.lo)) else Uncertain, None, None)
  }

  function ActivityInterval(minutes: seq<Minute>, p: Policy): Interval {
    Interval(ActivityValue(Counts(minutes, false), p), ActivityValue(Counts(minutes, true), p))
  }

  function ActivityScore(minutes: seq<Minute>, p: Policy): Score {
    ScoreOf(ActivityInterval(minutes, p)).(
      lowerContribution := Evidence(Counts(minutes, false), p),
      upperContribution := Evidence(Counts(minutes, true), p))
  }

  method ActivityBounds(minutes: seq<Minute>, p: Policy) returns (v: Interval, s: Score)
    requires ValidPolicy(p)
    ensures v == ActivityInterval(minutes, p) && s == ActivityScore(minutes, p)
  {
    var lo, lowerEvidence := Activity(minutes, p, false);
    var hi, upperEvidence := Activity(minutes, p, true);
    v := Interval(lo, hi);
    s := ScoreOf(v).(lowerContribution := lowerEvidence, upperContribution := upperEvidence);
  }

  /** The contributions of a score are the evidence for its own bound. */
  lemma ContributionsMean(minutes: seq<Minute>, lows: seq<int>, highs: seq<int>, p: Policy)
    requires |lows| == |highs| == |minutes|
    requires forall i :: 0 <= i < |minutes| ==> lows[i] == minutes[i].sources.lower && highs[i] == minutes[i].sources.upper
    ensures ActivityScore(minutes, p).lowerContribution == Evidence(lows, p)
    ensures ActivityScore(minutes, p).upperContribution == Evidence(highs, p)
    ensures ActivityInterval(minutes, p) == Interval(ActivityValue(lows, p), ActivityValue(highs, p))
  {
    assert Counts(minutes, false) == lows && Counts(minutes, true) == highs;
  }

  // ----- Validation -----

  predicate ValidMinute(m: Minute, i: int, end: int, capacity: int) {
    && m.start == end + (i - WINDOW_MINUTES) * MINUTE
    && 0 <= m.sources.lower <= m.sources.upper <= capacity
  }

  predicate ValidMinutes(minutes: seq<Minute>, end: int, capacity: int) {
    forall i :: 0 <= i < |minutes| ==> ValidMinute(minutes[i], i, end, capacity)
  }

  method ValidateMinutes(minutes: seq<Minute>, end: int, capacity: int) returns (ok: bool)
    ensures ok == ValidMinutes(minutes, end, capacity)
  {
    for i := 0 to |minutes|
      invariant forall j :: 0 <= j < i ==> ValidMinute(minutes[j], j, end, capacity)
    {
      var m := minutes[i];
      if m.start != end + (i - WINDOW_MINUTES) * MINUTE || m.sources.lower < 0 || m.sources.upper < m.sources.lower
         || m.sources.upper > capacity {
        return false;
      }
    }
    return true;
  }

  predicate ValidDimension(d: Dimension) {
    !d.state.Malformed? && d.reasonCode != ""
  }

  method ValidateDimensions(ds: seq<Dimension>) returns (ok: bool)
    ensures ok == forall i :: 0 <= i < |ds| ==> ValidDimension(ds[i])
  {
    for i := 0 to |ds|
      invariant forall j :: 0 <= j < i ==> ValidDimension(ds[j])
    {
      if !ValidDimension(ds[i]) {
        return false;
      }
    }
    return true;
  }

  /** The first dimension that is not satisfied. */
  function FirstUnmet(ds: seq<Dimension>): Option<Dimension> {
    if ds == [] then None else if ds[0].state != Satisfied then Some(ds[0]) else FirstUnmet(ds[1..])
  }

  method FindUnmet(ds: seq<Dimension>) returns (d: Option<Dimension>)
    ensures d == FirstUnmet(ds)
  {
    for i := 0 to |ds|
      invariant FirstUnmet(ds) == FirstUnmet(ds[i..])
    {
      if ds[i].state != Satisfied {
        return Some(ds[i]);
      }
    }
    return None;
  }

  /** Nothing is unmet iff everything is satisfied; otherwise it is the first that is not. */
  lemma {:induction false} FirstUnmetMeans(ds: seq<Dimension>)
    ensures FirstUnmet(ds).None? <==> forall i :: 0 <= i < |ds| ==> ds[i].state == Satisfied
    ensures FirstUnmet(ds).Some? ==>
              exists k :: 0 <= k < |ds| && ds[k] == FirstUnmet(ds).value && ds[k].state != Satisfied
                          && forall i :: 0 <= i < k ==> ds[i].state == Satisfied
  {
    if ds != [] {
      assert ds == [ds[0]] + ds[1..];
      FirstUnmetMeans(ds[1..]);
      if ds[0].state == Satisfied && FirstUnmet(ds[1..]).Some? {
        var k :| 0 <= k < |ds[1..]| && ds[1..][k] == FirstUnmet(ds[1..]).value && ds[1..][k].state != Satisfied
                 && forall i :: 0 <= i < k ==> ds[1..][i].state == Satisfied;
        forall i | 0 <= i < k + 1
          ensures ds[i].state == Satisfied
        {
          assert i > 0 ==> ds[i] == ds[1..][i - 1];
        }
        assert ds[k + 1] == ds[1..][k];
      }
    }
  }

  // ----- Resources -----

  predicate KnownName(name: string) {
    name == "request_rate" || name == "connections" || name == "traffic_rate"
  }

  predicate ValidResource(d: Resource) {
    && KnownName(d.name) && d.unit != ""
    && (d.start.None? <==> d.full.None?)
    && (d.start.Some? && d.full.Some? ==> d.start.value < d.full.value)
  }

  predicate ValidResources(ds: seq<Resource>) {
    && |ds| <= 3
    && (forall i :: 0 <= i < |ds| ==> ValidResource(ds[i]))
    && (forall i, j :: 0 <= i < j < |ds| ==> ds[i].name != ds[j].name)
  }

  predicate Measured(d: Resource) {
    d.value.Some? && d.start.Some? && d.full.Some?
  }

  function Usage(d: Resource): real
    requires Measured(d)
  {
    Normalized(d.value.value, Scale(d.start.value, d.full.value))
  }

  function MaxUsage(ds: seq<Resource>): real {
    if ds == [] then 0.0
    else
      var rest := MaxUsage(ds[..|ds| - 1]);
      if Measured(ds[|ds| - 1]) then Max(rest, Usage(ds[|ds| - 1])) else rest
  }

  /** A measured dimension's usage is its share of the way from start to full, cut off at both ends. */
  lemma UsageLinear(d: Resource)
    requires Measured(d) && d.start.value < d.full.value
    ensures d.value.value <= d.start.value ==> Usage(d) == 0.0
    ensures d.full.value <= d.value.value ==> Usage(d) == 1.0
    ensures d.start.value <= d.value.value <= d.full.value ==>
              Usage(d) * (d.full.value - d.start.value) as real == (d.value.value - d.start.value) as real
  {
    if d.start.value <= d.value.value <= d.full.value {
      NormalizedLinear(d.value.value, Scale(d.start.value, d.full.value));
    }
  }

  /** The largest usage is that of some measured dimension. */
  lemma {:induction false} MaxUsageAttained(ds: seq<Resource>)
    requires AnyMeasured(ds)
    ensures exists i :: 0 <= i < |ds| && Measured(ds[i]) && Usage(ds[i]) == MaxUsage(ds)
  {
    var n := |ds| - 1;
    var front, last := ds[..n], ds[n];
    if AnyMeasured(front) {
      MaxUsageAttained(front);
      var i :| 0 <= i < n && Measured(front[i]) && Usage(front[i]) == MaxUsage(front);
      assert ds[i] == front[i];
    } else {
      NoneMeasured(front);
      assert forall j :: 0 <= j < n ==> front[j] == ds[j];
      assert Measured(last);
    }
  }

  lemma {:induction false} NoneMeasured(ds: seq<Resource>)
    requires !AnyMeasured(ds)
    ensures MaxUsage(ds) == 0.0
  {
    if ds != [] {
      var n := |ds| - 1;
      assert forall i :: 0 <= i < n ==> ds[..n][i] == ds[i];
      NoneMeasured(ds[..n]);
    }
  }

  predicate AllMeasured(ds: seq<Resource>) {
    forall i :: 0 <= i < |ds| ==> Measured(ds[i])
  }

  predicate AnyMeasured(ds: seq<Resource>) {
    exists i :: 0 <= i < |ds| && Measured(ds[i])
  }

  function ResourceInterval(ds: seq<Resource>): Interval {
    Interval(MaxUsage(ds), if |ds| == 3 && AllMeasured(ds) then MaxUsage(ds) else 1.0)
  }

  function ResourceScore(ds: seq<Resource>): Result<Option<Score>> {
    if !ValidResources(ds) then Failure(InvalidResource)
    else if !AnyMeasured(ds) then Success(None)
    else Success(Some(ScoreOf(ResourceInterval(ds))))
  }

  ghost predicate MeasuresNamed(ds: seq<Resource>, name: string) {
    exists i :: 0 <= i < |ds| && ds[i].name == name && Measured(ds[i])
  }

  lemma NamesDiffer()
    ensures "request_rate" != "connections" && "request_rate" != "traffic_rate" && "connections" != "traffic_rate"
  {
    assert "request_rate"[0] == 'r' && "connections"[0] == 'c' && "traffic_rate"[0] == 't';
  }

  lemma ThreeMeasured(ds: seq<Resource>, i: int, j: int, k: int)
    requires |ds| <= 3 && 0 <= i < |ds| && 0 <= j < |ds| && 0 <= k < |ds|
    requires Measured(ds[i]) && Measured(ds[j]) && Measured(ds[k])
    requires ds[i].name == "request_rate" && ds[j].name == "connections" && ds[k].name == "traffic_rate"
    ensures |ds| == 3 && AllMeasured(ds)
  {
    NamesDiffer();
  }

  /** The upper bound is known only once request rate, connections and traffic rate are all measured. */
  lemma ResourceUpperMeans(ds: seq<Resource>)
    requires ValidResources(ds)
    ensures ResourceInterval(ds).lo == MaxUsage(ds)
    ensures MeasuresNamed(ds, "request_rate") && MeasuresNamed(ds, "connections") && MeasuresNamed(ds, "traffic_rate") ==>
              ResourceInterval(ds).hi == MaxUsage(ds)
    ensures !(MeasuresNamed(ds, "request_rate") && MeasuresNamed(ds, "connections") && MeasuresNamed(ds, "traffic_rate")) ==>
              ResourceInterval(ds).hi == 1.0
  {
    NamesDiffer();
    if |ds| == 3 && AllMeasured(ds) {
      assert ValidResource(ds[0]) && ValidResource(ds[1]) && ValidResource(ds[2]);
      assert ds[0].name != ds[1].name && ds[0].name != ds[2].name && ds[1].name != ds[2].name;
      assert forall i :: 0 <= i < 3 ==> MeasuresNamed(ds, ds[i].name);
    }
    if MeasuresNamed(ds, "request_rate") && MeasuresNamed(ds, "connections") && MeasuresNamed(ds, "traffic_rate") {
      var i :| 0 <= i < |ds| && ds[i].name == "request_rate" && Measured(ds[i]);
      var j :| 0 <= j < |ds| && ds[j].name == "connections" && Measured(ds[j]);
      var k :| 0 <= k < |ds| && ds[k].name == "traffic_rate" && Measured(ds[k]);
      ThreeMeasured(ds, i, j, k);
    }
  }

  lemma {:induction false} MaxUsageRange(ds: seq<Resource>)
    ensures 0.0 <= MaxUsage(ds) <= 1.0
  {
    if ds != [] {
      MaxUsageRange(ds[..|ds| - 1]);
    }
  }

  method MeasureUsage(d: Resource) returns (u: real)
    requires Measured(d) && d.start.value < d.full.value
    ensures u == Usage(d)
  {
    u := 0.0;
    if d.value.value >= d.full.value {
      u := 1.0;
    } else if d.value.value > d.start.value {
      u := (d.value.value - d.start.value) as real / (d.full.value - d.start.value) as real;
    }
  }

  lemma MeasuredSnoc(ds: seq<Resource>, d: Resource)
    ensures AnyMeasured(ds + [d]) <==> AnyMeasured(ds) || Measured(d)
    ensures AllMeasured(ds + [d]) <==> AllMeasured(ds) && Measured(d)
  {
    var next := ds + [d];
    assert next[|ds|] == d;
    assert forall j :: 0 <= j < |ds| ==> next[j] == ds[j];
  }

  lemma MaxUsageSnoc(ds: seq<Resource>, d: Resource)
    ensures MaxUsage(ds + [d]) == if Measured(d) then Max(MaxUsage(ds), Usage(d)) else MaxUsage(ds)
  {
    assert (ds + [d])[..|ds|] == ds;
  }

  predicate Fits(ds: seq<Resource>, d: Resource) {
    ValidResource(d) && forall j :: 0 <= j < |ds| ==> ds[j].name != d.name
  }

  lemma ValidSnoc(ds: seq<Resource>, d: Resource)
    requires |ds| <= 2 && ValidResources(ds)
    ensures ValidResources(ds + [d]) <==> Fits(ds, d)
  {
    var next := ds + [d];
    assert next[|ds|] == d;
    assert forall j :: 0 <= j < |ds| ==> next[j] == ds[j];
  }

  lemma InvalidPrefix(ds: seq<Resource>, i: nat)
    requires i <= |ds| && !ValidResources(ds[..i])
    ensures !ValidResources(ds)
  {
  }

  /** Running maximum, running upper bound and number of measured dimensions. */
  datatype Tally = Tally(lo: real, hi: real, known: nat)

  predicate Tallies(t: Tally, ds: seq<Resource>) {
    && t.lo == MaxUsage(ds)
    && t.hi == (if AllMeasured(ds) then MaxUsage(ds) else 1.0)
    && (t.known > 0 <==> AnyMeasured(ds))
  }

  method AddUsage(t: Tally, d: Resource, ghost done: seq<Resource>) returns (t': Tally)
    requires Tallies(t, done) && ValidResource(d)
    ensures Tallies(t', done + [d])
  {
    MeasuredSnoc(done, d);
    MaxUsageSnoc(done, d);
    MaxUsageRange(done);
    if d.value.None? || d.start.None? {
      t' := t.(hi := 1.0);
    } else {
      var u := MeasureUsage(d);
      t' := Tally(Max(t.lo, u), Max(t.hi, u), t.known + 1);
    }
  }

  method AcceptsResource(d: Resource, seen: set<string>) returns (ok: bool)
    ensures ok == (ValidResource(d) && d.name !in seen)
  {
    ok := !(!KnownName(d.name) || d.unit == "" || d.name in seen
            || d.start.None? != d.full.None?
            || (d.start.Some? && d.full.Some? && d.full.value <= d.start.value));
  }

  function NamesOf(ds: seq<Resource>): set<string> {
    set d | d in ds :: d.name
  }

  /** One more dimension keeps the list valid iff it is valid itself and its name is new. */
  lemma NextResource(ds: seq<Resource>, d: Resource)
    requires ValidResources(ds) && |ds| < 3
    ensures ValidResources(ds + [d]) <==> ValidResource(d) && d.name !in NamesOf(ds)
    ensures NamesOf(ds + [d]) == NamesOf(ds) + {d.name}
  {
    ValidSnoc(ds, d);
    var next := ds + [d];
    assert forall x :: x in next <==> x in ds || x == d;
    if d.name in NamesOf(ds) {
      var x :| x in ds && x.name == d.name;
      var j :| 0 <= j < |ds| && ds[j] == x;
    } else {
      forall j | 0 <= j < |ds|
        ensures ds[j].name != d.name
      {
        assert ds[j] in ds;
      }
    }
  }

  method EvaluateResources(ds: seq<Resource>) returns (r: Result<Option<Score>>)
    ensures r == ResourceScore(ds)
  {
    if |ds| > 3 {
      return Failure(InvalidResource);
    }
    var t := Tally(0.0, 0.0, 0);
    var seen: set<string> := {};
    for i := 0 to |ds|
      invariant ValidResources(ds[..i]) && Tallies(t, ds[..i]) && seen == NamesOf(ds[..i])
    {
      assert ds[..i + 1] == ds[..i] + [ds[i]];
      NextResource(ds[..i], ds[i]);
      var ok := AcceptsResource(ds[i], seen);
      if !ok {
        InvalidPrefix(ds, i + 1);
        return Failure(InvalidResource);
      }
      seen := seen + {ds[i].name};
      t := AddUsage(t, ds[i], ds[..i]);
    }
    assert ds[..|ds|] == ds;
    if t.known == 0 {
      return Success(None);
    }
    if |ds| < 3 {
      t := t.(hi := 1.0);
    }
    return Success(Some(ScoreOf(Interval(t.lo, t.hi))));
  }

  // ----- Evaluation -----

  /** The minutes that count as observed: unsupported collection knows nothing. */
  function Observed(f: Features, q: Quality, p: Policy): (minutes: seq<Minute>)
    ensures |minutes| == |f.activity|
  {
    if q.capabilitySupported.state == Unsatisfied
    then seq(|f.activity|, i requires 0 <= i < |f.activity| =>
               f.activity[i].(sources := CountRange(0, p.activitySources.full)))
    else f.activity
  }

  function PostUpdateInterval(f: Features, q: Quality, p: Policy): Interval {
    if q.capabilitySupported.state == Unsatisfied then Interval(0.0, 1.0) else ActivityInterval(f.exposureActivity, p)
  }

  function NovelRange(f: Features, q: Quality, p: Policy): CountRange {
    if q.historyComplete.state != Satisfied then CountRange(0, p.exposureSources.full) else f.novelRepeated
  }

  function ExposureValue(n: int, m: real, s: Scale): real {
    (1.0 + m) / 2.0 * Normalized(n, s)
  }

  /** Halfway between the normalized count and that count weighted by the activity after the update;
      so a full count without such activity is worth one half, and with full activity one. */
  lemma ExposureIsHalfway(n: int, m: real, s: Scale)
    ensures 2.0 * ExposureValue(n, m, s) == Normalized(n, s) * m + Normalized(n, s)
    ensures s.start < s.full <= n ==> ExposureValue(n, 0.0, s) == 0.5 && ExposureValue(n, 1.0, s) == 1.0
    ensures n <= s.start ==> ExposureValue(n, m, s) == 0.0
  {
  }

  /** A score is exact iff its bounds are equal before rounding, and only then has a level: low,
      medium from 40, high from 70, very high from 90. */
  lemma ScoreMeans(v: Interval)
    ensures var s := ScoreOf(v);
            && s.lower == HalfUp(v.lo) && s.upper == HalfUp(v.hi) && s.complete == (v.lo == v.hi)
            && (s.level == Uncertain <==> v.lo != v.hi)
            && (s.level == Low <==> v.lo == v.hi && s.lower < 40)
            && (s.level == Medium <==> v.lo == v.hi && 40 <= s.lower < 70)
            && (s.level == High <==> v.lo == v.hi && 70 <= s.lower < 90)
            && (s.level == VeryHigh <==> v.lo == v.hi && 90 <= s.lower)
  {
  }

  /** Attention is bounded by the larger of the two, at each end. */
  lemma AttentionIsLarger(a: Interval, b: Interval)
    ensures a.lo <= Joined(a, b).lo && b.lo <= Joined(a, b).lo && (Joined(a, b).lo == a.lo || Joined(a, b).lo == b.lo)
    ensures a.hi <= Joined(a, b).hi && b.hi <= Joined(a, b).hi && (Joined(a, b).hi == a.hi || Joined(a, b).hi == b.hi)
  {
  }

  function ExposureInterval(f: Features, q: Quality, p: Policy): Interval {
    var m, n := PostUpdateInterval(f, q, p), NovelRange(f, q, p);
    Interval(ExposureValue(n.lower, m.lo, p.exposureSources), ExposureValue(n.upper, m.hi, p.exposureSources))
  }

  function Joined(a: Interval, b: Interval): Interval {
    Interval(Max(a.lo, b.lo), Max(a.hi, b.hi))
  }

  /** The last whole minute. */
  function WindowEnd(asOf: int): (end: int)
    ensures end % MINUTE == 0 && end <= asOf < end + MINUTE
  {
    asOf - asOf % MINUTE
  }

  predicate ValidIdentity(f: Features, v: Versions, asOf: int) {
    && f.accountId > 0 && asOf != ZERO && v.model != "" && v.baseline != "" && v.source != ""
    && f.evidenceCutoff != ZERO && f.evidenceCutoff <= asOf
  }

  predicate ValidRange(n: CountRange, capacity: int) {
    0 <= n.lower <= n.upper <= capacity
  }

  function InputError(f: Features, q: Quality, p: Policy, v: Versions, asOf: int): Option<Error> {
    if !ValidPolicy(p) then Some(InvalidPolicy)
    else if !ValidIdentity(f, v, asOf) then Some(InvalidIdentity)
    else if exists i :: 0 <= i < |q.Dimensions()| && !ValidDimension(q.Dimensions()[i]) then Some(InvalidQuality)
    else if !ValidMinutes(f.activity, WindowEnd(asOf), p.sourceCapacity)
            || !ValidMinutes(f.exposureActivity, WindowEnd(asOf), p.sourceCapacity) then Some(InvalidMinute)
    else if !ValidRange(f.novelRepeated, p.sourceCapacity) then Some(InvalidNovelty)
    else if !ValidResources(f.resources) then Some(InvalidResource)
    else None
  }

  /** The snapshot of valid inputs. */
  function SnapshotOf(f: Features, q: Quality, p: Policy, asOf: int): Snapshot
    requires ValidResources(f.resources)
  {
    var end := WindowEnd(asOf);
    var blank := Snapshot(None, None, ResourceScore(f.resources).value, None, end - WINDOW_MINUTES * MINUTE, end,
                          NotEvaluable, false, ["behavior_alert_only"]);
    match FirstUnmet(q.Essential())
    case Some(d) => blank.(blockReasons := blank.blockReasons + [d.reasonCode])
    case None =>
      var scored := blank.(
        activity := Some(ActivityScore(Observed(f, q, p), p)),
        exposure := Some(ScoreOf(ExposureInterval(f, q, p))),
        attention := Some(ScoreOf(Joined(ActivityInterval(Observed(f, q, p), p), ExposureInterval(f, q, p)))));
      if q.freshness.state == Satisfied then scored.(status := Evaluated)
      else scored.(status := Stale, blockReasons := blank.blockReasons + ["evidence_not_fresh"])
  }

  function Evaluation(f: Features, q: Quality, p: Policy, v: Versions, asOf: int): Result<Snapshot> {
    match InputError(f, q, p, v, asOf)
    case Some(e) => Failure(e)
    case None => Success(SnapshotOf(f, q, p, asOf))
  }

  /** Exactly these policies. */
  lemma PolicyAccepted(p: Policy)
    ensures ValidPolicy(p) <==>
            && |p.version| > 0 && 0 < p.sourceCapacity < 33 && p.minimumBytes > 0 && 0 < p.minimumSlices < 13
            && 0 <= p.activitySources.start && p.activitySources.start + 1 <= p.activitySources.full <= p.sourceCapacity
            && 0 <= p.exposureSources.start && p.exposureSources.start + 1 <= p.exposureSources.full <= p.sourceCapacity
            && 0 <= p.activityMinutes.start && p.activityMinutes.start + 1 <= p.activityMinutes.full < 31
  {
  }

  /** Exactly these resources: at most three, of different known kinds, each with a unit and with both
      thresholds in order or neither. */
  lemma ResourcesAccepted(ds: seq<Resource>)
    ensures ValidResources(ds) <==>
            && |ds| < 4 && (forall i, j :: 0 <= i < j < |ds| ==> ds[i].name != ds[j].name)
            && forall i :: 0 <= i < |ds| ==>
                 && ds[i].name in {"request_rate", "connections", "traffic_rate"} && |ds[i].unit| > 0
                 && ((ds[i].start.None? && ds[i].full.None?)
                     || (ds[i].start.Some? && ds[i].full.Some? && ds[i].full.value > ds[i].start.value))
  {
  }

  /** Exactly these inputs are evaluated. Minute `i` of the window starts `30 - i` minutes before the
      last whole minute. */
  lemma InputsAccepted(f: Features, q: Quality, p: Policy, v: Versions, asOf: int, end: int)
    requires end % 60_000_000_000 == 0 && end <= asOf < end + 60_000_000_000
    ensures Evaluation(f, q, p, v, asOf).Success? <==>
            && ValidPolicy(p) && ValidResources(f.resources)
            && f.accountId >= 1 && asOf != 0 && f.evidenceCutoff != 0 && asOf >= f.evidenceCutoff
            && |v.model| > 0 && |v.baseline| > 0 && |v.source| > 0
            && (forall d :: d in q.Dimensions() ==> d.state != Malformed && |d.reasonCode| > 0)
            && (forall i :: 0 <= i < |f.activity| ==> MinuteFits(f.activity[i], 30 - i, end, p.sourceCapacity))
            && (forall i :: 0 <= i < |f.exposureActivity| ==> MinuteFits(f.exposureActivity[i], 30 - i, end, p.sourceCapacity))
            && f.novelRepeated.lower >= 0 && f.novelRepeated.lower <= f.novelRepeated.upper
            && p.sourceCapacity >= f.novelRepeated.upper
  {
    assert end == WindowEnd(asOf);
    assert forall m: Minute, i :: ValidMinute(m, i, end, p.sourceCapacity) <==> MinuteFits(m, 30 - i, end, p.sourceCapacity);
  }

  predicate MinuteFits(m: Minute, ago: int, end: int, capacity: int) {
    end - m.start == ago * 60_000_000_000 && 0 <= m.sources.lower && m.sources.lower <= m.sources.upper && m.sources.upper <= capacity
  }

  /** What a snapshot says: thirty whole minutes; no behaviour score iff identity, source, deduplication,
      measurement or alignment fails, with the first failure as its reason; stale iff scored on evidence
      that is not fresh; never eligible for automatic action. */
  lemma SnapshotMeans(f: Features, q: Quality, p: Policy, asOf: int)
    requires ValidResources(f.resources)
    ensures var s := SnapshotOf(f, q, p, asOf);
            var scorable := && q.identityTrusted.state == Satisfied && q.sourceUsable.state == Satisfied
                            && q.deduplicated.state == Satisfied && q.measurementValid.state == Satisfied
                            && q.timeAligned.state == Satisfied;
            && s.windowEnd - s.windowStart == 1_800_000_000_000 && s.windowEnd <= asOf < s.windowEnd + 60_000_000_000
            && s.windowEnd % 60_000_000_000 == 0 && !s.automaticActionEligible
            && (s.status == NotEvaluable <==> !scorable)
            && (s.status == Stale <==> scorable && q.freshness.state != Satisfied)
            && (s.activity.Some? <==> scorable) && (s.exposure.Some? <==> scorable) && (s.attention.Some? <==> scorable)
            && (scorable && q.freshness.state == Satisfied ==> s.blockReasons == ["behavior_alert_only"])
            && (s.status == Stale ==> s.blockReasons == ["behavior_alert_only", "evidence_not_fresh"])
            && (!scorable ==> FirstUnmet(q.Essential()).Some?
                              && s.blockReasons == ["behavior_alert_only", FirstUnmet(q.Essential()).value.reasonCode])
  {
    FirstUnmetMeans(q.Essential());
    var ds := q.Essential();
    assert ds[0] == q.identityTrusted && ds[1] == q.sourceUsable && ds[2] == q.deduplicated
           && ds[3] == q.measurementValid && ds[4] == q.timeAligned;
  }

  /** Everything `Evaluate` checks before it scores. */
  method CheckInputs(f: Features, q: Quality, p: Policy, v: Versions, asOf: int)
    returns (error: Option<Error>, resource: Option<Score>)
    ensures error == InputError(f, q, p, v, asOf)
    ensures error.None? ==> Success(resource) == ResourceScore(f.resources)
  {
    resource := None;
    if !ValidPolicy(p) {
      return Some(InvalidPolicy), None;
    }
    if f.accountId <= 0 || asOf == ZERO || v.model == "" || v.baseline == "" || v.source == ""
       || f.evidenceCutoff == ZERO || f.evidenceCutoff > asOf {
      return Some(InvalidIdentity), None;
    }
    var ok := ValidateDimensions(q.Dimensions());
    if !ok {
      return Some(InvalidQuality), None;
    }
    ok := ValidateMinutes(f.activity, WindowEnd(asOf), p.sourceCapacity);
    if !ok {
      return Some(InvalidMinute), None;
    }
    ok := ValidateMinutes(f.exposureActivity, WindowEnd(asOf), p.sourceCapacity);
    if !ok {
      return Some(InvalidMinute), None;
    }
    var n := f.novelRepeated;
    if n.lower < 0 || n.upper < n.lower || n.upper > p.sourceCapacity {
      return Some(InvalidNovelty), None;
    }
    var r := EvaluateResources(f.resources);
    match r
    case Failure(e) => return Some(e), None;
    case Success(score) => return None, score;
  }

  /** The activity and exposure intervals of valid inputs. */
  method Measure(f: Features, q: Quality, p: Policy) returns (a: Interval, activity: Score, e: Interval)
    requires ValidPolicy(p)
    ensures a == ActivityInterval(Observed(f, q, p), p) && activity == ActivityScore(Observed(f, q, p), p)
    ensures e == ExposureInterval(f, q, p)
  {
    a, activity := ActivityBounds(Observed(f, q, p), p);
    var m, _ := ActivityBounds(f.exposureActivity, p);
    if q.capabilitySupported.state == Unsatisfied {
      m := Interval(0.0, 1.0);
    }
    var n := f.novelRepeated;
    if q.historyComplete.state != Satisfied {
      n := CountRange(0, p.exposureSources.full);
    }
    e := Interval(ExposureValue(n.lower, m.lo, p.exposureSources), ExposureValue(n.upper, m.hi, p.exposureSources));
  }

  method FillSnapshot(f: Features, q: Quality, p: Policy, asOf: int, resource: Option<Score>) returns (s: Snapshot)
    requires ValidPolicy(p) && ValidResources(f.resources) && Success(resource) == ResourceScore(f.resources)
    ensures s == SnapshotOf(f, q, p, asOf)
  {
    var end := WindowEnd(asOf);
    s := Snapshot(None, None, resource, None, end - WINDOW_MINUTES * MINUTE, end,
                  NotEvaluable, false, ["behavior_alert_only"]);
    var unmet := FindUnmet(q.Essential());
    if unmet.Some? {
      s := s.(blockReasons := s.blockReasons + [unmet.value.reasonCode]);
      return;
    }
    var a, activity, e := Measure(f, q, p);
    s := s.(activity := Some(activity), exposure := Some(ScoreOf(e)), attention := Some(ScoreOf(Joined(a, e))), status := Evaluated);
    if q.freshness.state != Satisfied {
      s := s.(status := Stale, blockReasons := s.blockReasons + ["evidence_not_fresh"]);
    }
  }

  method Evaluate(f: Features, q: Quality, p: Policy, v: Versions, asOf: int) returns (r: Result<Snapshot>)
    ensures r == Evaluation(f, q, p, v, asOf)
  {
    var error, resource := CheckInputs(f, q, p, v, asOf);
    if error.Some? {
      return Failure(error.value);
    }
    var s := FillSnapshot(f, q, p, asOf, resource);
    return Success(s);
  }
}
