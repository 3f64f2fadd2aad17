/** Account risk scoring: scales, rounding and the activity sweep
    (internal/auditrisk/model.go).

    Go's exact rationals are Dafny reals: both are exact, so no rounding happens before `HalfUp`. */
module RiskScore {

  import opened Common

  const WINDOW_MINUTES: nat := 30

  datatype Scale = Scale(start: int, full: int)

  datatype Policy = Policy(
    version: string, activitySources: Scale, activityMinutes: Scale, exposureSources: Scale,
    sourceCapacity: int, minimumBytes: nat, minimumSlices: int)

  datatype CountRange = CountRange(lower: int, upper: int)

  /** One ended minute: its start and the bounds on its simultaneous sources. */
  datatype Minute = Minute(start: int, sources: CountRange)

  datatype Contribution = Contribution(sources: int, minutes: int, sourceThresholds: Scale, durationThresholds: Scale)

  predicate ValidScale(s: Scale) {
    0 <= s.start < s.full
  }

  predicate ValidPolicy(p: Policy) {
    && p.version != ""
    && ValidScale(p.activitySources) && ValidScale(p.activityMinutes) && ValidScale(p.exposureSources)
    && 1 <= p.sourceCapacity <= 32
    && p.activitySources.full <= p.sourceCapacity && p.exposureSources.full <= p.sourceCapacity
    && p.activityMinutes.full <= WINDOW_MINUTES
    && p.minimumBytes != 0 && 1 <= p.minimumSlices <= 12
  }

  // ----- Scales -----

  function Normalized(x: int, s: Scale): (r: real)
    ensures 0.0 <= r <= 1.0
    ensures x <= s.start ==> r == 0.0
    ensures s.start < x && s.full <= x ==> r == 1.0
  {
    if x <= s.start then 0.0
    else if x >= s.full then 1.0
    else
      UnitQuotient(x - s.start, s.full - s.start);
      (x - s.start) as real / (s.full - s.start) as real
  }

  lemma UnitQuotient(a: int, b: int)
    requires 0 <= a < b
    ensures 0.0 <= a as real / b as real <= 1.0
  {
  }

  /** Between its ends a scale is linear: the value times the width is the distance from the start. */
  lemma NormalizedLinear(x: int, s: Scale)
    requires s.start <= x <= s.full && s.start < s.full
    ensures Normalized(x, s) * (s.full - s.start) as real == (x - s.start) as real
  {
    var a, b := (x - s.start) as real, (s.full - s.start) as real;
    if s.start < x < s.full {
      assert a / b * b == a;
    }
  }

  lemma QuotientMonotone(a: int, b: int, c: int)
    requires a <= b && 0 < c
    ensures a as real / c as real <= b as real / c as real
  {
    var d := c as real;
    assert (b as real / d) - (a as real / d) == (b - a) as real / d;
    assert (b - a) as real / d >= 0.0;
  }

  lemma NormalizedMonotone(x: int, y: int, s: Scale)
    requires x <= y
    ensures Normalized(x, s) <= Normalized(y, s)
  {
    if s.start < x && y < s.full {
      QuotientMonotone(x - s.start, y - s.start, s.full - s.start);
    }
  }

  /** Moving a scale up by `shift`, keeping its gap, is reading it `shift` lower. */
  lemma NormalizedShift(x: int, s: Scale, shift: int)
    ensures Normalized(x + shift, Scale(s.start + shift, s.full + shift)) == Normalized(x, s)
  {
  }

  lemma ProductMonotone(a: real, b: real, c: real, d: real)
    requires 0.0 <= a <= c && 0.0 <= b <= d
    ensures 0.0 <= a * b <= c * d
  {
    assert a * b <= c * b;
    assert c * b <= c * d;
  }

  // ----- Rounding -----

  /** Percent, halves rounded up. */
  function HalfUp(r: real): (n: int)
    ensures 2.0 * (100.0 * r - n as real) < 1.0
    ensures -1.0 <= 2.0 * (100.0 * r - n as real)
  {
    (100.0 * r + 0.5).Floor
  }

  lemma HalfUpMonotone(a: real, b: real)
    requires a <= b
    ensures HalfUp(a) <= HalfUp(b)
  {
  }

  lemma HalfUpRange(r: real)
    requires 0.0 <= r <= 1.0
    ensures 0 <= HalfUp(r) <= 100
  {
  }

  // ----- Peaks -----

  function Max(a: real, b: real): real {
    if a >= b then a else b
  }

  /** The largest of 0 and v(start + 1), ..., v(k). */
  function Peak(v: int -> real, start: int, k: int): real
    decreases k - start
  {
    if k <= start then 0.0 else Max(Peak(v, start, k - 1), v(k))
  }

  /** The least argument reaching the peak, when that is positive. */
  function PeakAt(v: int -> real, start: int, k: int): Option<int>
    decreases k - start
  {
    if k <= start then None
    else if v(k) > Peak(v, start, k - 1) then Some(k)
    else PeakAt(v, start, k - 1)
  }

  lemma {:induction false} PeakCovers(v: int -> real, start: int, j: int, k: int)
    requires start < j <= k
    ensures v(j) <= Peak(v, start, k)
    decreases k - start
  {
    if j < k {
      PeakCovers(v, start, j, k - 1);
    }
  }

  lemma {:induction false} PeakRange(v: int -> real, start: int, k: int)
    requires forall j :: v(j) <= 1.0
    ensures 0.0 <= Peak(v, start, k) <= 1.0
    decreases k - start
  {
    if start < k {
      PeakRange(v, start, k - 1);
    }
  }

  lemma {:induction false} PeakMonotone(v: int -> real, start: int, k: int, w: int -> real, shift: int)
    requires forall j :: v(j) <= w(j + shift)
    ensures Peak(v, start, k) <= Peak(w, start + shift, k + shift)
    decreases k - start
  {
    if start < k {
      PeakMonotone(v, start, k - 1, w, shift);
      assert k - 1 + shift == k + shift - 1;
    }
  }

  /** The least argument is reported exactly for a positive peak, and attains it. */
  lemma {:induction false} PeakAttained(v: int -> real, start: int, k: int)
    ensures var t := PeakAt(v, start, k);
            && (t.None? <==> Peak(v, start, k) == 0.0)
            && (t.Some? ==> start < t.value <= k && v(t.value) == Peak(v, start, k))
            && (t.Some? ==> forall j :: start < j < t.value ==> v(j) < v(t.value))
    decreases k - start
  {
    if start < k {
      PeakAttained(v, start, k - 1);
      PeakNonNegative(v, start, k - 1);
      if v(k) > Peak(v, start, k - 1) {
        forall j | start < j < k
          ensures v(j) < v(k)
        {
          PeakCovers(v, start, j, k - 1);
        }
      }
    }
  }

  lemma {:induction false} PeakNonNegative(v: int -> real, start: int, k: int)
    ensures 0.0 <= Peak(v, start, k)
    decreases k - start
  {
    if start < k {
      PeakNonNegative(v, start, k - 1);
    }
  }

  // ----- The sweep -----

  function CountAtLeast(ns: seq<int>, k: int): nat {
    if ns == [] then 0
    else CountAtLeast(ns[..|ns| - 1], k) + if ns[|ns| - 1] >= k then 1 else 0
  }

  function SweepValue(ns: seq<int>, k: int, p: Policy): real {
    Normalized(k, p.activitySources) * Normalized(CountAtLeast(ns, k), p.activityMinutes)
  }

  function Sweep(ns: seq<int>, p: Policy): int -> real {
    k => SweepValue(ns, k, p)
  }

  function ActivityValue(ns: seq<int>, p: Policy): real {
    Peak(Sweep(ns, p), p.activitySources.start, p.activitySources.full)
  }

  function AsContribution(ns: seq<int>, threshold: Option<int>, p: Policy): Option<Contribution> {
    match threshold
    case None => None
    case Some(k) => Some(Contribution(k, CountAtLeast(ns, k), p.activitySources, p.activityMinutes))
  }

  function Evidence(ns: seq<int>, p: Policy): Option<Contribution> {
    AsContribution(ns, PeakAt(Sweep(ns, p), p.activitySources.start, p.activitySources.full), p)
  }

  function Counts(minutes: seq<Minute>, upper: bool): (ns: seq<int>)
    ensures |ns| == |minutes|
    ensures forall i :: 0 <= i < |ns| ==> ns[i] == if upper then minutes[i].sources.upper else minutes[i].sources.lower
  {
    seq(|minutes|, i requires 0 <= i < |minutes| => if upper then minutes[i].sources.upper else minutes[i].sources.lower)
  }

  /** How many minutes reach `k` sources. */
  method CountMinutes(minutes: seq<Minute>, upper: bool, k: int) returns (d: nat)
    ensures d == CountAtLeast(Counts(minutes, upper), k)
  {
    ghost var ns := Counts(minutes, upper);
    d := 0;
    for i := 0 to |minutes|
      invariant d == CountAtLeast(ns[..i], k)
    {
      assert ns[..i + 1][..i] == ns[..i];
      var n := if upper then minutes[i].sources.upper else minutes[i].sources.lower;
      if n >= k {
        d := d + 1;
      }
    }
    assert ns[..|minutes|] == ns;
  }

  method ThresholdValue(minutes: seq<Minute>, p: Policy, upper: bool, k: int) returns (d: nat, value: real)
    ensures d == CountAtLeast(Counts(minutes, upper), k)
    ensures value == Sweep(Counts(minutes, upper), p)(k)
  {
    d := CountMinutes(minutes, upper, k);
    value := Normalized(k, p.activitySources) * Normalized(d, p.activityMinutes);
  }

  method Activity(minutes: seq<Minute>, p: Policy, upper: bool) returns (best: real, evidence: Option<Contribution>)
    requires ValidPolicy(p)
    ensures best == ActivityValue(Counts(minutes, upper), p)
    ensures evidence == Evidence(Counts(minutes, upper), p)
  {
    ghost var ns := Counts(minutes, upper);
    ghost var v := Sweep(ns, p);
    var start, full := p.activitySources.start, p.activitySources.full;
    best, evidence := 0.0, None;
    var k := start + 1;
    while k <= full
      invariant start + 1 <= k <= full + 1
      invariant best == Peak(v, start, k - 1)
      invariant evidence == AsContribution(ns, PeakAt(v, start, k - 1), p)
    {
      var d, value := ThresholdValue(minutes, p, upper, k);
      if value > best {
        best := value;
        evidence := Some(Contribution(k, d, p.activitySources, p.activityMinutes));
      }
      k := k + 1;
    }
  }

  lemma SweepRange(ns: seq<int>, p: Policy)
    ensures forall k :: 0.0 <= Sweep(ns, p)(k) <= 1.0
  {
    forall k
      ensures 0.0 <= Sweep(ns, p)(k) <= 1.0
    {
      ProductMonotone(Normalized(k, p.activitySources), Normalized(CountAtLeast(ns, k), p.activityMinutes), 1.0, 1.0);
    }
  }

  lemma ActivityRange(ns: seq<int>, p: Policy)
    ensures 0.0 <= ActivityValue(ns, p) <= 1.0
  {
    SweepRange(ns, p);
    PeakRange(Sweep(ns, p), p.activitySources.start, p.activitySources.full);
  }

  // ----- The sweep as a maximum over sets of minutes -----

  ghost predicate AreMinutes(ns: seq<int>, minutes: set<int>) {
    (exists i :: i in minutes) && forall i :: i in minutes ==> 0 <= i < |ns|
  }

  ghost predicate IsMinimum(ns: seq<int>, minutes: set<int>, m: int)
    requires AreMinutes(ns, minutes)
  {
    (exists i :: i in minutes && ns[i] == m) && forall i :: i in minutes ==> m <= ns[i]
  }

  lemma {:induction false} MinimumExists(ns: seq<int>, minutes: set<int>)
    requires AreMinutes(ns, minutes)
    ensures exists m :: IsMinimum(ns, minutes, m)
    decreases |minutes|
  {
    var i :| i in minutes;
    if j :| j in minutes && j != i {
      var rest := minutes - {i};
      assert j in rest;
      MinimumExists(ns, rest);
      var m :| IsMinimum(ns, rest, m);
      var least := if ns[i] < m then ns[i] else m;
      var h :| h in rest && ns[h] == m;
      assert ns[if ns[i] < m then i else h] == least;
      assert IsMinimum(ns, minutes, least);
    } else {
      assert IsMinimum(ns, minutes, ns[i]);
    }
  }

  /** Fewest simultaneous sources over a non-empty set of minutes. */
  ghost function FewestSources(ns: seq<int>, minutes: set<int>): (m: int)
    requires AreMinutes(ns, minutes)
    ensures IsMinimum(ns, minutes, m)
  {
    MinimumExists(ns, minutes);
    var m :| IsMinimum(ns, minutes, m);
    m
  }

  /** How many sources were sustained over a set of minutes, times how long that lasted. */
  ghost function SustainedValue(ns: seq<int>, minutes: set<int>, p: Policy): real
    requires AreMinutes(ns, minutes)
  {
    Normalized(FewestSources(ns, minutes), p.activitySources) * Normalized(|minutes|, p.activityMinutes)
  }

  function AtLeast(ns: seq<int>, k: int): set<int> {
    set i | 0 <= i < |ns| && ns[i] >= k
  }

  lemma {:induction false} CountIsCardinality(ns: seq<int>, k: int)
    ensures CountAtLeast(ns, k) == |AtLeast(ns, k)|
  {
    if ns != [] {
      var front := ns[..|ns| - 1];
      CountIsCardinality(front, k);
      assert AtLeast(ns, k) == AtLeast(front, k) + if ns[|ns| - 1] >= k then {|ns| - 1} else {};
    } else {
      assert AtLeast(ns, k) == {};
    }
  }

  lemma {:induction false} CountAll(ns: seq<int>, k: int)
    requires forall i :: 0 <= i < |ns| ==> ns[i] >= k
    ensures CountAtLeast(ns, k) == |ns|
  {
    if ns != [] {
      CountAll(ns[..|ns| - 1], k);
    }
  }

  /** A set of minutes that all reach `m` sources is worth no more than any threshold
      of equal normalized height that it clears. */
  lemma SustainedAtMostThreshold(ns: seq<int>, minutes: set<int>, k: int, p: Policy)
    requires AreMinutes(ns, minutes) && k <= FewestSources(ns, minutes)
    requires Normalized(FewestSources(ns, minutes), p.activitySources) == Normalized(k, p.activitySources)
    ensures SustainedValue(ns, minutes, p) <= SweepValue(ns, k, p)
  {
    SubsetSize(minutes, AtLeast(ns, k));
    CountIsCardinality(ns, k);
    NormalizedMonotone(|minutes|, CountAtLeast(ns, k), p.activityMinutes);
    ProductMonotone(Normalized(k, p.activitySources), Normalized(|minutes|, p.activityMinutes),
                    Normalized(k, p.activitySources), Normalized(CountAtLeast(ns, k), p.activityMinutes));
  }

  lemma SustainedNonNegative(ns: seq<int>, minutes: set<int>, p: Policy)
    requires AreMinutes(ns, minutes)
    ensures 0.0 <= SustainedValue(ns, minutes, p)
    ensures FewestSources(ns, minutes) <= p.activitySources.start ==> SustainedValue(ns, minutes, p) == 0.0
  {
    ProductMonotone(0.0, 0.0, Normalized(FewestSources(ns, minutes), p.activitySources), Normalized(|minutes|, p.activityMinutes));
  }

  lemma SustainedAtMostSweep(ns: seq<int>, minutes: set<int>, p: Policy)
    requires ValidPolicy(p) && AreMinutes(ns, minutes)
    ensures 0.0 <= SustainedValue(ns, minutes, p) <= ActivityValue(ns, p)
  {
    var src, m := p.activitySources, FewestSources(ns, minutes);
    ActivityRange(ns, p);
    SustainedNonNegative(ns, minutes, p);
    if src.start < m {
      var k := if m < src.full then m else src.full;
      SustainedAtMostThreshold(ns, minutes, k, p);
      PeakCovers(Sweep(ns, p), src.start, k, src.full);
    }
  }

  lemma ThresholdAtMostSustained(ns: seq<int>, k: int, p: Policy)
    requires AreMinutes(ns, AtLeast(ns, k))
    ensures SweepValue(ns, k, p) <= SustainedValue(ns, AtLeast(ns, k), p)
  {
    var minutes := AtLeast(ns, k);
    var m := FewestSources(ns, minutes);
    CountIsCardinality(ns, k);
    NormalizedMonotone(k, m, p.activitySources);
    ProductMonotone(Normalized(k, p.activitySources), Normalized(|minutes|, p.activityMinutes),
                    Normalized(m, p.activitySources), Normalized(|minutes|, p.activityMinutes));
  }

  lemma ThresholdWithoutMinutes(ns: seq<int>, k: int, p: Policy)
    requires ValidPolicy(p) && forall i :: i !in AtLeast(ns, k)
    ensures SweepValue(ns, k, p) == 0.0
  {
    assert AtLeast(ns, k) == {};
    CountIsCardinality(ns, k);
  }

  lemma SweepAttained(ns: seq<int>, p: Policy) returns (minutes: set<int>)
    requires ValidPolicy(p) && ns != []
    ensures AreMinutes(ns, minutes) && SustainedValue(ns, minutes, p) == ActivityValue(ns, p)
  {
    var v, src := Sweep(ns, p), p.activitySources;
    PeakAttained(v, src.start, src.full);
    if PeakAt(v, src.start, src.full).None? {
      minutes := {0};
      assert 0 in minutes;
    } else {
      var k := PeakAt(v, src.start, src.full).value;
      assert v(k) == SweepValue(ns, k, p);
      minutes := AtLeast(ns, k);
      if forall i :: i !in minutes {
        ThresholdWithoutMinutes(ns, k, p);
      }
      ThresholdAtMostSustained(ns, k, p);
    }
    SustainedAtMostSweep(ns, minutes, p);
  }

  /** The linear threshold sweep is the maximum over all non-empty sets of minutes. */
  lemma SweepIsSubsetMaximum(ns: seq<int>, p: Policy)
    requires ValidPolicy(p) && ns != []
    ensures forall minutes: set<int> :: AreMinutes(ns, minutes) ==> SustainedValue(ns, minutes, p) <= ActivityValue(ns, p)
    ensures exists minutes: set<int> :: AreMinutes(ns, minutes) && SustainedValue(ns, minutes, p) == ActivityValue(ns, p)
  {
    forall minutes: set<int> | AreMinutes(ns, minutes)
      ensures SustainedValue(ns, minutes, p) <= ActivityValue(ns, p)
    {
      SustainedAtMostSweep(ns, minutes, p);
    }
    var minutes := SweepAttained(ns, p);
  }

  /** Evidence accompanies exactly the positive scores; its minutes are those reaching its
      threshold, its value is the score, and no lower threshold reaches it. */
  lemma EvidenceIsWitness(ns: seq<int>, p: Policy)
    ensures var c := Evidence(ns, p);
            && (c.None? <==> ActivityValue(ns, p) == 0.0)
            && (c.Some? ==>
                && p.activitySources.start < c.value.sources <= p.activitySources.full
                && c.value.minutes == |AtLeast(ns, c.value.sources)|
                && SweepValue(ns, c.value.sources, p) == ActivityValue(ns, p)
                && forall j :: p.activitySources.start < j < c.value.sources ==> SweepValue(ns, j, p) < ActivityValue(ns, p))
  {
    var v, src := Sweep(ns, p), p.activitySources;
    PeakAttained(v, src.start, src.full);
    var t := PeakAt(v, src.start, src.full);
    assert forall j :: v(j) == SweepValue(ns, j, p);
    if t.Some? {
      CountIsCardinality(ns, t.value);
    }
  }

  // ----- Monotonicity -----

  lemma {:induction false} CountMonotone(ns: seq<int>, ms: seq<int>, j: int, k: int)
    requires |ns| == |ms| && k <= j
    requires forall i :: 0 <= i < |ns| ==> ns[i] <= ms[i]
    ensures CountAtLeast(ns, j) <= CountAtLeast(ms, k)
  {
    if ns != [] {
      CountMonotone(ns[..|ns| - 1], ms[..|ms| - 1], j, k);
    }
  }

  lemma SweepValueMonotone(ns: seq<int>, j: int, p: Policy, ms: seq<int>, k: int, q: Policy)
    requires |ns| == |ms| && k <= j
    requires forall i :: 0 <= i < |ns| ==> ns[i] <= ms[i]
    requires Normalized(j, p.activitySources) == Normalized(k, q.activitySources) && p.activityMinutes == q.activityMinutes
    ensures SweepValue(ns, j, p) <= SweepValue(ms, k, q)
  {
    CountMonotone(ns, ms, j, k);
    NormalizedMonotone(CountAtLeast(ns, j), CountAtLeast(ms, k), p.activityMinutes);
    ProductMonotone(Normalized(j, p.activitySources), Normalized(CountAtLeast(ns, j), p.activityMinutes),
                    Normalized(k, q.activitySources), Normalized(CountAtLeast(ms, k), q.activityMinutes));
  }

  /** More sources in every minute, or a source scale that starts no higher with the same gap,
      never lowers the score. */
  lemma ActivityMonotone(ns: seq<int>, p: Policy, ms: seq<int>, q: Policy)
    requires |ns| == |ms|
    requires forall i :: 0 <= i < |ns| ==> ns[i] <= ms[i]
    requires p.activityMinutes == q.activityMinutes
    requires q.activitySources.start <= p.activitySources.start
    requires q.activitySources.full - q.activitySources.start == p.activitySources.full - p.activitySources.start
    ensures ActivityValue(ns, p) <= ActivityValue(ms, q)
  {
    var v, w := Sweep(ns, p), Sweep(ms, q);
    var down := q.activitySources.start - p.activitySources.start;
    forall j
      ensures v(j) <= w(j + down)
    {
      NormalizedShift(j, p.activitySources, down);
      SweepValueMonotone(ns, j, p, ms, j + down, q);
    }
    PeakMonotone(v, p.activitySources.start, p.activitySources.full, w, down);
  }
}
