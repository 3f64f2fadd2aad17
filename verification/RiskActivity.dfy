/** Per-minute source aggregation (internal/auditrisk/activity.go). A bitmap of five-second
    slices is the set of its bits; byte counters are 64-bit and saturate. */
module RiskActivity {

  import opened Common
  import opened RiskScore

  const SLICES: nat := 12
  const MAX_ROWS: nat := 65536
  const MAX_UINT64: nat := 0xFFFF_FFFF_FFFF_FFFF

  type Uint64 = n: nat | n <= MAX_UINT64

  datatype Row = Row(group: string, slices: set<nat>, bytes: Uint64)

  datatype Group = Group(slices: set<nat>, bytes: Uint64)

  datatype Merged = Merged(groups: map<string, Group>, overflow: bool, counterOverflow: bool)

  datatype Aggregation = Aggregation(sources: CountRange, qualified: nat, overflow: bool, counterOverflow: bool)

  datatype Error = InvalidPolicy | TooManyRows | InvalidRow

  datatype Result<T> = Success(value: T) | Failure(error: Error)

  predicate ValidRow(r: Row) {
    && r.group != "" && |r.group| <= 128
    && (forall j :: j in r.slices ==> j < SLICES)
    && (r.bytes > 0 <==> r.slices != {})
  }

  predicate ValidRows(rows: seq<Row>) {
    forall i :: 0 <= i < |rows| ==> ValidRow(rows[i])
  }

  // ----- Merging rows of one source -----

  function Absorb(held: Group, r: Row): Group {
    Group(held.slices + r.slices, if MAX_UINT64 - held.bytes < r.bytes then MAX_UINT64 else held.bytes + r.bytes)
  }

  function Held(m: Merged, group: string): Group {
    if group in m.groups then m.groups[group] else Group({}, 0)
  }

  function AddRow(m: Merged, r: Row, capacity: int): Merged {
    if r.group !in m.groups && |m.groups| >= capacity then m.(overflow := true)
    else
      var held := Held(m, r.group);
      Merged(m.groups[r.group := Absorb(held, r)], m.overflow, m.counterOverflow || MAX_UINT64 - held.bytes < r.bytes)
  }

  function Merge(rows: seq<Row>, capacity: int): Merged {
    if rows == [] then Merged(map[], false, false)
    else AddRow(Merge(rows[..|rows| - 1], capacity), rows[|rows| - 1], capacity)
  }

  method MergeRow(m: Merged, row: Row, capacity: int) returns (m': Merged)
    ensures m' == AddRow(m, row, capacity)
  {
    var known := row.group in m.groups;
    if !known && |m.groups| >= capacity {
      return m.(overflow := true);
    }
    var held := if known then m.groups[row.group] else Group({}, 0);
    var bytes: Uint64 := MAX_UINT64;
    var counterOverflow := m.counterOverflow;
    if MAX_UINT64 - held.bytes < row.bytes {
      counterOverflow := true;
    } else {
      bytes := held.bytes + row.bytes;
    }
    return Merged(m.groups[row.group := Group(held.slices + row.slices, bytes)], m.overflow, counterOverflow);
  }

  lemma MergeSnoc(rows: seq<Row>, i: nat, capacity: int)
    requires i < |rows|
    ensures Merge(rows[..i + 1], capacity) == AddRow(Merge(rows[..i], capacity), rows[i], capacity)
  {
    assert rows[..i + 1][..i] == rows[..i];
  }

  method MergeNext(rows: seq<Row>, i: nat, m: Merged, capacity: int) returns (m': Merged)
    requires i < |rows| && m == Merge(rows[..i], capacity)
    ensures m' == Merge(rows[..i + 1], capacity)
  {
    MergeSnoc(rows, i, capacity);
    m' := MergeRow(m, rows[i], capacity);
  }

  lemma ValidSnoc(rows: seq<Row>, i: nat)
    requires i < |rows|
    ensures ValidRows(rows[..i + 1]) <==> ValidRows(rows[..i]) && ValidRow(rows[i])
  {
    assert rows[..i + 1] == rows[..i] + [rows[i]];
  }

  lemma ValidWhole(rows: seq<Row>, i: nat)
    requires i <= |rows| && ValidRows(rows[..i])
    ensures i == |rows| ==> rows[..i] == rows && ValidRows(rows)
    ensures i < |rows| && !ValidRow(rows[i]) ==> !ValidRows(rows)
  {
  }

  method MergeRows(rows: seq<Row>, capacity: int) returns (r: Result<Merged>)
    ensures r == if ValidRows(rows) then Success(Merge(rows, capacity)) else Failure(InvalidRow)
  {
    var m, i := Merged(map[], false, false), 0;
    while i < |rows| && ValidRow(rows[i])
      invariant i <= |rows| && ValidRows(rows[..i])
      invariant m == Merge(rows[..i], capacity)
    {
      ValidSnoc(rows, i);
      m := MergeNext(rows, i, m, capacity);
      i := i + 1;
    }
    ValidWhole(rows, i);
    r := if i < |rows| then Failure(InvalidRow) else Success(m);
  }

  // ----- Counting slices -----

  predicate Qualifies(g: Group, p: Policy) {
    g.bytes >= p.minimumBytes && |g.slices| >= p.minimumSlices
  }

  function Qualified(groups: map<string, Group>, p: Policy): set<string> {
    set g | g in groups && Qualifies(groups[g], p)
  }

  function ActiveIn(groups: map<string, Group>, j: nat, p: Policy): set<string> {
    set g | g in groups && Qualifies(groups[g], p) && j in groups[g].slices
  }

  function SliceCounts(groups: map<string, Group>, p: Policy): (counts: seq<nat>)
    ensures |counts| == SLICES
    ensures forall j :: 0 <= j < SLICES ==> counts[j] == |ActiveIn(groups, j, p)|
  {
    seq(SLICES, j requires 0 <= j < SLICES => |ActiveIn(groups, j, p)|)
  }

  lemma ActiveAdd(done: map<string, Group>, g: string, v: Group, j: nat, p: Policy)
    requires g !in done
    ensures |ActiveIn(done[g := v], j, p)| == |ActiveIn(done, j, p)| + if Qualifies(v, p) && j in v.slices then 1 else 0
  {
    var before, after := ActiveIn(done, j, p), ActiveIn(done[g := v], j, p);
    assert g !in before;
    if Qualifies(v, p) && j in v.slices {
      assert after == before + {g};
    } else {
      assert after == before;
    }
  }

  lemma QualifiedAdd(done: map<string, Group>, g: string, v: Group, p: Policy)
    requires g !in done
    ensures |Qualified(done[g := v], p)| == |Qualified(done, p)| + if Qualifies(v, p) then 1 else 0
  {
    assert Qualified(done[g := v], p) == Qualified(done, p) + if Qualifies(v, p) then {g} else {};
  }

  /** Adds one qualifying source to the counters of the slices it was active in. */
  method CountGroup(counts: array<nat>, v: Group, ghost done: map<string, Group>, ghost g: string, p: Policy)
    requires counts.Length == SLICES && counts[..] == SliceCounts(done, p)
    requires g !in done && Qualifies(v, p)
    modifies counts
    ensures counts[..] == SliceCounts(done[g := v], p)
  {
    for j := 0 to SLICES
      invariant forall h :: 0 <= h < SLICES ==>
                  counts[h] == SliceCounts(done, p)[h] + if h < j && h in v.slices then 1 else 0
    {
      if j in v.slices {
        counts[j] := counts[j] + 1;
      }
    }
    forall h | 0 <= h < SLICES
      ensures counts[h] == SliceCounts(done[g := v], p)[h]
    {
      ActiveAdd(done, g, v, h, p);
    }
  }

  method CountSlices(groups: map<string, Group>, p: Policy) returns (counts: array<nat>, qualified: nat)
    ensures fresh(counts) && counts.Length == SLICES
    ensures counts[..] == SliceCounts(groups, p)
    ensures qualified == |Qualified(groups, p)|
  {
    counts := new nat[SLICES](_ => 0);
    qualified := 0;
    var todo := groups.Keys;
    ghost var done: map<string, Group> := map[];
    assert counts[..] == SliceCounts(done, p);
    while todo != {}
      invariant fresh(counts) && counts.Length == SLICES
      invariant todo <= groups.Keys
      invariant done == map g | g in groups && g !in todo :: groups[g]
      invariant counts[..] == SliceCounts(done, p)
      invariant qualified == |Qualified(done, p)|
      decreases |todo|
    {
      var g :| g in todo;
      todo := todo - {g};
      var v := groups[g];
      QualifiedAdd(done, g, v, p);
      if v.bytes < p.minimumBytes || |v.slices| < p.minimumSlices {
        forall h | 0 <= h < SLICES
          ensures |ActiveIn(done[g := v], h, p)| == |ActiveIn(done, h, p)|
        {
          ActiveAdd(done, g, v, h, p);
        }
        assert SliceCounts(done[g := v], p) == SliceCounts(done, p);
      } else {
        qualified := qualified + 1;
        CountGroup(counts, v, done, g, p);
      }
      done := done[g := v];
    }
    assert done == groups;
  }

  // ----- Third largest -----

  /** `v` is the third largest element: three are at least `v`, at most two exceed it. */
  predicate IsThirdLargest(v: int, counts: seq<int>) {
    CountAtLeast(counts, v) >= 3 && CountAtLeast(counts, v + 1) < 3
  }

  /** `a >= b >= c` are the three largest of the counts seen so far, padded with zeros. */
  ghost predicate AreTop(a: int, b: int, c: int, counts: seq<int>) {
    && a >= b >= c >= 0
    && forall v :: v > 0 ==>
         && (a >= v <==> CountAtLeast(counts, v) >= 1)
         && (b >= v <==> CountAtLeast(counts, v) >= 2)
         && (c >= v <==> CountAtLeast(counts, v) >= 3)
  }

  lemma TopInsert(a: int, b: int, c: int, counts: seq<int>, n: int)
    requires AreTop(a, b, c, counts) && n >= 0
    ensures n > a ==> AreTop(n, a, b, counts + [n])
    ensures b < n <= a ==> AreTop(a, n, b, counts + [n])
    ensures c < n <= b ==> AreTop(a, b, n, counts + [n])
    ensures n <= c ==> AreTop(a, b, c, counts + [n])
  {
    assert (counts + [n])[..|counts|] == counts;
    assert forall v :: CountAtLeast(counts + [n], v) == CountAtLeast(counts, v) + if n >= v then 1 else 0;
  }

  method ThirdLargest(counts: array<nat>) returns (third: nat)
    requires counts.Length >= 3
    ensures IsThirdLargest(third, counts[..])
  {
    var top := new nat[3](_ => 0);
    for i := 0 to counts.Length
      invariant fresh(top) && AreTop(top[0], top[1], top[2], counts[..i])
    {
      assert counts[..i + 1] == counts[..i] + [counts[i]];
      TopInsert(top[0], top[1], top[2], counts[..i], counts[i]);
      ghost var a, b, c := top[0], top[1], top[2];
      var n := counts[i];
      for j := 0 to 3
        invariant j == 0 ==> n == counts[i] && top[0] == a && top[1] == b && top[2] == c
        invariant j == 1 ==> top[1] == b && top[2] == c &&
                             if counts[i] > a then n == a && top[0] == counts[i] else n == counts[i] && top[0] == a
        invariant j == 2 ==> top[2] == c &&
                             if counts[i] > a then top[0] == counts[i] && top[1] == a && n == b
                             else if counts[i] > b then top[0] == a && top[1] == counts[i] && n == b
                             else top[0] == a && top[1] == b && n == counts[i]
        invariant j == 3 ==> AreTop(top[0], top[1], top[2], counts[..i + 1])
      {
        if n > top[j] {
          n, top[j] := top[j], n;
        }
      }
    }
    third := top[2];
    assert counts[..counts.Length] == counts[..];
    CountAll(counts[..], 0);
  }

  /** At most one value is the third largest, and it grows with the counts. */
  lemma ThirdLargestMonotone(v: int, counts: seq<int>, w: int, larger: seq<int>)
    requires IsThirdLargest(v, counts) && IsThirdLargest(w, larger)
    requires |counts| == |larger| && forall j :: 0 <= j < |counts| ==> counts[j] <= larger[j]
    ensures v <= w
  {
    CountMonotone(counts, larger, v, v);
    if w < v {
      CountMonotone(larger, larger, v, w + 1);
    }
  }

  function AtLeast(counts: seq<int>, v: int): set<int> {
    set i | 0 <= i < |counts| && counts[i] >= v
  }

  lemma {:induction false} CountIsSize(counts: seq<int>, v: int)
    ensures CountAtLeast(counts, v) == |AtLeast(counts, v)|
  {
    if counts != [] {
      var n := |counts| - 1;
      CountIsSize(counts[..n], v);
      assert AtLeast(counts, v) == AtLeast(counts[..n], v) + if counts[n] >= v then {n} else {};
    }
  }

  /** Three positions have at least the third largest count, and no more than two have a larger one. */
  lemma ThirdLargestMeans(v: int, counts: seq<int>)
    ensures IsThirdLargest(v, counts) <==>
            && |set i | 0 <= i < |counts| && v <= counts[i]| > 2
            && |set i | 0 <= i < |counts| && v < counts[i]| <= 2
  {
    CountIsSize(counts, v);
    CountIsSize(counts, v + 1);
    assert (set i | 0 <= i < |counts| && v <= counts[i]) == AtLeast(counts, v);
    assert (set i | 0 <= i < |counts| && v < counts[i]) == AtLeast(counts, v + 1);
  }

  // ----- Aggregation -----

  ghost predicate IsAggregation(out: Aggregation, m: Merged, complete: bool, p: Policy) {
    && IsThirdLargest(out.sources.lower, SliceCounts(m.groups, p))
    && out.qualified == |Qualified(m.groups, p)|
    && out.overflow == m.overflow && out.counterOverflow == m.counterOverflow
    && out.sources.upper == (if complete && !m.overflow && !m.counterOverflow then out.sources.lower
                             else if out.sources.lower > p.activitySources.full then out.sources.lower
                             else p.activitySources.full)
  }

  method AggregateMinute(rows: seq<Row>, complete: bool, p: Policy) returns (r: Result<Aggregation>)
    ensures if !ValidPolicy(p) then r == Failure(InvalidPolicy)
            else if |rows| > MAX_ROWS then r == Failure(TooManyRows)
            else if !ValidRows(rows) then r == Failure(InvalidRow)
            else r.Success? && IsAggregation(r.value, Merge(rows, p.sourceCapacity), complete, p)
    ensures r.Success? <==>
            && ValidPolicy(p) && |rows| <= 65536
            && forall i :: 0 <= i < |rows| ==>
                 && 1 <= |rows[i].group| <= 128 && (forall j :: j in rows[i].slices ==> j <= 11)
                 && (rows[i].bytes == 0 <==> rows[i].slices == {})
  {
    if !ValidPolicy(p) {
      return Failure(InvalidPolicy);
    }
    if |rows| > MAX_ROWS {
      return Failure(TooManyRows);
    }
    var m := MergeRows(rows, p.sourceCapacity);
    if m.Failure? {
      return Failure(m.error);
    }
    var counts, qualified := CountSlices(m.value.groups, p);
    var third := ThirdLargest(counts);
    var out := Aggregation(CountRange(third, third), qualified, m.value.overflow, m.value.counterOverflow);
    if !complete || out.overflow || out.counterOverflow {
      var upper := p.activitySources.full;
      if third > upper {
        upper := third;
      }
      out := out.(sources := CountRange(third, upper));
    }
    return Success(out);
  }

  // ----- The uncapped reference -----

  /** Everything `source` did, over all rows. */
  function SlicesOf(rows: seq<Row>, source: string): set<nat> {
    set r, j | r in rows && r.group == source && j in r.slices :: j
  }

  function BytesOf(rows: seq<Row>, source: string): nat {
    if rows == [] then 0
    else BytesOf(rows[..|rows| - 1], source) + if rows[|rows| - 1].group == source then rows[|rows| - 1].bytes else 0
  }

  function SourcesOf(rows: seq<Row>): set<string> {
    set r | r in rows :: r.group
  }

  function Saturating(n: nat): Uint64 {
    if n <= MAX_UINT64 then n else MAX_UINT64
  }

  function WholeGroup(rows: seq<Row>, source: string): Group {
    Group(SlicesOf(rows, source), Saturating(BytesOf(rows, source)))
  }

  /** Every source merged over all its rows, without a capacity. */
  function AllGroups(rows: seq<Row>): map<string, Group> {
    map source | source in SourcesOf(rows) :: WholeGroup(rows, source)
  }

  lemma SnocFacts(rows: seq<Row>, r: Row)
    ensures SourcesOf(rows + [r]) == SourcesOf(rows) + {r.group}
    ensures forall source :: SlicesOf(rows + [r], source) == SlicesOf(rows, source) + if source == r.group then r.slices else {}
    ensures forall source :: BytesOf(rows + [r], source) == BytesOf(rows, source) + if source == r.group then r.bytes else 0
  {
    var next := rows + [r];
    assert next[..|rows|] == rows;
    assert forall x :: x in next <==> x in rows || x == r;
    forall source
      ensures SlicesOf(next, source) == SlicesOf(rows, source) + if source == r.group then r.slices else {}
    {
    }
  }

  lemma {:induction false} AbsentSource(rows: seq<Row>, source: string)
    requires source !in SourcesOf(rows)
    ensures WholeGroup(rows, source) == Group({}, 0) && BytesOf(rows, source) == 0
  {
    if rows != [] {
      var front, last := rows[..|rows| - 1], rows[|rows| - 1];
      assert rows == front + [last];
      SnocFacts(front, last);
      AbsentSource(front, source);
    }
  }

  /** The capped merge holds some sources, each merged completely; what it drops it reports. */
  ghost predicate IsRestriction(m: Merged, rows: seq<Row>, capacity: int) {
    && m.groups.Keys <= SourcesOf(rows) && |m.groups| <= capacity
    && (forall source :: source in m.groups ==> m.groups[source] == WholeGroup(rows, source))
    && (m.overflow <==> m.groups.Keys != SourcesOf(rows))
    && (m.overflow ==> |m.groups| == capacity)
    && (m.counterOverflow <==> exists source :: source in m.groups && BytesOf(rows, source) > MAX_UINT64)
  }

  lemma WholeSnoc(rows: seq<Row>, r: Row, source: string)
    ensures source != r.group ==> WholeGroup(rows + [r], source) == WholeGroup(rows, source)
    ensures source == r.group ==> WholeGroup(rows + [r], source) == Absorb(WholeGroup(rows, source), r)
    ensures source != r.group ==> BytesOf(rows + [r], source) == BytesOf(rows, source)
    ensures source == r.group ==> (BytesOf(rows + [r], source) > MAX_UINT64
              <==> BytesOf(rows, source) > MAX_UINT64 || MAX_UINT64 - WholeGroup(rows, source).bytes < r.bytes)
  {
    SnocFacts(rows, r);
  }

  lemma DroppedRow(m: Merged, rows: seq<Row>, r: Row, capacity: nat)
    requires IsRestriction(m, rows, capacity) && r.group !in m.groups && |m.groups| >= capacity
    ensures IsRestriction(m.(overflow := true), rows + [r], capacity)
  {
    SnocFacts(rows, r);
    forall source | source in m.groups
      ensures WholeGroup(rows + [r], source) == m.groups[source] && BytesOf(rows + [r], source) == BytesOf(rows, source)
    {
      WholeSnoc(rows, r, source);
    }
  }

  lemma KeptRow(m: Merged, rows: seq<Row>, r: Row, capacity: nat)
    requires IsRestriction(m, rows, capacity) && (r.group in m.groups || |m.groups| < capacity)
    ensures IsRestriction(AddRow(m, r, capacity), rows + [r], capacity)
  {
    var next, n := rows + [r], AddRow(m, r, capacity);
    assert SourcesOf(next) == SourcesOf(rows) + {r.group} by {
      SnocFacts(rows, r);
    }
    if r.group !in m.groups {
      AbsentSource(rows, r.group);
    }
    assert Held(m, r.group) == WholeGroup(rows, r.group);
    forall source | source in n.groups
      ensures n.groups[source] == WholeGroup(next, source)
    {
      WholeSnoc(rows, r, source);
    }
    KeptRowCounter(m, rows, r, capacity);
  }

  lemma KeptRowCounter(m: Merged, rows: seq<Row>, r: Row, capacity: nat)
    requires r.group in m.groups || |m.groups| < capacity
    requires Held(m, r.group) == WholeGroup(rows, r.group)
    requires r.group !in m.groups ==> BytesOf(rows, r.group) <= MAX_UINT64
    requires m.counterOverflow <==> exists source :: source in m.groups && BytesOf(rows, source) > MAX_UINT64
    ensures var n := AddRow(m, r, capacity);
            n.counterOverflow <==> exists source :: source in n.groups && BytesOf(rows + [r], source) > MAX_UINT64
  {
    var next, n := rows + [r], AddRow(m, r, capacity);
    WholeSnoc(rows, r, r.group);
    if m.counterOverflow {
      var source :| source in m.groups && BytesOf(rows, source) > MAX_UINT64;
      WholeSnoc(rows, r, source);
      assert source in n.groups && BytesOf(next, source) > MAX_UINT64;
    } else if n.counterOverflow {
      assert r.group in n.groups && BytesOf(next, r.group) > MAX_UINT64;
    } else if source :| source in n.groups && BytesOf(next, source) > MAX_UINT64 {
      WholeSnoc(rows, r, source);
    }
  }

  lemma AddRowRestriction(m: Merged, rows: seq<Row>, r: Row, capacity: nat)
    requires IsRestriction(m, rows, capacity)
    ensures IsRestriction(AddRow(m, r, capacity), rows + [r], capacity)
  {
    if r.group !in m.groups && |m.groups| >= capacity {
      DroppedRow(m, rows, r, capacity);
    } else {
      KeptRow(m, rows, r, capacity);
    }
  }

  lemma {:induction false} MergeIsRestriction(rows: seq<Row>, capacity: nat)
    requires 1 <= capacity
    ensures IsRestriction(Merge(rows, capacity), rows, capacity)
  {
    if rows != [] {
      var front, last := rows[..|rows| - 1], rows[|rows| - 1];
      assert rows == front + [last];
      MergeIsRestriction(front, capacity);
      AddRowRestriction(Merge(front, capacity), front, last, capacity);
    }
  }

  /** These are the sources of some first rows. */
  ghost predicate AreFirst(sources: set<string>, rows: seq<Row>) {
    exists n: nat :: n <= |rows| && sources == SourcesOf(rows[..n])
  }

  lemma AddRowKeys(m: Merged, r: Row, capacity: nat)
    ensures AddRow(m, r, capacity).groups.Keys ==
            m.groups.Keys + if r.group !in m.groups && |m.groups| >= capacity then {} else {r.group}
  {
  }

  lemma StillFirst(sources: set<string>, rows: seq<Row>, r: Row)
    requires AreFirst(sources, rows)
    ensures AreFirst(sources, rows + [r])
  {
    var n: nat :| n <= |rows| && sources == SourcesOf(rows[..n]);
    assert (rows + [r])[..n] == rows[..n];
  }

  lemma AllAreFirst(rows: seq<Row>)
    ensures AreFirst(SourcesOf(rows), rows)
  {
    assert rows[..|rows|] == rows;
  }

  lemma KeptFirstNext(m: Merged, rows: seq<Row>, r: Row, capacity: nat)
    requires IsRestriction(m, rows, capacity) && AreFirst(m.groups.Keys, rows)
    ensures AreFirst(AddRow(m, r, capacity).groups.Keys, rows + [r])
  {
    AddRowKeys(m, r, capacity);
    if r.group in m.groups || |m.groups| >= capacity {
      StillFirst(m.groups.Keys, rows, r);
      assert AddRow(m, r, capacity).groups.Keys == m.groups.Keys;
    } else {
      assert SourcesOf(rows + [r]) == SourcesOf(rows) + {r.group} by {
        SnocFacts(rows, r);
      }
      AllAreFirst(rows + [r]);
    }
  }

  /** A full table keeps the sources that appeared first. */
  lemma {:induction false} FirstSourcesKept(rows: seq<Row>, capacity: nat)
    requires 1 <= capacity
    ensures AreFirst(Merge(rows, capacity).groups.Keys, rows)
  {
    if rows == [] {
      AllAreFirst(rows);
    } else {
      var front, last := rows[..|rows| - 1], rows[|rows| - 1];
      assert rows == front + [last];
      FirstSourcesKept(front, capacity);
      MergeIsRestriction(front, capacity);
      KeptFirstNext(Merge(front, capacity), front, last, capacity);
    }
  }

  // ----- What the aggregation means -----

  lemma MoreGroupsMoreSlices(few: map<string, Group>, many: map<string, Group>, p: Policy)
    requires forall g :: g in few ==> g in many && many[g] == few[g]
    ensures forall j :: 0 <= j < SLICES ==> SliceCounts(few, p)[j] <= SliceCounts(many, p)[j]
  {
    forall j | 0 <= j < SLICES
      ensures SliceCounts(few, p)[j] <= SliceCounts(many, p)[j]
    {
      SubsetSize(ActiveIn(few, j, p), ActiveIn(many, j, p));
    }
  }

  /** The reference in terms of the rows: slice `j` counts the sources with enough bytes and enough
      slices over all their rows that were active in it. */
  lemma CountsFromRows(rows: seq<Row>, p: Policy, j: nat)
    requires j < 12 && p.minimumBytes <= MAX_UINT64
    ensures SliceCounts(AllGroups(rows), p)[j] == |BusyIn(rows, j, p)|
  {
    assert ActiveIn(AllGroups(rows), j, p) == BusyIn(rows, j, p);
  }

  function BusyIn(rows: seq<Row>, j: nat, p: Policy): set<string> {
    set source | source in SourcesOf(rows) && p.minimumBytes <= BytesOf(rows, source)
                 && p.minimumSlices <= |SlicesOf(rows, source)| && j in SlicesOf(rows, source)
  }

  /** When the distinct sources fit the capacity, nothing is dropped: the lower bound is the third
      largest slice count over all sources, each merged over all its rows. */
  lemma ExactWithinCapacity(rows: seq<Row>, complete: bool, p: Policy, out: Aggregation)
    requires ValidPolicy(p) && |SourcesOf(rows)| <= p.sourceCapacity
    requires IsAggregation(out, Merge(rows, p.sourceCapacity), complete, p)
    ensures Merge(rows, p.sourceCapacity).groups == AllGroups(rows) && !out.overflow
    ensures IsThirdLargest(out.sources.lower, SliceCounts(AllGroups(rows), p))
    ensures out.counterOverflow <==> exists source :: source in SourcesOf(rows) && BytesOf(rows, source) > MAX_UINT64
  {
    var m := Merge(rows, p.sourceCapacity);
    MergeIsRestriction(rows, p.sourceCapacity);
    if m.overflow {
      ProperSubsetSize(m.groups.Keys, SourcesOf(rows));
    }
    assert m.groups.Keys == SourcesOf(rows);
    assert m.groups == AllGroups(rows);
  }

  /** Overflow only loses sources: the lower bound never exceeds the uncapped value. */
  lemma LowerBoundSound(rows: seq<Row>, complete: bool, p: Policy, out: Aggregation, whole: int)
    requires ValidPolicy(p) && IsAggregation(out, Merge(rows, p.sourceCapacity), complete, p)
    requires IsThirdLargest(whole, SliceCounts(AllGroups(rows), p))
    ensures out.sources.lower <= whole
  {
    var m := Merge(rows, p.sourceCapacity);
    MergeIsRestriction(rows, p.sourceCapacity);
    MoreGroupsMoreSlices(m.groups, AllGroups(rows), p);
    ThirdLargestMonotone(out.sources.lower, SliceCounts(m.groups, p), whole, SliceCounts(AllGroups(rows), p));
  }

  /** The upper bound is at least the uncapped value, or saturates the activity scale; and when the
      rows themselves are incomplete it saturates whatever the missing ones hold. */
  lemma UpperBoundSound(rows: seq<Row>, complete: bool, p: Policy, out: Aggregation, whole: int)
    requires ValidPolicy(p) && IsAggregation(out, Merge(rows, p.sourceCapacity), complete, p)
    requires IsThirdLargest(whole, SliceCounts(AllGroups(rows), p))
    ensures out.sources.upper >= whole || out.sources.upper >= p.activitySources.full
    ensures !complete ==> out.sources.upper >= p.activitySources.full
  {
    var m := Merge(rows, p.sourceCapacity);
    MergeIsRestriction(rows, p.sourceCapacity);
    if complete && !m.overflow && !m.counterOverflow {
      assert m.groups == AllGroups(rows);
      var counts := SliceCounts(m.groups, p);
      ThirdLargestMonotone(whole, counts, out.sources.lower, counts);
    }
  }

  /** Each count is reached, or saturates the scale. */
  predicate CoversUpTo(ns: seq<int>, ms: seq<int>, full: int) {
    |ns| == |ms| && forall i :: 0 <= i < |ns| ==> ms[i] >= ns[i] || ms[i] >= full
  }

  /** The covering counts, raised to the covered ones where those exceed the scale. */
  function Raised(ns: seq<int>, ms: seq<int>): (rs: seq<int>)
    requires |ns| == |ms|
    ensures |rs| == |ns| && forall i :: 0 <= i < |ns| ==> rs[i] >= ns[i]
  {
    seq(|ns|, i requires 0 <= i < |ns| => if ms[i] >= ns[i] then ms[i] else ns[i])
  }

  lemma {:induction false} RaisedCounts(ns: seq<int>, ms: seq<int>, full: int, k: int)
    requires CoversUpTo(ns, ms, full) && k <= full
    ensures CountAtLeast(Raised(ns, ms), k) == CountAtLeast(ms, k)
  {
    if ns != [] {
      var n := |ns| - 1;
      RaisedCounts(ns[..n], ms[..n], full, k);
      assert Raised(ns, ms)[..n] == Raised(ns[..n], ms[..n]);
    }
  }

  lemma {:induction false} PeakSame(v: int -> real, w: int -> real, start: int, k: int)
    requires forall j :: start < j <= k ==> v(j) == w(j)
    ensures Peak(v, start, k) == Peak(w, start, k)
    decreases k - start
  {
    if start < k {
      PeakSame(v, w, start, k - 1);
    }
  }

  /** So the activity of the reported upper counts is never below that of the uncapped counts. */
  lemma UpperActivitySound(ns: seq<int>, ms: seq<int>, p: Policy)
    requires CoversUpTo(ns, ms, p.activitySources.full)
    ensures ActivityValue(ns, p) <= ActivityValue(ms, p)
  {
    var rs := Raised(ns, ms);
    ActivityMonotone(ns, p, rs, p);
    forall j | p.activitySources.start < j <= p.activitySources.full
      ensures Sweep(rs, p)(j) == Sweep(ms, p)(j)
    {
      RaisedCounts(ns, ms, p.activitySources.full, j);
    }
    PeakSame(Sweep(rs, p), Sweep(ms, p), p.activitySources.start, p.activitySources.full);
  }

  /** The two together, over the minutes of a window. */
  lemma WindowUpperSound(minutes: seq<seq<Row>>, completes: seq<bool>, outs: seq<Aggregation>, wholes: seq<int>, p: Policy)
    requires ValidPolicy(p) && |minutes| == |completes| == |outs| == |wholes|
    requires forall i :: 0 <= i < |minutes| ==> IsAggregation(outs[i], Merge(minutes[i], p.sourceCapacity), completes[i], p)
    requires forall i :: 0 <= i < |minutes| ==> IsThirdLargest(wholes[i], SliceCounts(AllGroups(minutes[i]), p))
    ensures ActivityValue(wholes, p) <= ActivityValue(seq(|outs|, i requires 0 <= i < |outs| => outs[i].sources.upper), p)
  {
    var uppers := seq(|outs|, i requires 0 <= i < |outs| => outs[i].sources.upper);
    forall i | 0 <= i < |wholes|
      ensures uppers[i] >= wholes[i] || uppers[i] >= p.activitySources.full
    {
      UpperBoundSound(minutes[i], completes[i], p, outs[i], wholes[i]);
    }
    UpperActivitySound(wholes, uppers, p);
  }

  lemma {:induction false} CountBounded(ns: seq<int>, k: int)
    requires CountAtLeast(ns, k) > 0
    ensures exists i :: 0 <= i < |ns| && ns[i] >= k
  {
    if ns != [] && ns[|ns| - 1] < k {
      CountBounded(ns[..|ns| - 1], k);
    }
  }

  /** Whatever the rows, the range passes the bounds that evaluation checks. */
  lemma RangeIsEvaluable(rows: seq<Row>, complete: bool, p: Policy, out: Aggregation)
    requires ValidPolicy(p) && IsAggregation(out, Merge(rows, p.sourceCapacity), complete, p)
    ensures 0 <= out.sources.lower <= out.sources.upper <= p.sourceCapacity
  {
    var groups := Merge(rows, p.sourceCapacity).groups;
    var counts := SliceCounts(groups, p);
    MergeIsRestriction(rows, p.sourceCapacity);
    if out.sources.lower < 0 {
      CountAll(counts, out.sources.lower + 1);
    }
    CountBounded(counts, out.sources.lower);
    var j :| 0 <= j < |counts| && counts[j] >= out.sources.lower;
    SubsetSize(ActiveIn(groups, j, p), groups.Keys);
  }

  // ----- Row order -----

  lemma {:induction false} BytesRemove(a: seq<Row>, r: Row, b: seq<Row>, source: string)
    ensures BytesOf(a + [r] + b, source) == BytesOf(a + b, source) + if r.group == source then r.bytes else 0
  {
    if b == [] {
      assert a + [r] + b == a + [r] && a + b == a;
      SnocFacts(a, r);
    } else {
      var front, last := b[..|b| - 1], b[|b| - 1];
      assert a + [r] + b == (a + [r] + front) + [last] && a + b == (a + front) + [last];
      SnocFacts(a + [r] + front, last);
      SnocFacts(a + front, last);
      BytesRemove(a, r, front, source);
    }
  }

  lemma EmptyPermutation(other: seq<Row>)
    requires multiset(other) == multiset{}
    ensures other == []
  {
    assert |other| == |multiset(other)| == 0;
  }

  /** Where the last row of `rows` stands in `other`, and what is left of `other` without it. */
  lemma LastElsewhere(rows: seq<Row>, other: seq<Row>) returns (k: nat)
    requires rows != [] && multiset(rows) == multiset(other)
    ensures k < |other| && other[k] == rows[|rows| - 1]
    ensures multiset(rows[..|rows| - 1]) == multiset(other[..k] + other[k + 1..])
  {
    var n := |rows| - 1;
    RemoveAt(rows, n);
    assert rows[..n] + rows[n + 1..] == rows[..n];
    assert rows[n] in multiset(other);
    k :| 0 <= k < |other| && other[k] == rows[n];
    RemoveAt(other, k);
  }

  lemma {:induction false} BytesPermutation(rows: seq<Row>, other: seq<Row>, source: string)
    requires multiset(rows) == multiset(other)
    ensures BytesOf(rows, source) == BytesOf(other, source)
  {
    if rows == [] {
      EmptyPermutation(other);
    } else {
      var n := |rows| - 1;
      var k := LastElsewhere(rows, other);
      assert other == other[..k] + [other[k]] + other[k + 1..];
      BytesRemove(other[..k], other[k], other[k + 1..], source);
      BytesPermutation(rows[..n], other[..k] + other[k + 1..], source);
      assert rows == rows[..n] + [rows[n]];
      SnocFacts(rows[..n], rows[n]);
    }
  }

  lemma SourcesPermutation(rows: seq<Row>, other: seq<Row>)
    requires multiset(rows) == multiset(other)
    ensures AllGroups(rows) == AllGroups(other) && SourcesOf(rows) == SourcesOf(other)
  {
    assert forall r :: r in rows <==> r in multiset(rows);
    assert forall r :: r in other <==> r in multiset(other);
    assert forall r :: r in rows <==> r in other;
    assert SourcesOf(rows) == SourcesOf(other);
    forall source | source in SourcesOf(rows)
      ensures WholeGroup(rows, source) == WholeGroup(other, source)
    {
      assert SlicesOf(rows, source) == SlicesOf(other, source);
      BytesPermutation(rows, other, source);
    }
  }

  /** Rows in another order give the same aggregation when the distinct sources fit the capacity. */
  lemma OrderIndependent(rows: seq<Row>, other: seq<Row>, complete: bool, p: Policy, out: Aggregation, out': Aggregation)
    requires ValidPolicy(p) && |SourcesOf(rows)| <= p.sourceCapacity && multiset(rows) == multiset(other)
    requires IsAggregation(out, Merge(rows, p.sourceCapacity), complete, p)
    requires IsAggregation(out', Merge(other, p.sourceCapacity), complete, p)
    ensures out == out'
  {
    SourcesPermutation(rows, other);
    ExactWithinCapacity(rows, complete, p, out);
    ExactWithinCapacity(other, complete, p, out');
    forall source
      ensures BytesOf(rows, source) == BytesOf(other, source)
    {
      BytesPermutation(rows, other, source);
    }
    var counts := SliceCounts(AllGroups(rows), p);
    ThirdLargestMonotone(out.sources.lower, counts, out'.sources.lower, counts);
    ThirdLargestMonotone(out'.sources.lower, counts, out.sources.lower, counts);
  }
}
