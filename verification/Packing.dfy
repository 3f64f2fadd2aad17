/** Packing of stage outputs into synthesis jobs (internal/auditreview/service.go).

    `size` is the length of the marshalled job holding a list of parts; the packing itself
    never looks inside a part. */
module Packing {

  const MAX_JOB_BYTES: nat := 64 * 1024

  function Flatten<T>(jobs: seq<seq<T>>): seq<T> {
    if jobs == [] then [] else Flatten(jobs[..|jobs| - 1]) + jobs[|jobs| - 1]
  }

  predicate Fits<T>(job: seq<T>, size: seq<T> -> nat) {
    |job| >= 2 ==> size(job) <= MAX_JOB_BYTES
  }

  /** A contiguous partition of `parts` whose multi-part jobs fit the limit. */
  predicate IsPacking<T(==)>(jobs: seq<seq<T>>, parts: seq<T>, size: seq<T> -> nat) {
    && Flatten(jobs) == parts
    && forall k :: 0 <= k < |jobs| ==> jobs[k] != [] && Fits(jobs[k], size)
  }

  /** No job could have taken the first part of the next one. */
  predicate IsMaximal<T>(jobs: seq<seq<T>>, size: seq<T> -> nat)
    requires forall k :: 0 <= k < |jobs| ==> jobs[k] != []
  {
    forall k :: 0 <= k < |jobs| - 1 ==> size(jobs[k] + [jobs[k + 1][0]]) > MAX_JOB_BYTES
  }

  /** A job is never smaller than a contiguous run of its parts. */
  ghost predicate Monotone<T(!new)>(size: seq<T> -> nat) {
    forall job: seq<T>, i: int, j: int :: 0 <= i <= j <= |job| ==> size(job[i..j]) <= size(job)
  }

  lemma FlattenSnoc<T>(jobs: seq<seq<T>>, job: seq<T>)
    ensures Flatten(jobs + [job]) == Flatten(jobs) + job
  {
    assert (jobs + [job])[..|jobs|] == jobs;
  }

  ghost predicate IsGreedy<T>(jobs: seq<seq<T>>, parts: seq<T>, size: seq<T> -> nat) {
    IsPacking(jobs, parts, size) && IsMaximal(jobs, size)
  }

  lemma OpenKeepsMaximal<T>(jobs: seq<seq<T>>, x: T, size: seq<T> -> nat)
    requires forall k :: 0 <= k < |jobs| ==> jobs[k] != []
    requires IsMaximal(jobs, size) && (jobs != [] ==> size(jobs[|jobs| - 1] + [x]) > MAX_JOB_BYTES)
    ensures IsMaximal(jobs + [[x]], size)
  {
    var after := jobs + [[x]];
    forall k | 0 <= k < |after| - 1
      ensures size(after[k] + [after[k + 1][0]]) > MAX_JOB_BYTES
    {
      assert after[k] == jobs[k];
    }
  }

  lemma OpenJob<T>(jobs: seq<seq<T>>, parts: seq<T>, x: T, size: seq<T> -> nat)
    requires IsGreedy(jobs, parts, size)
    requires jobs != [] ==> size(jobs[|jobs| - 1] + [x]) > MAX_JOB_BYTES
    ensures IsGreedy(jobs + [[x]], parts + [x], size)
  {
    FlattenSnoc(jobs, [x]);
    OpenKeepsMaximal(jobs, x, size);
  }

  lemma GrowKeepsMaximal<T>(done: seq<seq<T>>, job: seq<T>, x: T, size: seq<T> -> nat)
    requires job != [] && forall k :: 0 <= k < |done| ==> done[k] != []
    requires IsMaximal(done + [job], size)
    ensures IsMaximal(done + [job + [x]], size)
  {
    var before, after := done + [job], done + [job + [x]];
    forall k | 0 <= k < |after| - 1
      ensures size(after[k] + [after[k + 1][0]]) > MAX_JOB_BYTES
    {
      assert after[k] == before[k] && after[k + 1][0] == before[k + 1][0];
    }
  }

  lemma GrowKeepsPacking<T>(done: seq<seq<T>>, job: seq<T>, parts: seq<T>, x: T, size: seq<T> -> nat)
    requires IsPacking(done + [job], parts, size) && size(job + [x]) <= MAX_JOB_BYTES
    ensures IsPacking(done + [job + [x]], parts + [x], size)
    ensures forall k :: 0 <= k < |done| ==> done[k] != []
  {
    FlattenSnoc(done, job);
    FlattenSnoc(done, job + [x]);
    var before, after := done + [job], done + [job + [x]];
    assert forall k :: 0 <= k < |done| ==> before[k] == done[k] && after[k] == done[k];
  }

  lemma GrowJob<T>(done: seq<seq<T>>, job: seq<T>, parts: seq<T>, x: T, size: seq<T> -> nat)
    requires IsGreedy(done + [job], parts, size) && job != [] && size(job + [x]) <= MAX_JOB_BYTES
    ensures IsGreedy(done + [job + [x]], parts + [x], size)
  {
    GrowKeepsPacking(done, job, parts, x, size);
    GrowKeepsMaximal(done, job, x, size);
  }

  /** Finished jobs and the open one after packing `outputs`. */
  function Pack<T>(outputs: seq<T>, size: seq<T> -> nat): (seq<seq<T>>, seq<T>) {
    if outputs == [] then ([], [])
    else
      var (inputs, partials) := Pack(outputs[..|outputs| - 1], size);
      var output := outputs[|outputs| - 1];
      if size(partials + [output]) > MAX_JOB_BYTES && |partials| > 0 then (inputs + [partials], [output])
      else (inputs, partials + [output])
  }

  lemma {:induction false} PackIsGreedy<T>(outputs: seq<T>, size: seq<T> -> nat)
    ensures var (inputs, partials) := Pack(outputs, size);
            if outputs == [] then inputs == [] && partials == []
            else partials != [] && IsGreedy(inputs + [partials], outputs, size)
  {
    if outputs != [] {
      var front, output := outputs[..|outputs| - 1], outputs[|outputs| - 1];
      assert outputs == front + [output];
      PackIsGreedy(front, size);
      var (inputs, partials) := Pack(front, size);
      if front == [] {
        OpenJob([], front, output, size);
      } else if size(partials + [output]) > MAX_JOB_BYTES {
        OpenJob(inputs + [partials], front, output, size);
      } else {
        GrowJob(inputs, partials, front, output, size);
      }
    }
  }

  method SynthesisInputs<T(==)>(outputs: seq<T>, size: seq<T> -> nat) returns (inputs: seq<seq<T>>)
    ensures IsPacking(inputs, outputs, size) && IsMaximal(inputs, size)
  {
    inputs := [];
    var partials: seq<T> := [];
    for i := 0 to |outputs|
      invariant (inputs, partials) == Pack(outputs[..i], size)
    {
      assert outputs[..i + 1][..i] == outputs[..i];
      var candidate := partials + [outputs[i]];
      if size(candidate) > MAX_JOB_BYTES && |partials| > 0 {
        inputs := inputs + [partials];
        partials := [];
      }
      assert [] + [outputs[i]] == [outputs[i]];
      partials := partials + [outputs[i]];
    }
    assert outputs[..|outputs|] == outputs;
    PackIsGreedy(outputs, size);
    if |partials| > 0 {
      inputs := inputs + [partials];
    }
  }

  // ----- Fewest jobs -----

  /** How many parts the first `k` jobs hold. */
  function Cover<T>(jobs: seq<seq<T>>, k: nat): nat
    requires k <= |jobs|
  {
    |Flatten(jobs[..k])|
  }

  lemma {:induction false} JobIsSlice<T>(jobs: seq<seq<T>>, parts: seq<T>, k: nat)
    requires Flatten(jobs) == parts && k < |jobs|
    ensures Cover(jobs, k + 1) == Cover(jobs, k) + |jobs[k]|
    ensures Cover(jobs, k + 1) <= |parts| && jobs[k] == parts[Cover(jobs, k)..Cover(jobs, k + 1)]
    decreases |jobs|
  {
    var front, last := jobs[..|jobs| - 1], jobs[|jobs| - 1];
    assert jobs[..k + 1] == jobs[..k] + [jobs[k]];
    FlattenSnoc(jobs[..k], jobs[k]);
    if k == |jobs| - 1 {
      assert jobs[..k + 1] == jobs;
    } else {
      JobIsSlice(front, Flatten(front), k);
      assert front[..k] == jobs[..k] && front[..k + 1] == jobs[..k + 1];
    }
  }

  lemma SliceOfSlice<T>(s: seq<T>, lo: nat, a: nat, b: nat, hi: nat)
    requires lo <= a <= b <= hi <= |s|
    ensures s[lo..hi][a - lo..b - lo] == s[a..b]
  {
    var left, right := s[lo..hi][a - lo..b - lo], s[a..b];
    assert |left| == |right|;
    assert forall i :: 0 <= i < |left| ==> left[i] == right[i];
  }

  lemma SliceSnoc<T>(s: seq<T>, a: nat, b: nat)
    requires a <= b < |s|
    ensures s[a..b] + [s[b]] == s[a..b + 1]
  {
  }

  lemma SubrunSmaller<T(!new)>(parts: seq<T>, size: seq<T> -> nat, lo: nat, a: nat, b: nat, hi: nat)
    requires Monotone(size) && lo <= a <= b <= hi <= |parts|
    ensures size(parts[a..b]) <= size(parts[lo..hi])
  {
    SliceOfSlice(parts, lo, a, b, hi);
  }

  lemma ExtendedJobIsSlice<T>(jobs: seq<seq<T>>, parts: seq<T>, k: nat)
    requires Flatten(jobs) == parts && k + 1 < |jobs| && jobs[k + 1] != []
    ensures Cover(jobs, k) <= Cover(jobs, k + 1) < |parts|
    ensures jobs[k] + [jobs[k + 1][0]] == parts[Cover(jobs, k)..Cover(jobs, k + 1) + 1]
  {
    JobIsSlice(jobs, parts, k);
    JobIsSlice(jobs, parts, k + 1);
    var a, b := Cover(jobs, k), Cover(jobs, k + 1);
    assert jobs[k + 1][0] == parts[b];
    SliceSnoc(parts, a, b);
  }

  /** A packing that is behind before a job cannot overtake within it. */
  lemma CannotOvertake<T(!new)>(jobs: seq<seq<T>>, other: seq<seq<T>>, parts: seq<T>, size: seq<T> -> nat, k: nat)
    requires Monotone(size) && IsGreedy(jobs, parts, size) && IsPacking(other, parts, size)
    requires k + 1 < |jobs| && k < |other| && Cover(jobs, k) >= Cover(other, k)
    ensures Cover(jobs, k + 1) >= Cover(other, k + 1)
  {
    ExtendedJobIsSlice(jobs, parts, k);
    JobIsSlice(other, parts, k);
    var b, hi := Cover(jobs, k + 1), Cover(other, k + 1);
    if b < hi {
      SubrunSmaller(parts, size, Cover(other, k), Cover(jobs, k), b + 1, hi);
    }
  }

  /** Greedy stays ahead: its first `k` jobs hold at least as much as those of any packing. */
  lemma {:induction false} StaysAhead<T(!new)>(jobs: seq<seq<T>>, other: seq<seq<T>>, parts: seq<T>, size: seq<T> -> nat, k: nat)
    requires Monotone(size) && IsGreedy(jobs, parts, size) && IsPacking(other, parts, size)
    requires k < |jobs| && k <= |other|
    ensures Cover(jobs, k) >= Cover(other, k)
  {
    if k > 0 {
      StaysAhead(jobs, other, parts, size, k - 1);
      CannotOvertake(jobs, other, parts, size, k - 1);
    }
  }

  /** No contiguous partition whose multi-part jobs fit uses fewer jobs. */
  lemma GreedyIsMinimal<T(!new)>(jobs: seq<seq<T>>, other: seq<seq<T>>, parts: seq<T>, size: seq<T> -> nat)
    requires Monotone(size) && IsPacking(jobs, parts, size) && IsMaximal(jobs, size) && IsPacking(other, parts, size)
    ensures |jobs| <= |other|
  {
    if |other| < |jobs| {
      StaysAhead(jobs, other, parts, size, |other|);
      assert other[..|other|] == other;
      JobIsSlice(jobs, parts, |other|);
    }
  }

  // ----- Progress of a synthesis stage -----

  function Singletons<T>(parts: seq<T>): seq<seq<T>> {
    seq(|parts|, i requires 0 <= i < |parts| => [parts[i]])
  }

  lemma {:induction false} SingletonsFlatten<T>(parts: seq<T>)
    ensures Flatten(Singletons(parts)) == parts
  {
    if parts != [] {
      var front := parts[..|parts| - 1];
      SingletonsFlatten(front);
      assert Singletons(parts)[..|parts| - 1] == Singletons(front);
      assert parts == front + [parts[|parts| - 1]];
    }
  }

  /** One pair joined, everything else alone. */
  function Paired<T>(parts: seq<T>, i: nat): seq<seq<T>>
    requires i + 1 < |parts|
  {
    Singletons(parts[..i]) + [parts[i..i + 2]] + Singletons(parts[i + 2..])
  }

  lemma {:induction false} FlattenConcat<T>(a: seq<seq<T>>, b: seq<seq<T>>)
    ensures Flatten(a + b) == Flatten(a) + Flatten(b)
  {
    if b == [] {
      assert a + b == a;
    } else {
      var front, last := b[..|b| - 1], b[|b| - 1];
      FlattenConcat(a, front);
      assert a + b == (a + front) + [last];
      FlattenSnoc(a + front, last);
      FlattenSnoc(front, last);
      assert b == front + [last];
      assert Flatten(a) + Flatten(front) + last == Flatten(a) + (Flatten(front) + last);
    }
  }

  lemma PairedIsPacking<T>(parts: seq<T>, i: nat, size: seq<T> -> nat)
    requires i + 1 < |parts| && size(parts[i..i + 2]) <= MAX_JOB_BYTES
    ensures IsPacking(Paired(parts, i), parts, size) && |Paired(parts, i)| == |parts| - 1
  {
    var a, m, b := Singletons(parts[..i]), [parts[i..i + 2]], Singletons(parts[i + 2..]);
    SingletonsFlatten(parts[..i]);
    SingletonsFlatten(parts[i + 2..]);
    FlattenConcat(a + m, b);
    FlattenSnoc(a, parts[i..i + 2]);
    assert parts == parts[..i] + parts[i..i + 2] + parts[i + 2..];
  }

  lemma {:induction false} AtLeastOnePart<T>(jobs: seq<seq<T>>)
    requires forall k :: 0 <= k < |jobs| ==> jobs[k] != []
    ensures |Flatten(jobs)| >= |jobs|
    ensures |Flatten(jobs)| > |jobs| ==> exists k :: 0 <= k < |jobs| && |jobs[k]| >= 2
  {
    if jobs != [] {
      var front := jobs[..|jobs| - 1];
      AtLeastOnePart(front);
      if |Flatten(front)| > |front| {
        var k :| 0 <= k < |front| && |front[k]| >= 2;
        assert |jobs[k]| >= 2;
      } else if |Flatten(jobs)| > |jobs| {
        assert |jobs[|jobs| - 1]| >= 2;
      }
    }
  }

  predicate PairFits<T>(parts: seq<T>, i: int, size: seq<T> -> nat) {
    0 <= i && i + 1 < |parts| && size(parts[i..i + 2]) <= MAX_JOB_BYTES
  }

  /** A stage has fewer jobs than outputs exactly when some two adjacent outputs fit together. */
  lemma StageShrinksIffPairFits<T(!new)>(jobs: seq<seq<T>>, parts: seq<T>, size: seq<T> -> nat)
    requires Monotone(size) && IsPacking(jobs, parts, size) && IsMaximal(jobs, size)
    ensures |jobs| <= |parts|
    ensures |jobs| < |parts| <==> exists i :: PairFits(parts, i, size)
  {
    AtLeastOnePart(jobs);
    if |jobs| < |parts| {
      var k :| 0 <= k < |jobs| && |jobs[k]| >= 2;
      JobIsSlice(jobs, parts, k);
      var lo, hi := Cover(jobs, k), Cover(jobs, k + 1);
      SubrunSmaller(parts, size, lo, lo, lo + 2, hi);
      assert PairFits(parts, lo, size);
    }
    if i :| PairFits(parts, i, size) {
      PairedIsPacking(parts, i, size);
      GreedyIsMinimal(jobs, Paired(parts, i), parts, size);
    }
  }

  // ----- The marshalled size -----

  /** Length of a job: a fixed envelope, the parts, and a comma between neighbours. */
  function JobBytes(envelope: nat, parts: seq<string>): nat {
    envelope + TotalBytes(parts) + if parts == [] then 0 else |parts| - 1
  }

  function TotalBytes(parts: seq<string>): nat {
    if parts == [] then 0 else TotalBytes(parts[..|parts| - 1]) + |parts[|parts| - 1]|
  }

  function Commas(parts: seq<string>): string {
    if parts == [] then "" else if |parts| == 1 then parts[0]
    else Commas(parts[..|parts| - 1]) + "," + parts[|parts| - 1]
  }

  /** The counted size is that of the text itself. */
  lemma {:induction false} JobBytesIsLength(before: string, parts: seq<string>, after: string)
    ensures JobBytes(|before| + |after|, parts) == |before + Commas(parts) + after|
  {
    if |parts| == 1 {
      assert TotalBytes(parts[..0]) == 0;
    } else if |parts| > 1 {
      JobBytesIsLength(before, parts[..|parts| - 1], after);
    }
  }

  lemma {:induction false} TotalConcat(a: seq<string>, b: seq<string>)
    ensures TotalBytes(a + b) == TotalBytes(a) + TotalBytes(b)
  {
    if b == [] {
      assert a + b == a;
    } else {
      TotalConcat(a, b[..|b| - 1]);
      assert (a + b)[..|a + b| - 1] == a + b[..|b| - 1];
    }
  }

  lemma JobBytesMonotone(envelope: nat)
    ensures Monotone((parts: seq<string>) => JobBytes(envelope, parts))
  {
    forall job: seq<string>, i: int, j: int | 0 <= i <= j <= |job|
      ensures JobBytes(envelope, job[i..j]) <= JobBytes(envelope, job)
    {
      assert job == job[..i] + job[i..j] + job[j..];
      TotalConcat(job[..i] + job[i..j], job[j..]);
      TotalConcat(job[..i], job[i..j]);
    }
  }
}
