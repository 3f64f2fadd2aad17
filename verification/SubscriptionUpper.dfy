/** The upper candidate bound against the full log: it must not miss a source that the log shows new
    and repeated. That holds in every run exactly for policies whose candidate lifetime is within the
    history horizon. */
module SubscriptionUpper {

  import opened Common
  import opened Subscription
  import opened SubscriptionLog

  // ----- What the log shows -----

  /** A request that is an update of its source, whether or not there was room to record it. */
  predicate IsUpdate(e: Event, source: string) {
    Requested(e, source) && (e.r.logical || e.r.reason.UpdateCapacity?)
  }

  /** Event `f` is an update of a source that made no request in the history before it. */
  predicate IsFirst(epoch: seq<Event>, f: nat, p: Policy) {
    && f < |epoch| && IsUpdate(epoch[f], epoch[f].o.source)
    && forall i :: 0 <= i < f && Requested(epoch[i], epoch[f].o.source) ==> epoch[i].o.at <= epoch[f].o.at - p.history
  }

  /** Event `g` repeats the update of event `f` in time. */
  predicate RepeatsFirst(epoch: seq<Event>, f: nat, g: nat, p: Policy)
    requires f < |epoch|
  {
    && g < |epoch| && IsUpdate(epoch[g], epoch[f].o.source)
    && p.repeatInterval <= epoch[g].o.at - epoch[f].o.at < p.candidateLifetime
  }

  predicate ShowsCandidate(epoch: seq<Event>, f: nat, g: nat, at: Instant, p: Policy) {
    IsFirst(epoch, f, p) && RepeatsFirst(epoch, f, g, p) && at - epoch[f].o.at < p.candidateLifetime
  }

  /** The upper bound is reported as the source capacity. */
  predicate Saturated(s: State, at: Instant) {
    s.capacityLimited && at < s.historyUnknownUntil
  }

  /** Every source the log shows new and repeated is counted, or the bound is saturated. */
  ghost predicate CoversCandidates(s: State, epoch: seq<Event>, at: Instant, p: Policy) {
    forall f: nat, g: nat :: ShowsCandidate(epoch, f, g, at, p) ==>
      Saturated(s, at) || epoch[f].o.source in Candidates(s.seen, at, p, {Novel, NoveltyUnknown})
  }

  ghost predicate AlwaysCovers(p: Policy) {
    forall obs: seq<Observation>, at: Instant :: Run(obs, p).0.asOf <= at ==>
      CoversCandidates(Run(obs, p).0, CurrentEpoch(Run(obs, p).1), at, p)
  }

  // ----- Invariant -----

  predicate SeenAt(epoch: seq<Event>, source: string, at: Instant) {
    exists i :: 0 <= i < |epoch| && Requested(epoch[i], source) && epoch[i].o.at == at
  }

  /** Every entry was last seen at a logged request. */
  ghost predicate Logged(s: State, epoch: seq<Event>) {
    forall source :: source in s.seen ==>
      s.seen[source].firstSeen <= s.seen[source].lastSeen && SeenAt(epoch, source, s.seen[source].lastSeen)
  }

  predicate LostSince(epoch: seq<Event>, at: Instant) {
    exists i :: 0 <= i < |epoch| && IsCapacityEvent(epoch[i]) && epoch[i].o.at >= at
  }

  predicate IsRepeated(epoch: seq<Event>, f: nat, p: Policy)
    requires f < |epoch|
  {
    exists g: nat :: g < |epoch| && RepeatsFirst(epoch, f, g, p)
  }

  /** The entry opened by event `f` stands, and knows of its repetition if there was one. */
  predicate EntryStands(seen: map<string, SeenSource>, epoch: seq<Event>, f: nat, p: Policy)
    requires f < |epoch|
  {
    var source := epoch[f].o.source;
    && source in seen && seen[source].firstSeen == epoch[f].o.at
    && seen[source].novelty in {Novel, NoveltyUnknown}
    && (IsRepeated(epoch, f, p) ==> seen[source].secondUpdate != ZERO)
  }

  ghost predicate Covered(s: State, epoch: seq<Event>, f: nat, p: Policy)
    requires f < |epoch|
  {
    s.asOf - epoch[f].o.at < p.candidateLifetime ==> LostSince(epoch, epoch[f].o.at) || EntryStands(s.seen, epoch, f, p)
  }

  ghost predicate AllCovered(s: State, epoch: seq<Event>, p: Policy) {
    forall f: nat :: IsFirst(epoch, f, p) ==> Covered(s, epoch, f, p)
  }

  // ----- One step -----

  /** What classifying a request does to the entry of `source`. */
  ghost predicate EntryMoves(e: State, o: Observation, p: Policy, s: State, r: UpdateResult, source: string) {
    var mine := Usable(o) && o.source == source;
    && (r.logical ==> Usable(o))
    && (source in e.seen ==> source in s.seen)
    && (source in e.seen && !(mine && r.logical) ==>
          s.seen[source] == e.seen[source].(lastSeen := s.seen[source].lastSeen)
          && (s.seen[source].lastSeen == e.seen[source].lastSeen || (mine && s.seen[source].lastSeen == o.at)))
    && (source in e.seen && mine && r.logical ==> s.seen[source] == Refreshed(e.seen[source], o.at, p))
    && (source !in e.seen && source in s.seen ==>
          mine && r.logical && !r.reason.SourceCapacity?
          && s.seen[source] == SeenSource(o.at, o.at, FirstNovelty(e, o, p), ZERO))
    && (source !in e.seen && mine && r.logical && !r.reason.SourceCapacity? ==> source in s.seen)
  }

  lemma ClassifyMoves(e: State, o: Observation, p: Policy, source: string)
    ensures var (s, r) := Classify(e, o, p); EntryMoves(e, o, p, s, r, source)
  {
  }

  lemma SeenAtSnoc(epoch: seq<Event>, last: Event, source: string, at: Instant)
    ensures SeenAt(epoch, source, at) ==> SeenAt(epoch + [last], source, at)
    ensures Requested(last, source) ==> SeenAt(epoch + [last], source, last.o.at)
  {
    var next := epoch + [last];
    assert next[|epoch|] == last && forall i :: 0 <= i < |epoch| ==> next[i] == epoch[i];
  }

  lemma LoggedNext(e: State, epoch: seq<Event>, o: Observation, p: Policy, s: State, r: UpdateResult, source: string)
    requires Logged(e, epoch) && EntryMoves(e, o, p, s, r, source) && source in s.seen
    requires forall i :: 0 <= i < |epoch| ==> epoch[i].o.at <= o.at
    ensures s.seen[source].firstSeen <= s.seen[source].lastSeen
    ensures SeenAt(epoch + [Event(o, r)], source, s.seen[source].lastSeen)
  {
    var last := Event(o, r);
    SeenAtSnoc(epoch, last, source, s.seen[source].lastSeen);
    if source in e.seen {
      SeenAtSnoc(epoch, last, source, e.seen[source].lastSeen);
      var i :| 0 <= i < |epoch| && Requested(epoch[i], source) && epoch[i].o.at == e.seen[source].lastSeen;
    }
  }

  lemma FirstInPrefix(epoch: seq<Event>, last: Event, f: nat, p: Policy)
    requires f < |epoch|
    ensures IsFirst(epoch + [last], f, p) <==> IsFirst(epoch, f, p)
    ensures LostSince(epoch, epoch[f].o.at) ==> LostSince(epoch + [last], epoch[f].o.at)
    ensures IsRepeated(epoch + [last], f, p) ==> IsRepeated(epoch, f, p) || RepeatsFirst(epoch + [last], f, |epoch|, p)
  {
    var next := epoch + [last];
    assert next[|epoch|] == last && forall i :: 0 <= i < |epoch| ==> next[i] == epoch[i];
    if IsRepeated(next, f, p) {
      var g: nat :| g < |next| && RepeatsFirst(next, f, g, p);
      if g < |epoch| {
        assert RepeatsFirst(epoch, f, g, p);
      }
    }
  }

  lemma LostNow(epoch: seq<Event>, last: Event, at: Instant)
    requires IsCapacityEvent(last) && last.o.at >= at
    ensures LostSince(epoch + [last], at)
  {
    assert (epoch + [last])[|epoch|] == last;
  }

  /** An earlier first update stays covered: its entry is too young to expire. */
  lemma EarlierStaysCovered(e: State, epoch: seq<Event>, o: Observation, p: Policy, s: State, r: UpdateResult, f: nat)
    requires f < |epoch| && EntryStands(e.seen, epoch, f, p) && EntryMoves(e, o, p, s, r, epoch[f].o.source)
    requires o.at - epoch[f].o.at < p.candidateLifetime && epoch[f].o.at <= o.at && o.at != ZERO
    ensures LostSince(epoch + [Event(o, r)], epoch[f].o.at) || EntryStands(s.seen, epoch + [Event(o, r)], f, p)
  {
    var last, source := Event(o, r), epoch[f].o.source;
    var next := epoch + [last];
    FirstInPrefix(epoch, last, f, p);
    assert next[f] == epoch[f] && next[|epoch|] == last;
    if IsCapacityEvent(last) {
      LostNow(epoch, last, epoch[f].o.at);
    }
  }

  /** A first update now opens an entry, or there was no room. */
  lemma LatestIsCovered(e: State, epoch: seq<Event>, o: Observation, p: Policy, s: State, r: UpdateResult)
    requires ValidPolicy(p) && Logged(e, epoch) && EntryMoves(e, o, p, s, r, o.source)
    requires forall source :: source in e.seen ==> e.seen[source].lastSeen > o.at - p.history
    requires forall i :: 0 <= i < |epoch| ==> epoch[i].o.at <= o.at
    requires IsFirst(epoch + [Event(o, r)], |epoch|, p)
    ensures LostSince(epoch + [Event(o, r)], o.at) || EntryStands(s.seen, epoch + [Event(o, r)], |epoch|, p)
  {
    var last := Event(o, r);
    var next := epoch + [last];
    assert next[|epoch|] == last && forall i :: 0 <= i < |epoch| ==> next[i] == epoch[i];
    if IsCapacityEvent(last) {
      LostNow(epoch, last, o.at);
    }
  }

  lemma EntryKept(b: State, e: State, epoch: seq<Event>, o: Observation, p: Policy, f: nat)
    requires f < |epoch| && EntryStands(b.seen, epoch, f, p) && Logged(b, epoch)
    requires e.seen == Prune(b.seen, o.at - p.history)
    requires o.at - epoch[f].o.at < p.candidateLifetime <= p.history
    ensures EntryStands(e.seen, epoch, f, p)
  {
  }

  /** The log before the request, and the state entered for it. */
  ghost predicate Entered(b: State, e: State, epoch: seq<Event>, o: Observation, p: Policy) {
    && e.seen == Prune(b.seen, o.at - p.history) && o.at != ZERO && (epoch != [] ==> b.asOf <= o.at)
    && forall i :: 0 <= i < |epoch| ==> epoch[i].o.at <= o.at
  }

  lemma CoveredNext(b: State, e: State, epoch: seq<Event>, o: Observation, p: Policy, s: State, r: UpdateResult, f: nat)
    requires ValidPolicy(p) && p.candidateLifetime <= p.history
    requires Logged(b, epoch) && AllCovered(b, epoch, p) && Entered(b, e, epoch, o, p) && s.asOf == o.at
    requires forall source: string :: EntryMoves(e, o, p, s, r, source)
    requires IsFirst(epoch + [Event(o, r)], f, p)
    ensures Covered(s, epoch + [Event(o, r)], f, p)
  {
    var last := Event(o, r);
    var next := epoch + [last];
    if f == |epoch| {
      LatestIsCovered(e, epoch, o, p, s, r);
    } else if o.at - epoch[f].o.at < p.candidateLifetime {
      FirstInPrefix(epoch, last, f, p);
      assert next[f] == epoch[f];
      assert Covered(b, epoch, f, p);
      if !LostSince(epoch, epoch[f].o.at) {
        EntryKept(b, e, epoch, o, p, f);
        EarlierStaysCovered(e, epoch, o, p, s, r, f);
      }
    }
  }

  lemma PruneLogged(b: State, e: State, epoch: seq<Event>, horizon: Instant)
    requires Logged(b, epoch) && e.seen == Prune(b.seen, horizon)
    ensures Logged(e, epoch)
  {
  }

  lemma StepLogged(b: State, e: State, epoch: seq<Event>, o: Observation, p: Policy)
    requires Logged(b, epoch) && Entered(b, e, epoch, o, p)
    ensures var (s, r) := Classify(e, o, p); Logged(s, epoch + [Event(o, r)])
  {
    var (s, r) := Classify(e, o, p);
    PruneLogged(b, e, epoch, o.at - p.history);
    forall source | source in s.seen
      ensures s.seen[source].firstSeen <= s.seen[source].lastSeen
      ensures SeenAt(epoch + [Event(o, r)], source, s.seen[source].lastSeen)
    {
      ClassifyMoves(e, o, p, source);
      LoggedNext(e, epoch, o, p, s, r, source);
    }
  }

  lemma StepCovers(b: State, e: State, epoch: seq<Event>, o: Observation, p: Policy)
    requires ValidPolicy(p) && p.candidateLifetime <= p.history
    requires Logged(b, epoch) && AllCovered(b, epoch, p) && Entered(b, e, epoch, o, p) && e.asOf == o.at
    ensures var (s, r) := Classify(e, o, p);
            AllCovered(s, epoch + [Event(o, r)], p)
  {
    var (s, r) := Classify(e, o, p);
    ClassifyMarks(e, o, p);
    PruneLogged(b, e, epoch, o.at - p.history);
    forall source: string
      ensures EntryMoves(e, o, p, s, r, source)
    {
      ClassifyMoves(e, o, p, source);
    }
    forall f: nat | IsFirst(epoch + [Event(o, r)], f, p)
      ensures Covered(s, epoch + [Event(o, r)], f, p)
    {
      CoveredNext(b, e, epoch, o, p, s, r, f);
    }
  }

  // ----- Every run -----

  lemma EpochCovers(s: State, epoch: seq<Event>, o: Observation, p: Policy)
    requires AtLast(s, epoch) && Sound(s, epoch, p, s.asOf) && Refusal(s, o, p).None?
    requires Logged(s, epoch)
    ensures var b, cont := Epoch(s, o), Continued(epoch, o);
            && Logged(b, cont) && Entered(b, Enter(s, o, p), cont, o, p)
            && (AllCovered(s, epoch, p) ==> AllCovered(b, cont, p))
  {
    EpochSound(s, epoch, o, p);
  }

  /** After every run, under any policy, each entry was last seen at a request of its own source in
      the current epoch, no earlier than it was first seen. */
  lemma {:induction false} EntriesLogged(obs: seq<Observation>, p: Policy)
    ensures var (s, log) := Run(obs, p); Logged(s, CurrentEpoch(log))
  {
    if obs != [] {
      var o := obs[|obs| - 1];
      EntriesLogged(obs[..|obs| - 1], p);
      RunSound(obs[..|obs| - 1], p);
      var (s, log) := Run(obs[..|obs| - 1], p);
      var t := Step(s, o, p);
      if t.Accepted? {
        EpochCovers(s, CurrentEpoch(log), o, p);
        StepLogged(Epoch(s, o), Enter(s, o, p), Continued(CurrentEpoch(log), o), o, p);
        CurrentEpochSnoc(log, Event(o, t.result));
      }
    }
  }

  lemma {:induction false} RunCovers(obs: seq<Observation>, p: Policy)
    requires p.candidateLifetime <= p.history
    ensures var (s, log) := Run(obs, p); AllCovered(s, CurrentEpoch(log), p)
  {
    if obs != [] {
      var o := obs[|obs| - 1];
      RunCovers(obs[..|obs| - 1], p);
      RunSound(obs[..|obs| - 1], p);
      EntriesLogged(obs[..|obs| - 1], p);
      var (s, log) := Run(obs[..|obs| - 1], p);
      var t := Step(s, o, p);
      if t.Accepted? {
        EpochCovers(s, CurrentEpoch(log), o, p);
        StepCovers(Epoch(s, o), Enter(s, o, p), Continued(CurrentEpoch(log), o), o, p);
        CurrentEpochSnoc(log, Event(o, t.result));
      }
    }
  }

  lemma CoveredIsCounted(s: State, epoch: seq<Event>, f: nat, g: nat, at: Instant, p: Policy)
    requires Anchored(s, epoch, p, s.asOf) && s.asOf <= at && p.candidateLifetime <= p.history
    requires ShowsCandidate(epoch, f, g, at, p) && Covered(s, epoch, f, p)
    ensures Saturated(s, at) || epoch[f].o.source in Candidates(s.seen, at, p, {Novel, NoveltyUnknown})
  {
    if LostSince(epoch, epoch[f].o.at) {
      var i :| 0 <= i < |epoch| && IsCapacityEvent(epoch[i]) && epoch[i].o.at >= epoch[f].o.at;
      assert IsGap(epoch[i]);
    } else {
      assert IsRepeated(epoch, f, p);
    }
  }

  /** The upper bound misses nothing when candidates live no longer than the history. */
  lemma UpperBoundSound(obs: seq<Observation>, at: Instant, p: Policy)
    requires p.candidateLifetime <= p.history && Run(obs, p).0.asOf <= at
    ensures CoversCandidates(Run(obs, p).0, CurrentEpoch(Run(obs, p).1), at, p)
  {
    RunCovers(obs, p);
    RunSound(obs, p);
    var (s, log) := Run(obs, p);
    var epoch := CurrentEpoch(log);
    forall f: nat, g: nat | ShowsCandidate(epoch, f, g, at, p)
      ensures Saturated(s, at) || epoch[f].o.source in Candidates(s.seen, at, p, {Novel, NoveltyUnknown})
    {
      CoveredIsCounted(s, epoch, f, g, at, p);
    }
  }

  // ----- And only then -----

  /** The state after one update of source "s" at time 1. */
  ghost predicate AfterOnePing(s: State) {
    && SameVersions(s, Ping(1)) && s.rawRequests == 1 && s.logicalUpdates == 1 && s.asOf == 1 && !s.capacityLimited
    && s.updates == [LogicalUpdate(KeyOf(Ping(1)), 1)]
    && s.seen == map["s" := SeenSource(1, 1, NoveltyUnknown, ZERO)]
  }

  lemma OnePing(p: Policy) returns (e: Event)
    requires ValidPolicy(p)
    ensures AfterOnePing(Run([Ping(1)], p).0) && Run([Ping(1)], p).1 == [e] && CurrentEpoch([e]) == [e]
    ensures e.o == Ping(1) && e.r.logical
  {
    FirstPing(p);
    RunSnoc([], Ping(1), p);
    assert [] + [Ping(1)] == [Ping(1)];
    e := Event(Ping(1), Step(EMPTY, Ping(1), p).result);
    CurrentEpochSnoc([], e);
    assert [] + [e] == [e];
  }

  /** A second update that comes after the history has expired the first entry. */
  lemma LatePing(s: State, d: int, p: Policy)
    requires ValidPolicy(p) && p.history <= d && p.repeatInterval <= d && AfterOnePing(s)
    ensures var t := Step(s, Ping(1 + d), p);
            && t.Accepted? && t.result.logical && !t.state.capacityLimited && t.state.asOf == 1 + d
            && "s" in t.state.seen && t.state.seen["s"].secondUpdate == ZERO
  {
    var o := Ping(1 + d);
    var e := Enter(s, o, p);
    assert s.updates[..0] == [] && KeepRecent(s.updates[..0], o.at - p.mergeWindow) == [];
    assert KeepRecent(s.updates, o.at - p.mergeWindow) == [];
    assert "s" !in e.seen && e.seen == map[];
  }

  lemma SecondPing(s: State, e: Event, d: int, p: Policy) returns (n: State, f: Event)
    requires ValidPolicy(p) && p.history <= d && p.repeatInterval <= d && AfterOnePing(s)
    requires Run([Ping(1)], p) == (s, [e]) && CurrentEpoch([e]) == [e] && e.o == Ping(1)
    ensures Run([Ping(1), Ping(1 + d)], p) == (n, [e, f]) && CurrentEpoch([e, f]) == [e, f]
    ensures f.o == Ping(1 + d) && f.r.logical && n.asOf == 1 + d && !n.capacityLimited
    ensures "s" in n.seen && n.seen["s"].secondUpdate == ZERO
  {
    LatePing(s, d, p);
    RunSnoc([Ping(1)], Ping(1 + d), p);
    assert [Ping(1)] + [Ping(1 + d)] == [Ping(1), Ping(1 + d)];
    var t := Step(s, Ping(1 + d), p);
    n, f := t.state, Event(Ping(1 + d), t.result);
    assert [e] + [f] == [e, f];
    CurrentEpochSnoc([e], f);
  }

  /** With a longer lifetime a source can be new, repeat in time, and be missed. */
  lemma LongLifetimeMisses(p: Policy)
    requires ValidPolicy(p) && p.candidateLifetime > p.history
    ensures var d := if p.history < p.repeatInterval then p.repeatInterval else p.history;
            var (s, log) := Run([Ping(1), Ping(1 + d)], p);
            s.asOf <= 1 + d && !CoversCandidates(s, CurrentEpoch(log), 1 + d, p)
  {
    var d := if p.history < p.repeatInterval then p.repeatInterval else p.history;
    var e1 := OnePing(p);
    var s1 := Run([Ping(1)], p).0;
    var s2, e2 := SecondPing(s1, e1, d, p);
    TwoPings(s2, e1, e2, d, p);
  }

  lemma TwoPings(s: State, e1: Event, e2: Event, d: int, p: Policy)
    requires ValidPolicy(p) && p.repeatInterval <= d < p.candidateLifetime
    requires e1.o == Ping(1) && e2.o == Ping(1 + d) && e1.r.logical && e2.r.logical
    requires !s.capacityLimited && "s" in s.seen && s.seen["s"].secondUpdate == ZERO
    ensures !CoversCandidates(s, [e1, e2], 1 + d, p)
  {
    var epoch := [e1, e2];
    assert IsFirst(epoch, 0, p) && RepeatsFirst(epoch, 0, 1, p);
    assert ShowsCandidate(epoch, 0, 1, 1 + d, p);
  }

  /** The exact condition for a sound upper bound. */
  lemma UpperBoundIffLifetimeWithinHistory(p: Policy)
    requires ValidPolicy(p)
    ensures AlwaysCovers(p) <==> p.candidateLifetime <= p.history
  {
    if p.candidateLifetime <= p.history {
      forall obs: seq<Observation>, at: Instant | Run(obs, p).0.asOf <= at
        ensures CoversCandidates(Run(obs, p).0, CurrentEpoch(Run(obs, p).1), at, p)
      {
        UpperBoundSound(obs, at, p);
      }
    } else {
      LongLifetimeMisses(p);
    }
  }
}
