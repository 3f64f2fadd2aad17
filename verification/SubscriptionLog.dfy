/** What the bounded subscription state means against the full log of observations.

    `Run` folds `Step` over any sequence of observations and keeps, beside the state, the
    unbounded log of accepted ones. The theorems relate the two for every sequence. */
module SubscriptionLog {

  import opened Common
  import opened Subscription

  datatype Event = Event(o: Observation, r: UpdateResult)

  function Run(obs: seq<Observation>, p: Policy): (State, seq<Event>) {
    if obs == [] then (EMPTY, [])
    else
      var (s, log) := Run(obs[..|obs| - 1], p);
      var o := obs[|obs| - 1];
      match Step(s, o, p)
      case Rejected(_) => (s, log)
      case Accepted(s', r) => (s', log + [Event(o, r)])
  }

  predicate SameEpoch(a: Observation, b: Observation) {
    a.tokenVersion == b.tokenVersion && a.sourceVersion == b.sourceVersion
  }

  /** The longest suffix of the log made under the versions of its last event. */
  function CurrentEpoch(log: seq<Event>): seq<Event> {
    if log == [] then []
    else
      var before := CurrentEpoch(log[..|log| - 1]);
      var last := log[|log| - 1];
      if before != [] && SameEpoch(before[|before| - 1].o, last.o) then before + [last] else [last]
  }

  // ----- What the log says -----

  /** A successful request of `source` that could be attributed to it. */
  predicate Requested(e: Event, source: string) {
    Usable(e.o) && e.o.source == source
  }

  predicate IsCapacityEvent(e: Event) {
    e.r.reason.UpdateCapacity? || e.r.reason.SourceCapacity?
  }

  /** After a gap nobody can say which sources were active. */
  predicate IsGap(e: Event) {
    !e.o.historyComplete || e.r.reason.SourceUnusable? || IsCapacityEvent(e)
  }

  predicate RequestedSince(epoch: seq<Event>, source: string, horizon: Instant) {
    exists i :: 0 <= i < |epoch| && Requested(epoch[i], source) && epoch[i].o.at > horizon
  }

  predicate IsLatestRequest(epoch: seq<Event>, source: string, at: Instant) {
    && (exists i :: 0 <= i < |epoch| && Requested(epoch[i], source) && epoch[i].o.at == at)
    && (forall i :: 0 <= i < |epoch| && Requested(epoch[i], source) ==> epoch[i].o.at <= at)
  }

  /** The state answers "which sources were active, and when last" exactly as the full log. */
  ghost predicate RefinesLog(s: State, epoch: seq<Event>, p: Policy) {
    && (forall source: string :: source in s.seen <==> RequestedSince(epoch, source, s.asOf - p.history))
    && (forall source :: source in s.seen ==> IsLatestRequest(epoch, source, s.seen[source].lastSeen))
  }

  /** Event `f` of the epoch introduced `source`, and the log proves it was new then. */
  predicate ProvenNew(epoch: seq<Event>, f: nat, source: string, p: Policy) {
    && f < |epoch|
    && Requested(epoch[f], source) && epoch[f].r.logical && !IsGap(epoch[f])
    && var since := epoch[f].o.at - p.history;
    && epoch[0].o.at <= since
    && (forall i :: 0 <= i < f && IsGap(epoch[i]) ==> epoch[i].o.at <= since)
    && (forall i :: 0 <= i < f && Requested(epoch[i], source) && epoch[i].r.logical ==> epoch[i].o.at <= since)
  }

  // ----- Invariants of every run -----

  /** Budgets, epoch start, gap horizon and capacity flag, at clock `now`. */
  predicate Anchored(s: State, epoch: seq<Event>, p: Policy, now: Instant) {
    && |s.seen| <= MAX_SOURCES && |s.updates| <= MAX_UPDATE_KEYS
    && (epoch != [] ==> s.historyStarted == epoch[0].o.at)
    && (forall i :: 0 <= i < |epoch| ==> epoch[i].o.at <= now)
    && (forall i :: 0 <= i < |epoch| && IsGap(epoch[i]) ==> epoch[i].o.at + p.history <= s.historyUnknownUntil)
    && (s.capacityLimited <==> exists i :: 0 <= i < |epoch| && IsCapacityEvent(epoch[i]))
  }

  /** No source with a logical update after `now - history` was forgotten, unless a gap says so. */
  predicate Remembers(s: State, epoch: seq<Event>, p: Policy, now: Instant) {
    forall i :: 0 <= i < |epoch| && epoch[i].r.logical && epoch[i].o.at > now - p.history ==>
      || epoch[i].o.at + p.history <= s.historyUnknownUntil
      || (epoch[i].o.source in s.seen && epoch[i].o.at <= s.seen[epoch[i].o.source].lastSeen)
  }

  ghost predicate NovelEntriesProven(s: State, epoch: seq<Event>, p: Policy) {
    forall source :: source in s.seen && s.seen[source].novelty == Novel ==>
      exists f: nat :: ProvenNew(epoch, f, source, p) && epoch[f].o.at == s.seen[source].firstSeen
  }

  /** The invariant of every run, whatever the policy and whatever capacity was lost. */
  ghost predicate Sound(s: State, epoch: seq<Event>, p: Policy, now: Instant) {
    Anchored(s, epoch, p, now) && Remembers(s, epoch, p, now) && NovelEntriesProven(s, epoch, p)
  }

  /** Version and clock of the state are those of the last event. */
  predicate AtLast(s: State, epoch: seq<Event>) {
    if epoch == [] then s == EMPTY
    else
      var last := epoch[|epoch| - 1].o;
      SameVersions(s, last) && s.asOf == last.at && last.at != ZERO && last.tokenVersion != ""
  }

  // ----- One step -----

  lemma {:induction false} KeepRecentSubset(updates: seq<LogicalUpdate>, horizon: Instant)
    ensures |KeepRecent(updates, horizon)| <= |updates|
    ensures forall u :: u in KeepRecent(updates, horizon) ==> u in updates && u.at > horizon
  {
    if updates != [] {
      KeepRecentSubset(updates[..|updates| - 1], horizon);
    }
  }

  lemma PruneSmaller(seen: map<string, SeenSource>, horizon: Instant)
    ensures |Prune(seen, horizon)| <= |seen|
  {
    var pruned := Prune(seen, horizon);
    assert pruned.Keys <= seen.Keys;
    SubsetSize(pruned.Keys, seen.Keys);
  }

  /** The epoch an accepted observation extends: empty when the versions changed. */
  function Continued(epoch: seq<Event>, o: Observation): seq<Event> {
    if epoch != [] && SameEpoch(epoch[|epoch| - 1].o, o) then epoch else []
  }

  lemma EpochSound(s: State, epoch: seq<Event>, o: Observation, p: Policy)
    requires AtLast(s, epoch) && Sound(s, epoch, p, s.asOf) && Refusal(s, o, p).None?
    ensures Sound(Epoch(s, o), Continued(epoch, o), p, o.at)
    ensures Continued(epoch, o) == [] ==> Epoch(s, o).historyStarted == o.at
  {
  }

  /** Scalar fields after classifying a request in entered state `e`. */
  ghost predicate MarksKept(e: State, o: Observation, p: Policy, s: State, r: UpdateResult) {
    && s.asOf == e.asOf && s.historyStarted == e.historyStarted
    && s.tokenVersion == e.tokenVersion && s.sourceVersion == e.sourceVersion
    && s.historyUnknownUntil == (if IsCapacityEvent(Event(o, r)) || r.reason.SourceUnusable?
                                 then o.at + p.history else e.historyUnknownUntil)
    && s.capacityLimited == (e.capacityLimited || IsCapacityEvent(Event(o, r)))
  }

  /** Entries after classifying a request in entered state `e`. */
  ghost predicate EntriesKept(e: State, o: Observation, p: Policy, s: State, r: UpdateResult) {
    && (forall source :: source in e.seen ==>
          source in s.seen && s.seen[source].lastSeen in {e.seen[source].lastSeen, o.at})
    && (forall source :: source in s.seen && s.seen[source].novelty == Novel ==>
          || (source in e.seen && s.seen[source].firstSeen == e.seen[source].firstSeen && e.seen[source].novelty == Novel)
          || (&& source == o.source && source !in e.seen && r.logical && r.reason.NoReason? && Usable(o)
              && s.seen[source].firstSeen == o.at && FirstNovelty(e, o, p) == Novel))
    && (r.logical ==> r.reason.SourceCapacity? || (o.source in s.seen && s.seen[o.source].lastSeen == o.at))
  }

  lemma ClassifyMarks(e: State, o: Observation, p: Policy)
    ensures var (s, r) := Classify(e, o, p); MarksKept(e, o, p, s, r)
  {
  }

  lemma ClassifyBudget(e: State, o: Observation, p: Policy)
    requires |e.seen| <= MAX_SOURCES && |e.updates| <= MAX_UPDATE_KEYS
    ensures var s := Classify(e, o, p).0; |s.seen| <= MAX_SOURCES && |s.updates| <= MAX_UPDATE_KEYS
  {
    var s := Classify(e, o, p).0;
    if s.seen.Keys != e.seen.Keys {
      assert s.seen.Keys == e.seen.Keys + {o.source};
    }
  }

  lemma ClassifyEntries(e: State, o: Observation, p: Policy)
    ensures var (s, r) := Classify(e, o, p); EntriesKept(e, o, p, s, r)
  {
  }

  predicate EnteredFrom(b: State, o: Observation, p: Policy, e: State) {
    && e.asOf == o.at && e.historyStarted == b.historyStarted && e.capacityLimited == b.capacityLimited
    && e.historyUnknownUntil == (if o.historyComplete then b.historyUnknownUntil else o.at + p.history)
    && e.seen == Prune(b.seen, o.at - p.history)
  }

  lemma AnchoredStep(b: State, epoch: seq<Event>, o: Observation, p: Policy, e: State, s: State, r: UpdateResult)
    requires Anchored(b, epoch, p, o.at) && (epoch == [] ==> b.historyStarted == o.at)
    requires EnteredFrom(b, o, p, e) && MarksKept(e, o, p, s, r)
    requires |s.seen| <= MAX_SOURCES && |s.updates| <= MAX_UPDATE_KEYS
    ensures Anchored(s, epoch + [Event(o, r)], p, o.at)
  {
    var next := epoch + [Event(o, r)];
    if b.capacityLimited {
      var i :| 0 <= i < |epoch| && IsCapacityEvent(epoch[i]);
      assert IsCapacityEvent(next[i]);
    } else if IsCapacityEvent(Event(o, r)) {
      assert IsCapacityEvent(next[|epoch|]);
    }
  }

  lemma RemembersStep(b: State, epoch: seq<Event>, o: Observation, p: Policy, e: State, s: State, r: UpdateResult)
    requires Anchored(b, epoch, p, o.at) && Remembers(b, epoch, p, o.at)
    requires EnteredFrom(b, o, p, e) && MarksKept(e, o, p, s, r) && EntriesKept(e, o, p, s, r)
    ensures Remembers(s, epoch + [Event(o, r)], p, o.at)
  {
  }

  /** A source marked new when its entry is created was new by the log. */
  lemma CreatedProven(b: State, epoch: seq<Event>, o: Observation, p: Policy, e: State, s: State, r: UpdateResult)
    requires Anchored(b, epoch, p, o.at) && (epoch == [] ==> b.historyStarted == o.at)
    requires Remembers(b, epoch, p, o.at) && ValidPolicy(p)
    requires EnteredFrom(b, o, p, e) && EntriesKept(e, o, p, s, r)
    requires o.source in s.seen && s.seen[o.source].novelty == Novel && o.source !in e.seen
    ensures ProvenNew(epoch + [Event(o, r)], |epoch|, o.source, p) && s.seen[o.source].firstSeen == o.at
  {
  }

  lemma NovelStep(b: State, epoch: seq<Event>, o: Observation, p: Policy, e: State, s: State, r: UpdateResult)
    requires Anchored(b, epoch, p, o.at) && (epoch == [] ==> b.historyStarted == o.at)
    requires Remembers(b, epoch, p, o.at) && NovelEntriesProven(b, epoch, p)
    requires EnteredFrom(b, o, p, e) && EntriesKept(e, o, p, s, r) && ValidPolicy(p)
    ensures NovelEntriesProven(s, epoch + [Event(o, r)], p)
  {
    var next := epoch + [Event(o, r)];
    forall source | source in s.seen && s.seen[source].novelty == Novel
      ensures exists f: nat :: ProvenNew(next, f, source, p) && next[f].o.at == s.seen[source].firstSeen
    {
      if source in e.seen {
        var f: nat :| ProvenNew(epoch, f, source, p) && epoch[f].o.at == b.seen[source].firstSeen;
        assert ProvenNew(next, f, source, p);
      } else {
        CreatedProven(b, epoch, o, p, e, s, r);
      }
    }
  }

  lemma ClassifiedSound(b: State, epoch: seq<Event>, o: Observation, p: Policy, e: State, s: State, r: UpdateResult)
    requires Sound(b, epoch, p, o.at) && (epoch == [] ==> b.historyStarted == o.at) && ValidPolicy(p)
    requires EnteredFrom(b, o, p, e) && MarksKept(e, o, p, s, r) && EntriesKept(e, o, p, s, r)
    requires |s.seen| <= MAX_SOURCES && |s.updates| <= MAX_UPDATE_KEYS
    ensures Sound(s, epoch + [Event(o, r)], p, o.at)
  {
    AnchoredStep(b, epoch, o, p, e, s, r);
    RemembersStep(b, epoch, o, p, e, s, r);
    NovelStep(b, epoch, o, p, e, s, r);
  }

  lemma StepSummary(s: State, o: Observation, p: Policy)
    requires Step(s, o, p).Accepted? && |s.seen| <= MAX_SOURCES && |s.updates| <= MAX_UPDATE_KEYS
    ensures var t := Step(s, o, p);
            var e := Enter(s, o, p);
            && Refusal(s, o, p).None?
            && EnteredFrom(Epoch(s, o), o, p, e)
            && MarksKept(e, o, p, t.state, t.result) && EntriesKept(e, o, p, t.state, t.result)
            && |t.state.seen| <= MAX_SOURCES && |t.state.updates| <= MAX_UPDATE_KEYS
            && SameVersions(t.state, o) && t.state.asOf == o.at
  {
    var b, e := Epoch(s, o), Enter(s, o, p);
    PruneSmaller(b.seen, o.at - p.history);
    KeepRecentSubset(b.updates, o.at - p.mergeWindow);
    ClassifyMarks(e, o, p);
    ClassifyBudget(e, o, p);
    ClassifyEntries(e, o, p);
  }

  /** Every accepted observation keeps the invariant. */
  lemma StepSound(s: State, epoch: seq<Event>, o: Observation, p: Policy)
    requires AtLast(s, epoch) && Sound(s, epoch, p, s.asOf) && Step(s, o, p).Accepted?
    ensures var t := Step(s, o, p);
            var next := Continued(epoch, o) + [Event(o, t.result)];
            AtLast(t.state, next) && Sound(t.state, next, p, t.state.asOf)
  {
    StepSummary(s, o, p);
    EpochSound(s, epoch, o, p);
    var t := Step(s, o, p);
    ClassifiedSound(Epoch(s, o), Continued(epoch, o), o, p, Enter(s, o, p), t.state, t.result);
  }

  lemma CurrentEpochSnoc(log: seq<Event>, e: Event)
    ensures CurrentEpoch(log + [e]) == Continued(CurrentEpoch(log), e.o) + [e]
  {
    assert (log + [e])[..|log|] == log;
  }

  lemma {:induction false} RunSound(obs: seq<Observation>, p: Policy)
    ensures var (s, log) := Run(obs, p);
            AtLast(s, CurrentEpoch(log)) && Sound(s, CurrentEpoch(log), p, s.asOf)
  {
    if obs != [] {
      var o := obs[|obs| - 1];
      RunSound(obs[..|obs| - 1], p);
      var (s, log) := Run(obs[..|obs| - 1], p);
      var t := Step(s, o, p);
      if t.Accepted? {
        StepSound(s, CurrentEpoch(log), o, p);
        CurrentEpochSnoc(log, Event(o, t.result));
      }
    }
  }

  /** Novelty is never claimed without proof, whatever capacity was lost before: when an
      observation creates an entry marked new, its epoch began a whole history earlier, no gap
      fell inside that history, and the source had no logical update inside it. */
  lemma NoveltySound(obs: seq<Observation>, o: Observation, p: Policy)
    ensures var (s, log) := Run(obs, p);
            var t := Step(s, o, p);
            && t.Accepted? && o.source in t.state.seen && t.state.seen[o.source].novelty == Novel
            && o.source !in Enter(s, o, p).seen
            ==> var epoch := CurrentEpoch(log + [Event(o, t.result)]);
                && ProvenNew(epoch, |epoch| - 1, o.source, p)
                && epoch[|epoch| - 1].o == o && t.state.seen[o.source].firstSeen == o.at
  {
    RunSound(obs, p);
    var (s, log) := Run(obs, p);
    var t := Step(s, o, p);
    if t.Accepted? && o.source in t.state.seen && t.state.seen[o.source].novelty == Novel
       && o.source !in Enter(s, o, p).seen {
      StepSummary(s, o, p);
      EpochSound(s, CurrentEpoch(log), o, p);
      CreatedProven(Epoch(s, o), Continued(CurrentEpoch(log), o), o, p, Enter(s, o, p), t.state, t.result);
      CurrentEpochSnoc(log, Event(o, t.result));
    }
  }

  // ----- Candidate bounds -----

  predicate IsRepeat(epoch: seq<Event>, g: nat, source: string, first: Instant, second: Instant, p: Policy) {
    && g < |epoch| && Requested(epoch[g], source) && epoch[g].r.logical && epoch[g].o.at == second
    && p.repeatInterval <= second - first < p.candidateLifetime
  }

  ghost predicate RepeatsProven(s: State, epoch: seq<Event>, p: Policy) {
    forall source :: source in s.seen && s.seen[source].secondUpdate != ZERO ==>
      exists g: nat :: IsRepeat(epoch, g, source, s.seen[source].firstSeen, s.seen[source].secondUpdate, p)
  }

  lemma ClassifyRepeats(e: State, o: Observation, p: Policy)
    requires e.asOf == o.at
    ensures var (s, r) := Classify(e, o, p);
            forall source :: source in s.seen && s.seen[source].secondUpdate != ZERO ==>
              || (source in e.seen && s.seen[source].firstSeen == e.seen[source].firstSeen
                  && s.seen[source].secondUpdate == e.seen[source].secondUpdate)
              || IsRepeat([Event(o, r)], 0, source, s.seen[source].firstSeen, s.seen[source].secondUpdate, p)
  {
  }

  lemma RepeatsSnoc(b: State, epoch: seq<Event>, o: Observation, p: Policy, s: State, r: UpdateResult)
    requires RepeatsProven(b, epoch, p)
    requires forall source :: source in s.seen && s.seen[source].secondUpdate != ZERO ==>
               || (source in b.seen && s.seen[source].firstSeen == b.seen[source].firstSeen
                   && s.seen[source].secondUpdate == b.seen[source].secondUpdate)
               || IsRepeat([Event(o, r)], 0, source, s.seen[source].firstSeen, s.seen[source].secondUpdate, p)
    ensures RepeatsProven(s, epoch + [Event(o, r)], p)
  {
    var next := epoch + [Event(o, r)];
    forall source | source in s.seen && s.seen[source].secondUpdate != ZERO
      ensures exists g: nat :: IsRepeat(next, g, source, s.seen[source].firstSeen, s.seen[source].secondUpdate, p)
    {
      var first, second := s.seen[source].firstSeen, s.seen[source].secondUpdate;
      if IsRepeat([Event(o, r)], 0, source, first, second, p) {
        assert IsRepeat(next, |epoch|, source, first, second, p);
      } else {
        var g: nat :| IsRepeat(epoch, g, source, first, second, p);
        assert IsRepeat(next, g, source, first, second, p);
      }
    }
  }

  lemma {:induction false} RunRepeats(obs: seq<Observation>, p: Policy)
    ensures var (s, log) := Run(obs, p); RepeatsProven(s, CurrentEpoch(log), p)
  {
    if obs != [] {
      var o := obs[|obs| - 1];
      RunRepeats(obs[..|obs| - 1], p);
      RunSound(obs[..|obs| - 1], p);
      var (s, log) := Run(obs[..|obs| - 1], p);
      var t := Step(s, o, p);
      if t.Accepted? {
        var b, cont := Epoch(s, o), Continued(CurrentEpoch(log), o);
        assert RepeatsProven(b, cont, p);
        ClassifyRepeats(Enter(s, o, p), o, p);
        RepeatsSnoc(b, cont, o, p, t.state, t.result);
        CurrentEpochSnoc(log, Event(o, t.result));
      }
    }
  }

  /** The log proves `source` new at event `f` and shows its second logical update at event `g`. */
  predicate ProvenCandidate(epoch: seq<Event>, f: nat, g: nat, source: string, at: Instant, p: Policy) {
    && ProvenNew(epoch, f, source, p) && at - epoch[f].o.at < p.candidateLifetime
    && g < |epoch| && IsRepeat(epoch, g, source, epoch[f].o.at, epoch[g].o.at, p)
  }

  ghost predicate IsProvenCandidate(epoch: seq<Event>, source: string, at: Instant, p: Policy) {
    exists f: nat, g: nat :: ProvenCandidate(epoch, f, g, source, at, p)
  }

  lemma CandidateIsProven(s: State, epoch: seq<Event>, source: string, at: Instant, p: Policy)
    requires NovelEntriesProven(s, epoch, p) && RepeatsProven(s, epoch, p)
    requires source in s.seen && IsCandidate(s.seen[source], at, p, {Novel})
    ensures IsProvenCandidate(epoch, source, at, p)
  {
    var f: nat :| ProvenNew(epoch, f, source, p) && epoch[f].o.at == s.seen[source].firstSeen;
    var g: nat :| IsRepeat(epoch, g, source, s.seen[source].firstSeen, s.seen[source].secondUpdate, p);
    assert ProvenCandidate(epoch, f, g, source, at, p);
  }

  lemma CandidateCounts(seen: map<string, SeenSource>, at: Instant, p: Policy)
    ensures |Candidates(seen, at, p, {Novel})| <= |Candidates(seen, at, p, {Novel, NoveltyUnknown})| <= |seen|
  {
    SubsetSize(Candidates(seen, at, p, {Novel}), Candidates(seen, at, p, {Novel, NoveltyUnknown}));
    assert Candidates(seen, at, p, {Novel, NoveltyUnknown}) <= seen.Keys;
    SubsetSize(Candidates(seen, at, p, {Novel, NoveltyUnknown}), seen.Keys);
  }

  /** The lower candidate bound counts only sources that the log proves new and that made a second
      logical update in time; the upper bound covers it and never exceeds the source budget. */
  lemma CandidateBoundsSound(obs: seq<Observation>, at: Instant, p: Policy)
    ensures var (s, log) := Run(obs, p);
            && |Candidates(s.seen, at, p, {Novel})| <= |Candidates(s.seen, at, p, {Novel, NoveltyUnknown})| <= MAX_SOURCES
            && forall source :: source in Candidates(s.seen, at, p, {Novel}) ==>
                 IsProvenCandidate(CurrentEpoch(log), source, at, p)
  {
    RunSound(obs, p);
    RunRepeats(obs, p);
    var (s, log) := Run(obs, p);
    CandidateCounts(s.seen, at, p);
    forall source | source in Candidates(s.seen, at, p, {Novel})
      ensures IsProvenCandidate(CurrentEpoch(log), source, at, p)
    {
      CandidateIsProven(s, CurrentEpoch(log), source, at, p);
    }
  }

  // ----- Refinement of the full log -----

  /** Inductive form of `RefinesLog`; open merge windows point at logged requests. */
  ghost predicate Tracks(s: State, epoch: seq<Event>, p: Policy) {
    && (forall source :: source in s.seen ==>
          s.seen[source].lastSeen > s.asOf - p.history && IsLatestRequest(epoch, source, s.seen[source].lastSeen))
    && (forall source: string :: RequestedSince(epoch, source, s.asOf - p.history) ==> source in s.seen)
    && (forall u :: u in s.updates ==> RequestedSince(epoch, u.key.source, u.at - 1))
  }

  lemma EnterTracks(b: State, epoch: seq<Event>, o: Observation, p: Policy, e: State)
    requires Tracks(b, epoch, p) && (epoch != [] ==> b.asOf <= o.at) && p.mergeWindow <= p.history
    requires e.asOf == o.at && e.seen == Prune(b.seen, o.at - p.history)
    requires e.updates == KeepRecent(b.updates, o.at - p.mergeWindow)
    ensures Tracks(e, epoch, p)
    ensures forall u :: u in e.updates ==> u.key.source in e.seen
  {
    forall source: string | RequestedSince(epoch, source, o.at - p.history)
      ensures source in e.seen
    {
      var i :| 0 <= i < |epoch| && Requested(epoch[i], source) && epoch[i].o.at > o.at - p.history;
      assert RequestedSince(epoch, source, b.asOf - p.history);
    }
    KeepRecentSubset(b.updates, o.at - p.mergeWindow);
    forall u | u in e.updates
      ensures u.key.source in e.seen
    {
      var i :| 0 <= i < |epoch| && Requested(epoch[i], u.key.source) && epoch[i].o.at > u.at - 1;
      assert RequestedSince(epoch, u.key.source, o.at - p.history);
    }
  }

  lemma SnocRequests(epoch: seq<Event>, e: Event)
    ensures forall source: string, h: Instant ::
              RequestedSince(epoch + [e], source, h) <==> RequestedSince(epoch, source, h) || (Requested(e, source) && e.o.at > h)
  {
    var next := epoch + [e];
    forall source: string, h: Instant
      ensures RequestedSince(next, source, h) <==> RequestedSince(epoch, source, h) || (Requested(e, source) && e.o.at > h)
    {
      if RequestedSince(epoch, source, h) {
        var i :| 0 <= i < |epoch| && Requested(epoch[i], source) && epoch[i].o.at > h;
        assert next[i] == epoch[i];
      }
      if Requested(e, source) && e.o.at > h {
        assert next[|epoch|] == e;
      }
    }
  }

  lemma SnocLatest(epoch: seq<Event>, e: Event, source: string, at: Instant)
    requires forall i :: 0 <= i < |epoch| ==> epoch[i].o.at <= e.o.at
    ensures Requested(e, source) ==> IsLatestRequest(epoch + [e], source, e.o.at)
    ensures !Requested(e, source) && IsLatestRequest(epoch, source, at) ==> IsLatestRequest(epoch + [e], source, at)
  {
    var next := epoch + [e];
    assert next[|epoch|] == e;
    if IsLatestRequest(epoch, source, at) {
      var i :| 0 <= i < |epoch| && Requested(epoch[i], source) && epoch[i].o.at == at;
      assert next[i] == epoch[i];
    }
  }

  /** How entries and merge windows move when a request meets no capacity limit. */
  ghost predicate Uncapped(e: State, o: Observation, s: State) {
    && s.asOf == e.asOf
    && (forall source :: source in s.seen <==> source in e.seen || (Usable(o) && source == o.source))
    && (forall source :: source in s.seen ==>
          s.seen[source].lastSeen == if Usable(o) && source == o.source then o.at else e.seen[source].lastSeen)
    && (forall u :: u in s.updates ==> u in e.updates || (u.at == o.at && u.key.source == o.source && Usable(o)))
  }

  lemma ClassifyUncapped(e: State, o: Observation, p: Policy)
    requires forall u :: u in e.updates ==> u.key.source in e.seen
    ensures var (s, r) := Classify(e, o, p);
            !IsCapacityEvent(Event(o, r)) ==> Uncapped(e, o, s)
  {
    if HasKey(e.updates, KeyOf(o)) {
      var i :| 0 <= i < |e.updates| && e.updates[i].key == KeyOf(o);
      assert e.updates[i] in e.updates;
    }
  }

  lemma TracksSnoc(e: State, epoch: seq<Event>, o: Observation, p: Policy, s: State, r: UpdateResult)
    requires Tracks(e, epoch, p) && e.asOf == o.at && ValidPolicy(p) && Uncapped(e, o, s)
    requires forall i :: 0 <= i < |epoch| ==> epoch[i].o.at <= o.at
    ensures Tracks(s, epoch + [Event(o, r)], p)
  {
    var last := Event(o, r);
    SnocRequests(epoch, last);
    forall source: string, at: Instant
      ensures Requested(last, source) ==> IsLatestRequest(epoch + [last], source, o.at)
      ensures !Requested(last, source) && IsLatestRequest(epoch, source, at) ==> IsLatestRequest(epoch + [last], source, at)
    {
      SnocLatest(epoch, last, source, at);
    }
  }

  lemma EpochTracks(s: State, epoch: seq<Event>, o: Observation, p: Policy)
    requires AtLast(s, epoch) && Anchored(s, epoch, p, s.asOf) && Refusal(s, o, p).None?
    requires !s.capacityLimited ==> Tracks(s, epoch, p)
    ensures var b, cont := Epoch(s, o), Continued(epoch, o);
            && (!b.capacityLimited ==> Tracks(b, cont, p))
            && (cont != [] ==> b.asOf <= o.at)
            && (forall i :: 0 <= i < |cont| ==> cont[i].o.at <= o.at)
  {
  }

  lemma EnterShape(s: State, o: Observation, p: Policy)
    ensures var b, e := Epoch(s, o), Enter(s, o, p);
            && e.asOf == o.at && e.capacityLimited == b.capacityLimited
            && e.seen == Prune(b.seen, o.at - p.history) && e.updates == KeepRecent(b.updates, o.at - p.mergeWindow)
  {
  }

  lemma EnteredFromEpoch(b: State, e: State, cont: seq<Event>, o: Observation, p: Policy)
    requires p.mergeWindow <= p.history && (!b.capacityLimited ==> Tracks(b, cont, p)) && (cont != [] ==> b.asOf <= o.at)
    requires e.asOf == o.at && e.capacityLimited == b.capacityLimited
    requires e.seen == Prune(b.seen, o.at - p.history) && e.updates == KeepRecent(b.updates, o.at - p.mergeWindow)
    ensures !e.capacityLimited ==> Tracks(e, cont, p) && forall u :: u in e.updates ==> u.key.source in e.seen
  {
    if !b.capacityLimited {
      EnterTracks(b, cont, o, p, e);
    }
  }

  lemma EnterStepTracks(s: State, epoch: seq<Event>, o: Observation, p: Policy)
    requires AtLast(s, epoch) && Anchored(s, epoch, p, s.asOf) && Refusal(s, o, p).None?
    requires p.mergeWindow <= p.history && (!s.capacityLimited ==> Tracks(s, epoch, p))
    ensures var e, cont := Enter(s, o, p), Continued(epoch, o);
            && e.asOf == o.at && (forall i :: 0 <= i < |cont| ==> cont[i].o.at <= o.at)
            && (!e.capacityLimited ==> Tracks(e, cont, p) && forall u :: u in e.updates ==> u.key.source in e.seen)
  {
    EpochTracks(s, epoch, o, p);
    EnterShape(s, o, p);
    EnteredFromEpoch(Epoch(s, o), Enter(s, o, p), Continued(epoch, o), o, p);
  }

  lemma EnteredTracks(e: State, epoch: seq<Event>, o: Observation, p: Policy)
    requires Tracks(e, epoch, p) && e.asOf == o.at && ValidPolicy(p)
    requires forall u :: u in e.updates ==> u.key.source in e.seen
    requires forall i :: 0 <= i < |epoch| ==> epoch[i].o.at <= o.at
    ensures var (s, r) := Classify(e, o, p);
            !s.capacityLimited ==> Tracks(s, epoch + [Event(o, r)], p)
  {
    var (s, r) := Classify(e, o, p);
    ClassifyMarks(e, o, p);
    if !s.capacityLimited {
      ClassifyUncapped(e, o, p);
      TracksSnoc(e, epoch, o, p, s, r);
    }
  }

  lemma StepTracks(s: State, epoch: seq<Event>, o: Observation, p: Policy)
    requires AtLast(s, epoch) && Anchored(s, epoch, p, s.asOf) && Step(s, o, p).Accepted?
    requires p.mergeWindow <= p.history && (!s.capacityLimited ==> Tracks(s, epoch, p))
    ensures var t := Step(s, o, p);
            !t.state.capacityLimited ==> Tracks(t.state, Continued(epoch, o) + [Event(o, t.result)], p)
  {
    EnterStepTracks(s, epoch, o, p);
    var e := Enter(s, o, p);
    ClassifyMarks(e, o, p);
    if !e.capacityLimited {
      EnteredTracks(e, Continued(epoch, o), o, p);
    }
  }

  lemma {:induction false} RunTracks(obs: seq<Observation>, p: Policy)
    requires p.mergeWindow <= p.history
    ensures var (s, log) := Run(obs, p); !s.capacityLimited ==> Tracks(s, CurrentEpoch(log), p)
  {
    if obs != [] {
      var o := obs[|obs| - 1];
      RunTracks(obs[..|obs| - 1], p);
      RunSound(obs[..|obs| - 1], p);
      var (s, log) := Run(obs[..|obs| - 1], p);
      var t := Step(s, o, p);
      if t.Accepted? {
        StepTracks(s, CurrentEpoch(log), o, p);
        CurrentEpochSnoc(log, Event(o, t.result));
      }
    }
  }

  lemma TracksRefines(s: State, epoch: seq<Event>, p: Policy)
    requires Tracks(s, epoch, p)
    ensures RefinesLog(s, epoch, p)
  {
    forall source | source in s.seen
      ensures RequestedSince(epoch, source, s.asOf - p.history)
    {
      var i :| 0 <= i < |epoch| && Requested(epoch[i], source) && epoch[i].o.at == s.seen[source].lastSeen;
    }
  }

  /** With merge windows inside the history horizon, a state that lost no capacity
      answers exactly as the full log of its epoch, after every sequence of observations. */
  lemma BoundedStateRefinesLog(obs: seq<Observation>, p: Policy)
    requires p.mergeWindow <= p.history
    ensures var (s, log) := Run(obs, p);
            var epoch := CurrentEpoch(log);
            (forall i :: 0 <= i < |epoch| ==> !IsCapacityEvent(epoch[i])) ==> RefinesLog(s, epoch, p)
  {
    RunSound(obs, p);
    RunTracks(obs, p);
    var (s, log) := Run(obs, p);
    if !s.capacityLimited {
      TracksRefines(s, CurrentEpoch(log), p);
    }
  }

  ghost predicate AlwaysRefines(p: Policy) {
    forall obs: seq<Observation> ::
      !Run(obs, p).0.capacityLimited ==> RefinesLog(Run(obs, p).0, CurrentEpoch(Run(obs, p).1), p)
  }

  function Ping(at: Instant): Observation {
    Observation(at, "s", "r", "c", "t", "v", true, true, true, true)
  }

  lemma RunSnoc(obs: seq<Observation>, o: Observation, p: Policy)
    ensures var (s, log) := Run(obs, p);
            Run(obs + [o], p) == match Step(s, o, p)
                                 case Rejected(_) => (s, log)
                                 case Accepted(s', r) => (s', log + [Event(o, r)])
  {
    assert (obs + [o])[..|obs|] == obs;
  }

  lemma FirstPing(p: Policy)
    requires ValidPolicy(p)
    ensures var t := Step(EMPTY, Ping(1), p);
            && t.Accepted? && t.result.logical && t.state.updates == [LogicalUpdate(KeyOf(Ping(1)), 1)]
            && t.state.seen == map["s" := SeenSource(1, 1, NoveltyUnknown, ZERO)]
            && SameVersions(t.state, Ping(1)) && t.state.rawRequests == 1 && t.state.logicalUpdates == 1
            && t.state.asOf == 1 && !t.state.capacityLimited
  {
  }

  lemma MergedPing(s: State, p: Policy)
    requires ValidPolicy(p) && p.mergeWindow > p.history
    requires SameVersions(s, Ping(1)) && s.rawRequests == 1 && s.logicalUpdates == 1 && s.asOf == 1 && !s.capacityLimited
    requires s.updates == [LogicalUpdate(KeyOf(Ping(1)), 1)]
    requires s.seen == map["s" := SeenSource(1, 1, NoveltyUnknown, ZERO)]
    ensures var t := Step(s, Ping(1 + p.history), p);
            t.Accepted? && "s" !in t.state.seen && t.state.asOf == 1 + p.history && !t.state.capacityLimited
  {
    var o := Ping(1 + p.history);
    var e := Enter(s, o, p);
    var horizon := o.at - p.mergeWindow;
    assert s.updates[..0] == [] && KeepRecent([], horizon) == [];
    assert KeepRecent(s.updates, horizon) == [s.updates[0]];
    assert e.updates[0].key == KeyOf(o);
  }

  lemma LastIsRequested(log: seq<Event>, last: Event, source: string, h: Instant)
    requires Requested(last, source) && last.o.at > h
    ensures RequestedSince(CurrentEpoch(log + [last]), source, h)
  {
    CurrentEpochSnoc(log, last);
    var epoch := CurrentEpoch(log + [last]);
    assert epoch[|epoch| - 1] == last;
  }

  /** A policy whose merge window outlives the history horizon forgets a source that is still
      requesting: the retry is merged after the entry expired, so nothing writes it back. */
  lemma LongMergeWindowForgets(p: Policy)
    requires ValidPolicy(p) && p.mergeWindow > p.history
    ensures var (s, log) := Run([Ping(1), Ping(1 + p.history)], p);
            && !s.capacityLimited && "s" !in s.seen
            && RequestedSince(CurrentEpoch(log), "s", s.asOf - p.history)
  {
    var o1, o2 := Ping(1), Ping(1 + p.history);
    FirstPing(p);
    RunSnoc([], o1, p);
    assert [] + [o1] == [o1];
    var (s1, log1) := Run([o1], p);
    MergedPing(s1, p);
    RunSnoc([o1], o2, p);
    assert [o1] + [o2] == [o1, o2];
    var (s2, log2) := Run([o1, o2], p);
    var last := Event(o2, Step(s1, o2, p).result);
    LastIsRequested(log1, last, "s", s2.asOf - p.history);
  }

  /** The exact condition under which the bounded state stands in for the log. */
  lemma RefinesIffMergeWithinHistory(p: Policy)
    requires ValidPolicy(p)
    ensures AlwaysRefines(p) <==> p.mergeWindow <= p.history
  {
    if p.mergeWindow <= p.history {
      forall obs: seq<Observation>
        ensures !Run(obs, p).0.capacityLimited ==> RefinesLog(Run(obs, p).0, CurrentEpoch(Run(obs, p).1), p)
      {
        RunSound(obs, p);
        BoundedStateRefinesLog(obs, p);
      }
    } else {
      LongMergeWindowForgets(p);
    }
  }
}
