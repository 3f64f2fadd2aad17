/** The other directions: whatever the log proves new is called new and counted, and retries are
    merged exactly when the log shows a recent update with the same key. */
module SubscriptionNovel {

  import opened Common
  import opened Subscription
  import opened SubscriptionLog
  import opened SubscriptionUpper

  // ----- Invariants -----

  predicate GapEndsAt(epoch: seq<Event>, until: Instant, p: Policy) {
    exists i :: 0 <= i < |epoch| && IsGap(epoch[i]) && epoch[i].o.at + p.history == until
  }

  /** The gap horizon is that of some gap, if there is one. */
  ghost predicate GapAttained(s: State, epoch: seq<Event>, p: Policy) {
    s.historyUnknownUntil == ZERO || GapEndsAt(epoch, s.historyUnknownUntil, p)
  }

  /** An update that had room for its source. */
  predicate IsEntered(e: Event) {
    Usable(e.o) && e.r.logical && !e.r.reason.SourceCapacity?
  }

  /** A source with such an update inside the history is held. */
  predicate Kept(s: State, epoch: seq<Event>, p: Policy) {
    forall i :: 0 <= i < |epoch| && IsEntered(epoch[i]) && epoch[i].o.at > s.asOf - p.history ==>
      epoch[i].o.source in s.seen && epoch[i].o.at <= s.seen[epoch[i].o.source].lastSeen
  }

  predicate EnteredAt(epoch: seq<Event>, source: string, at: Instant) {
    exists i :: 0 <= i < |epoch| && IsEntered(epoch[i]) && epoch[i].o.source == source && epoch[i].o.at == at
  }

  ghost predicate FirstLogged(s: State, epoch: seq<Event>) {
    forall source :: source in s.seen ==> EnteredAt(epoch, source, s.seen[source].firstSeen)
  }

  predicate HasRepeat(epoch: seq<Event>, source: string, first: Instant, p: Policy) {
    exists g: nat :: g < |epoch| && IsRepeat(epoch, g, source, first, epoch[g].o.at, p)
  }

  /** An entry the log proves new is marked new, and knows of its repetition. */
  predicate EntryKnows(seen: map<string, SeenSource>, epoch: seq<Event>, source: string, p: Policy)
    requires source in seen
  {
    seen[source].novelty == Novel && (HasRepeat(epoch, source, seen[source].firstSeen, p) ==> seen[source].secondUpdate != ZERO)
  }

  predicate IsProvenEntry(s: State, epoch: seq<Event>, source: string, f: nat, p: Policy)
    requires source in s.seen
  {
    && ProvenNew(epoch, f, source, p) && epoch[f].o.at == s.seen[source].firstSeen > ZERO
    && s.asOf - s.seen[source].firstSeen < p.candidateLifetime
  }

  ghost predicate NovelComplete(s: State, epoch: seq<Event>, p: Policy) {
    forall source: string, f: nat :: source in s.seen && IsProvenEntry(s, epoch, source, f, p) ==> EntryKnows(s.seen, epoch, source, p)
  }

  // ----- One step -----

  lemma GapNext(b: State, e: State, epoch: seq<Event>, o: Observation, p: Policy, s: State, r: UpdateResult)
    requires GapAttained(b, epoch, p) && MarksKept(e, o, p, s, r)
    requires e.historyUnknownUntil == if o.historyComplete then b.historyUnknownUntil else o.at + p.history
    ensures GapAttained(s, epoch + [Event(o, r)], p)
  {
    var last := Event(o, r);
    var next := epoch + [last];
    assert next[|epoch|] == last && forall i :: 0 <= i < |epoch| ==> next[i] == epoch[i];
    if IsGap(last) {
      assert s.historyUnknownUntil == o.at + p.history;
      assert GapEndsAt(next, o.at + p.history, p);
    } else if GapEndsAt(epoch, b.historyUnknownUntil, p) {
      var i :| 0 <= i < |epoch| && IsGap(epoch[i]) && epoch[i].o.at + p.history == b.historyUnknownUntil;
      assert IsGap(next[i]);
    }
  }

  lemma KeptNext(b: State, e: State, epoch: seq<Event>, o: Observation, p: Policy, s: State, r: UpdateResult)
    requires Kept(b, epoch, p) && Entered(b, e, epoch, o, p) && s.asOf == o.at && p.history > 0
    requires forall source: string :: EntryMoves(e, o, p, s, r, source)
    ensures Kept(s, epoch + [Event(o, r)], p)
  {
    var last := Event(o, r);
    var next := epoch + [last];
    forall i | 0 <= i < |next| && IsEntered(next[i]) && next[i].o.at > s.asOf - p.history
      ensures next[i].o.source in s.seen && next[i].o.at <= s.seen[next[i].o.source].lastSeen
    {
      var source := next[i].o.source;
      assert EntryMoves(e, o, p, s, r, source);
      if i < |epoch| {
        assert next[i] == epoch[i];
        assert source in b.seen && source in e.seen;
      } else {
        assert next[i] == last;
      }
    }
  }

  lemma EnteredAtSnoc(epoch: seq<Event>, last: Event, source: string, at: Instant)
    ensures EnteredAt(epoch, source, at) ==> EnteredAt(epoch + [last], source, at)
    ensures IsEntered(last) && last.o.source == source ==> EnteredAt(epoch + [last], source, last.o.at)
  {
    var next := epoch + [last];
    assert next[|epoch|] == last && forall i :: 0 <= i < |epoch| ==> next[i] == epoch[i];
  }

  lemma FirstNext(b: State, e: State, epoch: seq<Event>, o: Observation, p: Policy, s: State, r: UpdateResult, source: string)
    requires FirstLogged(b, epoch) && Entered(b, e, epoch, o, p) && EntryMoves(e, o, p, s, r, source) && source in s.seen
    ensures EnteredAt(epoch + [Event(o, r)], source, s.seen[source].firstSeen)
  {
    EnteredAtSnoc(epoch, Event(o, r), source, s.seen[source].firstSeen);
  }

  /** What the log shows before the request is unchanged by it. */
  lemma ProvenInPrefix(epoch: seq<Event>, last: Event, f: nat, source: string, p: Policy)
    requires f < |epoch|
    ensures ProvenNew(epoch + [last], f, source, p) <==> ProvenNew(epoch, f, source, p)
  {
    var next := epoch + [last];
    assert next[|epoch|] == last && forall i :: 0 <= i < |epoch| ==> next[i] == epoch[i];
  }

  lemma RepeatInPrefix(epoch: seq<Event>, last: Event, source: string, first: Instant, p: Policy)
    ensures HasRepeat(epoch + [last], source, first, p) ==>
              HasRepeat(epoch, source, first, p)
              || (Requested(last, source) && last.r.logical && p.repeatInterval <= last.o.at - first < p.candidateLifetime)
  {
    var next := epoch + [last];
    assert next[|epoch|] == last && forall i :: 0 <= i < |epoch| ==> next[i] == epoch[i];
    if HasRepeat(next, source, first, p) {
      var g: nat :| g < |next| && IsRepeat(next, g, source, first, next[g].o.at, p);
      if g < |epoch| {
        assert IsRepeat(epoch, g, source, first, epoch[g].o.at, p);
      }
    }
  }

  /** A first update that the log proves new is called new. */
  lemma FirstIsNovel(b: State, e: State, epoch: seq<Event>, o: Observation, r: UpdateResult, p: Policy)
    requires ValidPolicy(p) && o.at > ZERO && GapAttained(b, epoch, p) && (epoch != [] ==> b.historyStarted == epoch[0].o.at)
    requires e.historyStarted == b.historyStarted
    requires e.historyUnknownUntil == if o.historyComplete then b.historyUnknownUntil else o.at + p.history
    requires ProvenNew(epoch + [Event(o, r)], |epoch|, o.source, p)
    ensures FirstNovelty(e, o, p) == Novel
  {
    var last := Event(o, r);
    var next := epoch + [last];
    assert next[|epoch|] == last && forall i :: 0 <= i < |epoch| ==> next[i] == epoch[i];
    assert epoch != [];
    if b.historyUnknownUntil != ZERO {
      var i :| 0 <= i < |epoch| && IsGap(epoch[i]) && epoch[i].o.at + p.history == b.historyUnknownUntil;
      assert IsGap(next[i]);
    }
  }

  /** The entry of an earlier first update keeps what it knows. */
  lemma EarlierKnows(b: State, e: State, epoch: seq<Event>, o: Observation, p: Policy, s: State, r: UpdateResult, source: string, f: nat)
    requires ValidPolicy(p) && NovelComplete(b, epoch, p) && Entered(b, e, epoch, o, p) && s.asOf == o.at
    requires EntryMoves(e, o, p, s, r, source) && source in s.seen && source in e.seen
    requires f < |epoch| && IsProvenEntry(s, epoch + [Event(o, r)], source, f, p)
    ensures EntryKnows(s.seen, epoch + [Event(o, r)], source, p)
  {
    var last := Event(o, r);
    ProvenInPrefix(epoch, last, f, source, p);
    RepeatInPrefix(epoch, last, source, s.seen[source].firstSeen, p);
    assert (epoch + [last])[f] == epoch[f];
    assert b.seen[source] == e.seen[source];
    assert IsProvenEntry(b, epoch, source, f, p);
  }

  /** A proven first update has an entry as soon as it is made, and so cannot open one later. */
  lemma ProvenIsHeld(b: State, e: State, epoch: seq<Event>, o: Observation, p: Policy, f: nat, source: string)
    requires ValidPolicy(p) && Kept(b, epoch, p) && Entered(b, e, epoch, o, p)
    requires ProvenNew(epoch, f, source, p) && epoch[f].o.at > o.at - p.history
    ensures source in e.seen
  {
    assert IsEntered(epoch[f]);
  }

  /** The latest update, when it is proven new, opened its entry. */
  lemma LatestKnows(b: State, e: State, epoch: seq<Event>, o: Observation, p: Policy, s: State, r: UpdateResult)
    requires ValidPolicy(p) && o.at > ZERO && GapAttained(b, epoch, p) && (epoch != [] ==> b.historyStarted == epoch[0].o.at)
    requires e.historyStarted == b.historyStarted
    requires e.historyUnknownUntil == if o.historyComplete then b.historyUnknownUntil else o.at + p.history
    requires Entered(b, e, epoch, o, p) && EntryMoves(e, o, p, s, r, o.source) && o.source in s.seen && o.source !in e.seen
    requires ProvenNew(epoch + [Event(o, r)], |epoch|, o.source, p)
    ensures EntryKnows(s.seen, epoch + [Event(o, r)], o.source, p)
  {
    var last := Event(o, r);
    var next := epoch + [last];
    assert next[|epoch|] == last && forall i :: 0 <= i < |epoch| ==> next[i] == epoch[i];
    FirstIsNovel(b, e, epoch, o, r, p);
    assert forall g: nat :: g < |next| ==> next[g].o.at <= o.at;
  }

  lemma LatestIsFirst(b: State, e: State, epoch: seq<Event>, o: Observation, p: Policy, s: State, r: UpdateResult, source: string)
    requires ValidPolicy(p) && FirstLogged(b, epoch) && Entered(b, e, epoch, o, p) && EntryMoves(e, o, p, s, r, source)
    requires source in s.seen && s.seen[source].firstSeen == o.at
    requires ProvenNew(epoch + [Event(o, r)], |epoch|, source, p)
    ensures source == o.source && source !in e.seen
  {
    var last := Event(o, r);
    var next := epoch + [last];
    assert next[|epoch|] == last && forall i :: 0 <= i < |epoch| ==> next[i] == epoch[i];
    assert source in e.seen ==> EnteredAt(epoch, source, e.seen[source].firstSeen);
  }

  /** Everything the step lemmas need to know about the state before and after entering. */
  ghost predicate Ready(b: State, e: State, epoch: seq<Event>, o: Observation, p: Policy) {
    && ValidPolicy(p) && Entered(b, e, epoch, o, p) && e.asOf == o.at
    && GapAttained(b, epoch, p) && Kept(b, epoch, p) && FirstLogged(b, epoch) && NovelComplete(b, epoch, p)
    && (epoch != [] ==> b.historyStarted == epoch[0].o.at) && e.historyStarted == b.historyStarted
    && e.historyUnknownUntil == if o.historyComplete then b.historyUnknownUntil else o.at + p.history
  }

  lemma KnowsNext(b: State, e: State, epoch: seq<Event>, o: Observation, p: Policy, s: State, r: UpdateResult, source: string, f: nat)
    requires Ready(b, e, epoch, o, p) && s.asOf == o.at && EntryMoves(e, o, p, s, r, source)
    requires source in s.seen && IsProvenEntry(s, epoch + [Event(o, r)], source, f, p)
    ensures EntryKnows(s.seen, epoch + [Event(o, r)], source, p)
  {
    var last := Event(o, r);
    var next := epoch + [last];
    assert next[|epoch|] == last && forall i :: 0 <= i < |epoch| ==> next[i] == epoch[i];
    if f == |epoch| {
      LatestIsFirst(b, e, epoch, o, p, s, r, source);
      LatestKnows(b, e, epoch, o, p, s, r);
    } else {
      ProvenInPrefix(epoch, last, f, source, p);
      if source !in e.seen {
        assert epoch[f].o.at == o.at;
        ProvenIsHeld(b, e, epoch, o, p, f, source);
      } else {
        EarlierKnows(b, e, epoch, o, p, s, r, source, f);
      }
    }
  }

  ghost predicate AllNovel(s: State, epoch: seq<Event>, p: Policy) {
    GapAttained(s, epoch, p) && Kept(s, epoch, p) && FirstLogged(s, epoch) && NovelComplete(s, epoch, p)
  }

  lemma StepNovel(b: State, e: State, epoch: seq<Event>, o: Observation, p: Policy)
    requires Ready(b, e, epoch, o, p)
    ensures var (s, r) := Classify(e, o, p); AllNovel(s, epoch + [Event(o, r)], p)
  {
    var (s, r) := Classify(e, o, p);
    ClassifyMarks(e, o, p);
    forall source: string
      ensures EntryMoves(e, o, p, s, r, source)
    {
      ClassifyMoves(e, o, p, source);
    }
    GapNext(b, e, epoch, o, p, s, r);
    KeptNext(b, e, epoch, o, p, s, r);
    forall source | source in s.seen
      ensures EnteredAt(epoch + [Event(o, r)], source, s.seen[source].firstSeen)
    {
      FirstNext(b, e, epoch, o, p, s, r, source);
    }
    forall source: string, f: nat | source in s.seen && IsProvenEntry(s, epoch + [Event(o, r)], source, f, p)
      ensures EntryKnows(s.seen, epoch + [Event(o, r)], source, p)
    {
      KnowsNext(b, e, epoch, o, p, s, r, source, f);
    }
  }

  // ----- Every run -----

  lemma EpochReady(s: State, epoch: seq<Event>, o: Observation, p: Policy)
    requires AtLast(s, epoch) && Sound(s, epoch, p, s.asOf) && Refusal(s, o, p).None? && AllNovel(s, epoch, p) && Logged(s, epoch)
    ensures Ready(Epoch(s, o), Enter(s, o, p), Continued(epoch, o), o, p)
  {
    EpochSound(s, epoch, o, p);
    EpochCovers(s, epoch, o, p);
  }

  lemma {:induction false} RunNovel(obs: seq<Observation>, p: Policy)
    ensures var (s, log) := Run(obs, p); AllNovel(s, CurrentEpoch(log), p)
  {
    if obs != [] {
      var o := obs[|obs| - 1];
      RunNovel(obs[..|obs| - 1], p);
      RunSound(obs[..|obs| - 1], p);
      EntriesLogged(obs[..|obs| - 1], p);
      var (s, log) := Run(obs[..|obs| - 1], p);
      var t := Step(s, o, p);
      if t.Accepted? {
        EpochReady(s, CurrentEpoch(log), o, p);
        StepNovel(Epoch(s, o), Enter(s, o, p), Continued(CurrentEpoch(log), o), o, p);
        CurrentEpochSnoc(log, Event(o, t.result));
      }
    }
  }

  /** Over all runs, an observation that creates an entry marks it new iff the log proves it: the epoch
      began a whole history earlier, no gap fell inside that history, and the source made no logical
      update inside it. */
  lemma NoveltyIffProven(obs: seq<Observation>, o: Observation, p: Policy)
    requires o.at > ZERO
    requires var s := Run(obs, p).0;
             Step(s, o, p).Accepted? && o.source in Step(s, o, p).state.seen && o.source !in Enter(s, o, p).seen
    ensures var (s, log) := Run(obs, p);
            var t := Step(s, o, p);
            var epoch := CurrentEpoch(log + [Event(o, t.result)]);
            t.state.seen[o.source].novelty == Novel <==> ProvenNew(epoch, |epoch| - 1, o.source, p)
  {
    var (s, log) := Run(obs, p);
    var t := Step(s, o, p);
    NoveltySound(obs, o, p);
    RunNovel(obs, p);
    RunSound(obs, p);
    EntriesLogged(obs, p);
    CurrentEpochSnoc(log, Event(o, t.result));
    var b, e, cont := Epoch(s, o), Enter(s, o, p), Continued(CurrentEpoch(log), o);
    EpochReady(s, CurrentEpoch(log), o, p);
    ClassifyMoves(e, o, p, o.source);
    if ProvenNew(cont + [Event(o, t.result)], |cont|, o.source, p) {
      FirstIsNovel(b, e, cont, o, t.result, p);
    }
  }

  /** The log proves the standing entry of `source` new and shows its repetition in time. */
  ghost predicate StandsProven(s: State, epoch: seq<Event>, source: string, at: Instant, p: Policy) {
    source in s.seen && exists f: nat, g: nat :: ProvenCandidate(epoch, f, g, source, at, p) && epoch[f].o.at == s.seen[source].firstSeen
  }

  /** Over all runs, the lower candidate bound counts exactly the sources whose standing entry the log
      proves new and repeated in time. */
  lemma LowerBoundExact(obs: seq<Observation>, at: Instant, p: Policy, source: string)
    requires Run(obs, p).0.asOf <= at
    requires source in Run(obs, p).0.seen ==> Run(obs, p).0.seen[source].firstSeen > ZERO
    ensures var (s, log) := Run(obs, p);
            source in Candidates(s.seen, at, p, {Novel}) <==> StandsProven(s, CurrentEpoch(log), source, at, p)
  {
    RunSound(obs, p);
    RunRepeats(obs, p);
    RunNovel(obs, p);
    var (s, log) := Run(obs, p);
    var epoch := CurrentEpoch(log);
    if source in Candidates(s.seen, at, p, {Novel}) {
      var f: nat :| ProvenNew(epoch, f, source, p) && epoch[f].o.at == s.seen[source].firstSeen;
      var g: nat :| IsRepeat(epoch, g, source, s.seen[source].firstSeen, s.seen[source].secondUpdate, p);
      assert ProvenCandidate(epoch, f, g, source, at, p);
    }
    if StandsProven(s, epoch, source, at, p) {
      var f: nat, g: nat :| ProvenCandidate(epoch, f, g, source, at, p) && epoch[f].o.at == s.seen[source].firstSeen;
      assert IsProvenEntry(s, epoch, source, f, p);
      assert HasRepeat(epoch, source, s.seen[source].firstSeen, p);
    }
  }

  // ----- Ageing -----

  /** A logical update of `source` a whole lifetime after `first`. */
  predicate HasLate(epoch: seq<Event>, source: string, first: Instant, p: Policy) {
    exists i :: 0 <= i < |epoch| && Requested(epoch[i], source) && epoch[i].r.logical
                && epoch[i].o.at - first >= p.candidateLifetime
  }

  ghost predicate KnownWhenLate(s: State, epoch: seq<Event>, p: Policy) {
    forall source :: source in s.seen ==> (s.seen[source].novelty == Known <==> HasLate(epoch, source, s.seen[source].firstSeen, p))
  }

  lemma HasLateSnoc(epoch: seq<Event>, last: Event, source: string, first: Instant, p: Policy)
    ensures HasLate(epoch + [last], source, first, p) <==>
            HasLate(epoch, source, first, p)
            || (Requested(last, source) && last.r.logical && last.o.at - first >= p.candidateLifetime)
  {
    var next := epoch + [last];
    assert next[|epoch|] == last && forall i :: 0 <= i < |epoch| ==> next[i] == epoch[i];
  }

  lemma KnownNext(b: State, e: State, epoch: seq<Event>, o: Observation, p: Policy, s: State, r: UpdateResult, source: string)
    requires ValidPolicy(p) && KnownWhenLate(b, epoch, p) && Entered(b, e, epoch, o, p) && EntryMoves(e, o, p, s, r, source)
    requires source in s.seen
    ensures s.seen[source].novelty == Known <==> HasLate(epoch + [Event(o, r)], source, s.seen[source].firstSeen, p)
  {
    HasLateSnoc(epoch, Event(o, r), source, s.seen[source].firstSeen, p);
  }

  lemma EpochKnown(s: State, epoch: seq<Event>, o: Observation, p: Policy)
    requires AtLast(s, epoch) && Sound(s, epoch, p, s.asOf) && Refusal(s, o, p).None? && Logged(s, epoch)
    requires KnownWhenLate(s, epoch, p)
    ensures ValidPolicy(p) && KnownWhenLate(Epoch(s, o), Continued(epoch, o), p)
    ensures Entered(Epoch(s, o), Enter(s, o, p), Continued(epoch, o), o, p)
  {
    EpochCovers(s, epoch, o, p);
  }

  /** Over all runs, an entry is known iff its source made a logical update a whole candidate lifetime
      after the entry was created. */
  lemma {:induction false} KnownIffLate(obs: seq<Observation>, p: Policy)
    ensures var (s, log) := Run(obs, p); KnownWhenLate(s, CurrentEpoch(log), p)
  {
    if obs != [] {
      var o := obs[|obs| - 1];
      KnownIffLate(obs[..|obs| - 1], p);
      RunSound(obs[..|obs| - 1], p);
      EntriesLogged(obs[..|obs| - 1], p);
      var (s, log) := Run(obs[..|obs| - 1], p);
      var t := Step(s, o, p);
      if t.Accepted? {
        var b, e, cont := Epoch(s, o), Enter(s, o, p), Continued(CurrentEpoch(log), o);
        EpochKnown(s, CurrentEpoch(log), o, p);
        forall source | source in t.state.seen
          ensures t.state.seen[source].novelty == Known <==>
                  HasLate(cont + [Event(o, t.result)], source, t.state.seen[source].firstSeen, p)
        {
          ClassifyMoves(e, o, p, source);
          KnownNext(b, e, cont, o, p, t.state, t.result, source);
        }
        CurrentEpochSnoc(log, Event(o, t.result));
      }
    }
  }

  // ----- Merging retries -----

  predicate IsRecentUpdate(epoch: seq<Event>, u: LogicalUpdate, horizon: Instant) {
    u.at > horizon && exists i :: 0 <= i < |epoch| && epoch[i].r.logical && KeyOf(epoch[i].o) == u.key && epoch[i].o.at == u.at
  }

  /** The open merge windows are exactly the logical updates inside the window. */
  ghost predicate WindowsAreUpdates(updates: seq<LogicalUpdate>, epoch: seq<Event>, horizon: Instant) {
    forall u :: u in updates <==> IsRecentUpdate(epoch, u, horizon)
  }

  lemma {:induction false} KeepRecentExact(updates: seq<LogicalUpdate>, horizon: Instant, u: LogicalUpdate)
    ensures u in KeepRecent(updates, horizon) <==> u in updates && u.at > horizon
  {
    if updates != [] {
      var n := |updates| - 1;
      KeepRecentExact(updates[..n], horizon, u);
      assert updates == updates[..n] + [updates[n]];
    }
  }

  lemma RecentSnoc(epoch: seq<Event>, last: Event, u: LogicalUpdate, horizon: Instant)
    ensures IsRecentUpdate(epoch + [last], u, horizon) <==>
            IsRecentUpdate(epoch, u, horizon) || (u.at > horizon && last.r.logical && u == LogicalUpdate(KeyOf(last.o), last.o.at))
  {
    var next := epoch + [last];
    assert next[|epoch|] == last && forall i :: 0 <= i < |epoch| ==> next[i] == epoch[i];
  }

  lemma ClassifyUpdates(e: State, o: Observation, p: Policy)
    ensures var (s, r) := Classify(e, o, p);
            && s.updates == (if r.logical then e.updates + [LogicalUpdate(KeyOf(o), o.at)] else e.updates)
            && (Usable(o) ==> (r.reason.RetryMerged? <==> HasKey(e.updates, KeyOf(o))))
            && (r.reason.RetryMerged? ==> !r.logical)
            && (Usable(o) ==> (r.logical <==> !r.reason.RetryMerged? && |e.updates| < MAX_UPDATE_KEYS))
  {
  }

  lemma EnterWindows(b: State, e: State, epoch: seq<Event>, o: Observation, p: Policy)
    requires WindowsAreUpdates(b.updates, epoch, b.asOf - p.mergeWindow) && (epoch != [] ==> b.asOf <= o.at)
    requires e.updates == KeepRecent(b.updates, o.at - p.mergeWindow)
    ensures WindowsAreUpdates(e.updates, epoch, o.at - p.mergeWindow)
  {
    forall u
      ensures u in e.updates <==> IsRecentUpdate(epoch, u, o.at - p.mergeWindow)
    {
      KeepRecentExact(b.updates, o.at - p.mergeWindow, u);
      assert u in b.updates <==> IsRecentUpdate(epoch, u, b.asOf - p.mergeWindow);
    }
  }

  lemma StepWindows(e: State, epoch: seq<Event>, o: Observation, p: Policy)
    requires WindowsAreUpdates(e.updates, epoch, o.at - p.mergeWindow) && p.mergeWindow > 0
    ensures var (s, r) := Classify(e, o, p); WindowsAreUpdates(s.updates, epoch + [Event(o, r)], o.at - p.mergeWindow)
  {
    var (s, r) := Classify(e, o, p);
    ClassifyUpdates(e, o, p);
    forall u
      ensures u in s.updates <==> IsRecentUpdate(epoch + [Event(o, r)], u, o.at - p.mergeWindow)
    {
      RecentSnoc(epoch, Event(o, r), u, o.at - p.mergeWindow);
    }
  }

  lemma EpochWindows(s: State, epoch: seq<Event>, o: Observation, p: Policy)
    requires AtLast(s, epoch) && Refusal(s, o, p).None?
    requires WindowsAreUpdates(s.updates, epoch, s.asOf - p.mergeWindow)
    ensures WindowsAreUpdates(Enter(s, o, p).updates, Continued(epoch, o), o.at - p.mergeWindow)
  {
    var b, cont := Epoch(s, o), Continued(epoch, o);
    assert WindowsAreUpdates(b.updates, cont, b.asOf - p.mergeWindow);
    EnterWindows(b, Enter(s, o, p), cont, o, p);
  }

  lemma {:induction false} RunWindows(obs: seq<Observation>, p: Policy)
    ensures var (s, log) := Run(obs, p); WindowsAreUpdates(s.updates, CurrentEpoch(log), s.asOf - p.mergeWindow)
  {
    if obs != [] {
      var o := obs[|obs| - 1];
      RunWindows(obs[..|obs| - 1], p);
      RunSound(obs[..|obs| - 1], p);
      var (s, log) := Run(obs[..|obs| - 1], p);
      var t := Step(s, o, p);
      if t.Accepted? {
        EpochWindows(s, CurrentEpoch(log), o, p);
        StepWindows(Enter(s, o, p), Continued(CurrentEpoch(log), o), o, p);
        ClassifyMarks(Enter(s, o, p), o, p);
        CurrentEpochSnoc(log, Event(o, t.result));
      }
    }
  }

  predicate RecentlyUpdated(epoch: seq<Event>, key: UpdateKey, horizon: Instant) {
    exists i :: 0 <= i < |epoch| && epoch[i].r.logical && KeyOf(epoch[i].o) == key && epoch[i].o.at > horizon
  }

  lemma HasKeyIffRecent(updates: seq<LogicalUpdate>, epoch: seq<Event>, key: UpdateKey, horizon: Instant)
    requires WindowsAreUpdates(updates, epoch, horizon)
    ensures HasKey(updates, key) <==> RecentlyUpdated(epoch, key, horizon)
  {
    if HasKey(updates, key) {
      var i :| 0 <= i < |updates| && updates[i].key == key;
      assert updates[i] in updates;
    }
    if RecentlyUpdated(epoch, key, horizon) {
      var i :| 0 <= i < |epoch| && epoch[i].r.logical && KeyOf(epoch[i].o) == key && epoch[i].o.at > horizon;
      var u := LogicalUpdate(key, epoch[i].o.at);
      assert IsRecentUpdate(epoch, u, horizon);
      assert u in updates;
    }
  }

  /** Over all runs, a usable request is merged as a retry iff the current epoch's log has a logical
      update with the same source, representation and revision inside the merge window. */
  lemma MergedIffRecentlyUpdated(obs: seq<Observation>, o: Observation, p: Policy)
    requires Usable(o) && Step(Run(obs, p).0, o, p).Accepted?
    ensures var (s, log) := Run(obs, p);
            Step(s, o, p).result.reason.RetryMerged? <==>
            RecentlyUpdated(Continued(CurrentEpoch(log), o), KeyOf(o), o.at - p.mergeWindow)
  {
    RunWindows(obs, p);
    RunSound(obs, p);
    var (s, log) := Run(obs, p);
    var e, cont := Enter(s, o, p), Continued(CurrentEpoch(log), o);
    EpochWindows(s, CurrentEpoch(log), o, p);
    ClassifyUpdates(e, o, p);
    HasKeyIffRecent(e.updates, cont, KeyOf(o), o.at - p.mergeWindow);
  }
}
