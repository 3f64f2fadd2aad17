/** The bounded subscription-activity state of one account
    (internal/auditactivity/subscription.go).

    Instants are integers counted in nanoseconds, `ZERO` is Go's zero time. The pure
    functions below specify one observation; class `Tracker` is the object that
    updates its fields in place and is proved against them. */
module Subscription {

  import opened Common

  const MAX_SOURCES: nat := 32
  const MAX_UPDATE_KEYS: nat := 64
  const MAX_COUNTER: nat := 0xFFFF_FFFF_FFFF_FFFF

  const MINUTE: int := 60_000_000_000
  const HOUR: int := 60 * MINUTE
  const DAY: int := 24 * HOUR

  type Instant = int
  const ZERO: Instant := 0

  datatype Novelty = NoNovelty | Novel | Known | NoveltyUnknown

  datatype Policy = Policy(history: int, candidateLifetime: int, mergeWindow: int, repeatInterval: int)

  datatype SeenSource = SeenSource(lastSeen: Instant, firstSeen: Instant, novelty: Novelty, secondUpdate: Instant)

  datatype UpdateKey = UpdateKey(source: string, representation: string, revision: string)

  datatype LogicalUpdate = LogicalUpdate(key: UpdateKey, at: Instant)

  datatype State = State(
    tokenVersion: string, sourceVersion: string,
    historyStarted: Instant, historyUnknownUntil: Instant, asOf: Instant,
    seen: map<string, SeenSource>, updates: seq<LogicalUpdate>,
    rawRequests: nat, logicalUpdates: nat, capacityLimited: bool)

  datatype Observation = Observation(
    at: Instant, source: string, representation: string, revision: string,
    tokenVersion: string, sourceVersion: string,
    success: bool, identityTrusted: bool, sourceUsable: bool, historyComplete: bool)

  datatype Reason = NoReason | RequestNotSuccessful | SourceUnusable | RetryMerged | UpdateCapacity | SourceCapacity

  datatype UpdateResult = UpdateResult(logical: bool, novelty: Novelty, reason: Reason)

  datatype Error = InvalidPolicy | IdentityUntrusted | RequiresOrderedReplay | InvalidDimensions | CounterOverflow

  datatype Outcome = Rejected(error: Error) | Accepted(state: State, result: UpdateResult)

  const EMPTY := State("", "", ZERO, ZERO, ZERO, map[], [], 0, 0, false)

  predicate ValidPolicy(p: Policy) {
    && HOUR <= p.history <= 30 * DAY
    && MINUTE <= p.candidateLifetime <= DAY
    && 0 < p.mergeWindow <= p.repeatInterval < p.candidateLifetime
  }

  /** The checks made before anything is written. */
  function Refusal(s: State, o: Observation, p: Policy): Option<Error> {
    if !ValidPolicy(p) then Some(InvalidPolicy)
    else if !o.identityTrusted then Some(IdentityUntrusted)
    else if o.at == ZERO || (s.asOf != ZERO && o.at < s.asOf) then Some(RequiresOrderedReplay)
    else if o.tokenVersion == "" || |o.tokenVersion| > 128 || o.sourceVersion == "" || |o.sourceVersion| > 128
            || |o.source| > 128 || |o.representation| > 64 || |o.revision| > 128 then Some(InvalidDimensions)
    else if s.rawRequests == MAX_COUNTER || s.logicalUpdates == MAX_COUNTER then Some(CounterOverflow)
    else None
  }

  predicate SameVersions(s: State, o: Observation) {
    s.tokenVersion == o.tokenVersion && s.sourceVersion == o.sourceVersion
  }

  function Prune(seen: map<string, SeenSource>, horizon: Instant): map<string, SeenSource> {
    map source | source in seen && seen[source].lastSeen > horizon :: seen[source]
  }

  function KeepRecent(updates: seq<LogicalUpdate>, horizon: Instant): seq<LogicalUpdate> {
    if updates == [] then []
    else
      var front := KeepRecent(updates[..|updates| - 1], horizon);
      var last := updates[|updates| - 1];
      if last.at > horizon then front + [last] else front
  }

  /** A change of token or source version starts over from an empty history. */
  function Epoch(s: State, o: Observation): State {
    if SameVersions(s, o) then s
    else EMPTY.(tokenVersion := o.tokenVersion, sourceVersion := o.sourceVersion, historyStarted := o.at)
  }

  /** Epoch change, clock, gap marker and expiry: everything before the request is classified. */
  function Enter(s: State, o: Observation, p: Policy): State {
    var base := Epoch(s, o);
    base.(rawRequests := base.rawRequests + 1,
          asOf := o.at,
          historyUnknownUntil := if o.historyComplete then base.historyUnknownUntil else o.at + p.history,
          seen := Prune(base.seen, o.at - p.history),
          updates := KeepRecent(base.updates, o.at - p.mergeWindow))
  }

  function KeyOf(o: Observation): UpdateKey {
    UpdateKey(o.source, o.representation, o.revision)
  }

  predicate HasKey(updates: seq<LogicalUpdate>, key: UpdateKey) {
    exists i :: 0 <= i < |updates| && updates[i].key == key
  }

  predicate Usable(o: Observation) {
    o.success && o.sourceUsable && o.source != ""
  }

  function FirstNovelty(s: State, o: Observation, p: Policy): Novelty {
    if o.historyComplete && o.at >= s.historyStarted + p.history && o.at >= s.historyUnknownUntil then Novel
    else NoveltyUnknown
  }

  /** The entry written for a source that was already held. */
  function Refreshed(seen: SeenSource, at: Instant, p: Policy): SeenSource {
    var age := at - seen.firstSeen;
    var expired := if age >= p.candidateLifetime then seen.(novelty := Known, secondUpdate := ZERO) else seen;
    var repeated := if expired.secondUpdate == ZERO && p.repeatInterval <= age < p.candidateLifetime
                    then expired.(secondUpdate := at) else expired;
    repeated.(lastSeen := at)
  }

  /** Classification of a request against the entered state. */
  function Classify(s: State, o: Observation, p: Policy): (State, UpdateResult) {
    if !o.success then (s, UpdateResult(false, NoNovelty, RequestNotSuccessful))
    else if !Usable(o) then
      (s.(historyUnknownUntil := o.at + p.history), UpdateResult(false, NoveltyUnknown, SourceUnusable))
    else if HasKey(s.updates, KeyOf(o)) then
      (if o.source in s.seen then s.(seen := s.seen[o.source := s.seen[o.source].(lastSeen := o.at)]) else s,
       UpdateResult(false, NoNovelty, RetryMerged))
    else if |s.updates| >= MAX_UPDATE_KEYS then
      (s.(capacityLimited := true, historyUnknownUntil := o.at + p.history),
       UpdateResult(false, NoveltyUnknown, UpdateCapacity))
    else
      var s1 := s.(updates := s.updates + [LogicalUpdate(KeyOf(o), o.at)], logicalUpdates := s.logicalUpdates + 1);
      if o.source !in s.seen && |s.seen| >= MAX_SOURCES then
        (s1.(capacityLimited := true, historyUnknownUntil := o.at + p.history),
         UpdateResult(true, NoveltyUnknown, SourceCapacity))
      else
        var entry := if o.source in s.seen then Refreshed(s.seen[o.source], o.at, p)
                     else SeenSource(o.at, o.at, FirstNovelty(s, o, p), ZERO);
        (s1.(seen := s.seen[o.source := entry]), UpdateResult(true, entry.novelty, NoReason))
  }

  function Step(s: State, o: Observation, p: Policy): Outcome {
    match Refusal(s, o, p)
    case Some(e) => Rejected(e)
    case None => var (s', r) := Classify(Enter(s, o, p), o, p); Accepted(s', r)
  }

  // ----- The object -----

  class Tracker {
    var tokenVersion: string
    var sourceVersion: string
    var historyStarted: Instant
    var historyUnknownUntil: Instant
    var asOf: Instant
    var seen: map<string, SeenSource>
    var updates: seq<LogicalUpdate>
    var rawRequests: nat
    var logicalUpdates: nat
    var capacityLimited: bool

    constructor ()
      ensures Value() == EMPTY
    {
      tokenVersion, sourceVersion := "", "";
      historyStarted, historyUnknownUntil, asOf := ZERO, ZERO, ZERO;
      seen, updates := map[], [];
      rawRequests, logicalUpdates, capacityLimited := 0, 0, false;
    }

    function Value(): State
      reads this
    {
      State(tokenVersion, sourceVersion, historyStarted, historyUnknownUntil, asOf,
            seen, updates, rawRequests, logicalUpdates, capacityLimited)
    }

    /** Drops every source last seen at or before `horizon`. */
    method ExpireSeen(horizon: Instant)
      modifies this`seen
      ensures seen == Prune(old(seen), horizon)
    {
      var before := seen;
      var todo := seen.Keys;
      while todo != {}
        invariant todo <= before.Keys
        invariant seen == map source | source in before && (source in todo || before[source].lastSeen > horizon) :: before[source]
        decreases |todo|
      {
        var source :| source in todo;
        todo := todo - {source};
        if !(before[source].lastSeen > horizon) {
          seen := seen - {source};
        }
      }
    }

    /** Keeps the logical updates still inside the merge window, in order. */
    method ExpireUpdates(horizon: Instant)
      modifies this`updates
      ensures updates == KeepRecent(old(updates), horizon)
    {
      var keep: seq<LogicalUpdate> := [];
      for i := 0 to |updates|
        invariant updates == old(updates)
        invariant keep == KeepRecent(updates[..i], horizon)
      {
        assert updates[..i + 1][..i] == updates[..i];
        if updates[i].at > horizon {
          keep := keep + [updates[i]];
        }
      }
      assert updates[..|updates|] == updates;
      updates := keep;
    }

    method FindKey(key: UpdateKey) returns (found: bool)
      ensures found == HasKey(updates, key)
    {
      for i := 0 to |updates|
        invariant !HasKey(updates[..i], key)
      {
        if updates[i].key == key {
          return true;
        }
      }
      assert updates[..|updates|] == updates;
      return false;
    }

    method StartEpoch(o: Observation)
      modifies this
      ensures Value() == Epoch(old(Value()), o)
    {
      if tokenVersion != o.tokenVersion || sourceVersion != o.sourceVersion {
        tokenVersion, sourceVersion := o.tokenVersion, o.sourceVersion;
        historyStarted, historyUnknownUntil := o.at, ZERO;
        seen, updates := map[], [];
        rawRequests, logicalUpdates, capacityLimited := 0, 0, false;
        asOf := ZERO;
      }
    }

    /** Epoch change, counters, gap marker and both expiries. */
    method Begin(o: Observation, p: Policy)
      modifies this
      ensures Value() == Enter(old(Value()), o, p)
    {
      StartEpoch(o);
      rawRequests := rawRequests + 1;
      asOf := o.at;
      if !o.historyComplete {
        historyUnknownUntil := o.at + p.history;
      }
      ExpireSeen(o.at - p.history);
      ExpireUpdates(o.at - p.mergeWindow);
    }

    /** A usable request whose key is not in the merge window and for which there is room. */
    method Admit(o: Observation, p: Policy) returns (result: UpdateResult)
      requires Usable(o) && !HasKey(updates, KeyOf(o)) && |updates| < MAX_UPDATE_KEYS
      modifies this
      ensures (Value(), result) == Classify(old(Value()), o, p)
    {
      updates := updates + [LogicalUpdate(KeyOf(o), o.at)];
      logicalUpdates := logicalUpdates + 1;
      var entry := SeenSource(o.at, o.at, NoveltyUnknown, ZERO);
      if o.source !in seen {
        if |seen| >= MAX_SOURCES {
          capacityLimited := true;
          historyUnknownUntil := o.at + p.history;
          return UpdateResult(true, NoveltyUnknown, SourceCapacity);
        }
        if o.historyComplete && o.at >= historyStarted + p.history && o.at >= historyUnknownUntil {
          entry := entry.(novelty := Novel);
        }
      } else {
        entry := seen[o.source];
        if o.at - entry.firstSeen >= p.candidateLifetime {
          entry := entry.(novelty := Known, secondUpdate := ZERO);
        }
        if entry.secondUpdate == ZERO && p.repeatInterval <= o.at - entry.firstSeen < p.candidateLifetime {
          entry := entry.(secondUpdate := o.at);
        }
        entry := entry.(lastSeen := o.at);
      }
      seen := seen[o.source := entry];
      return UpdateResult(true, entry.novelty, NoReason);
    }

    /** Classifies a request against the entered state. */
    method Record(o: Observation, p: Policy) returns (result: UpdateResult)
      modifies this
      ensures (Value(), result) == Classify(old(Value()), o, p)
    {
      if !o.success {
        return UpdateResult(false, NoNovelty, RequestNotSuccessful);
      }
      if !o.sourceUsable || o.source == "" {
        historyUnknownUntil := o.at + p.history;
        return UpdateResult(false, NoveltyUnknown, SourceUnusable);
      }
      var merged := FindKey(KeyOf(o));
      if merged {
        if o.source in seen {
          seen := seen[o.source := seen[o.source].(lastSeen := o.at)];
        }
        return UpdateResult(false, NoNovelty, RetryMerged);
      }
      if |updates| >= MAX_UPDATE_KEYS {
        capacityLimited := true;
        historyUnknownUntil := o.at + p.history;
        return UpdateResult(false, NoveltyUnknown, UpdateCapacity);
      }
      result := Admit(o, p);
    }

    method Observe(o: Observation, p: Policy) returns (refusal: Option<Error>, result: UpdateResult)
      modifies this
      ensures match Step(old(Value()), o, p)
              case Rejected(e) => refusal == Some(e) && Value() == old(Value())
              case Accepted(s, r) => refusal == None && Value() == s && result == r
      ensures refusal.None? <==>
              && 3_600_000_000_000 <= p.history <= 2_592_000_000_000_000
              && 60_000_000_000 <= p.candidateLifetime <= 86_400_000_000_000
              && 0 < p.mergeWindow && p.mergeWindow <= p.repeatInterval && p.repeatInterval < p.candidateLifetime
              && o.identityTrusted && o.at != ZERO && (old(asOf) == ZERO || old(asOf) <= o.at)
              && 0 < |o.tokenVersion| <= 128 && 0 < |o.sourceVersion| <= 128
              && |o.source| <= 128 && |o.representation| <= 64 && |o.revision| <= 128
              && old(rawRequests) != 18_446_744_073_709_551_615 && old(logicalUpdates) != 18_446_744_073_709_551_615
    {
      result := UpdateResult(false, NoNovelty, NoReason);
      refusal := Refusal(Value(), o, p);
      if refusal.None? {
        Begin(o, p);
        result := Record(o, p);
      }
    }

    /** Bounds on the number of new, repeatedly updating sources. */
    method CandidateBounds(at: Instant, p: Policy) returns (refusal: Option<Error>, lo: nat, hi: nat)
      ensures refusal == (if !ValidPolicy(p) then Some(InvalidPolicy)
                          else if at < asOf then Some(RequiresOrderedReplay) else None)
      ensures refusal.None? ==>
        && lo == |Candidates(seen, at, p, {Novel})|
        && hi == (if capacityLimited && at < historyUnknownUntil then MAX_SOURCES
                  else |Candidates(seen, at, p, {Novel, NoveltyUnknown})|)
    {
      lo, hi := 0, 0;
      if !ValidPolicy(p) {
        return Some(InvalidPolicy), 0, 0;
      }
      if at < asOf {
        return Some(RequiresOrderedReplay), 0, 0;
      }
      refusal := None;
      var todo := seen.Keys;
      ghost var done: map<string, SeenSource> := map[];
      while todo != {}
        invariant todo <= seen.Keys
        invariant done == map source | source in seen && source !in todo :: seen[source]
        invariant lo == |Candidates(done, at, p, {Novel})|
        invariant hi == |Candidates(done, at, p, {Novel, NoveltyUnknown})|
        decreases |todo|
      {
        var source :| source in todo;
        CandidatesAdd(done, source, seen[source], at, p, {Novel});
        CandidatesAdd(done, source, seen[source], at, p, {Novel, NoveltyUnknown});
        done := done[source := seen[source]];
        todo := todo - {source};
        var entry := seen[source];
        if at - entry.firstSeen >= p.candidateLifetime || entry.secondUpdate == ZERO {
          continue;
        }
        if entry.novelty == Novel {
          lo, hi := lo + 1, hi + 1;
        } else if entry.novelty == NoveltyUnknown {
          hi := hi + 1;
        }
      }
      assert done == seen;
      if capacityLimited && at < historyUnknownUntil {
        hi := MAX_SOURCES;
      }
    }
  }

  // ----- Candidates -----

  predicate IsCandidate(entry: SeenSource, at: Instant, p: Policy, kinds: set<Novelty>) {
    at - entry.firstSeen < p.candidateLifetime && entry.secondUpdate != ZERO && entry.novelty in kinds
  }

  function Candidates(seen: map<string, SeenSource>, at: Instant, p: Policy, kinds: set<Novelty>): set<string> {
    set source | source in seen && IsCandidate(seen[source], at, p, kinds)
  }

  lemma CandidatesAdd(seen: map<string, SeenSource>, source: string, entry: SeenSource, at: Instant, p: Policy, kinds: set<Novelty>)
    requires source !in seen
    ensures |Candidates(seen[source := entry], at, p, kinds)|
            == |Candidates(seen, at, p, kinds)| + if IsCandidate(entry, at, p, kinds) then 1 else 0
  {
    assert Candidates(seen[source := entry], at, p, kinds)
           == Candidates(seen, at, p, kinds) + if IsCandidate(entry, at, p, kinds) then {source} else {};
  }
}
