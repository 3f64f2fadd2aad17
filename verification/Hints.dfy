/** Merged delivery hints (internal/controller/access_sync_hints.go). Noting and draining hold one
    lock, so any interleaving of callers is a sequence of notes and drains. */
module Hints {

  import opened Common

  const REASON_RECOVERY := "recovery"
  const REASON_CHANGE := "change"
  const REASON_DEADLINE := "deadline"
  const REASON_REVOKE := "revoke"
  const REASON_RECONNECT := "reconnect"

  datatype Hint = Hint(id: int, reason: string, priority: int, force: bool)

  function Priority(reason: string): int {
    if reason == REASON_REVOKE then 40
    else if reason == REASON_RECONNECT then 30
    else if reason == REASON_DEADLINE then 20
    else if reason == REASON_CHANGE then 10
    else 0
  }

  predicate Forces(reason: string) {
    reason == REASON_RECONNECT || reason == REASON_REVOKE
  }

  predicate Declared(reason: string) {
    || reason == REASON_RECOVERY || reason == REASON_CHANGE || reason == REASON_DEADLINE
    || reason == REASON_REVOKE || reason == REASON_RECONNECT
  }

  lemma PriorityFacts(a: string, b: string)
    ensures Priority(a) >= 0 && (Forces(a) <==> Priority(a) >= 30)
    ensures Declared(a) && Declared(b) && Priority(a) == Priority(b) ==> a == b
  {
    assert |REASON_REVOKE| == 6 && |REASON_RECONNECT| == 9 && |REASON_DEADLINE| == 8;
    assert REASON_REVOKE != REASON_CHANGE by {
      assert REASON_REVOKE[0] == 'r' && REASON_CHANGE[0] == 'c';
    }
    assert REASON_DEADLINE != REASON_RECOVERY by {
      assert REASON_DEADLINE[0] == 'd' && REASON_RECOVERY[0] == 'r';
    }
  }

  /** A revocation goes first, then a reconnection, a deadline and a change; anything else waits. */
  lemma PriorityOrder(other: string)
    requires other != REASON_REVOKE && other != REASON_RECONNECT && other != REASON_DEADLINE && other != REASON_CHANGE
    ensures Priority("revoke") > Priority("reconnect") > Priority("deadline") > Priority("change") > Priority(other)
    ensures Priority(other) == Priority("recovery")
  {
    PriorityFacts("revoke", "reconnect");
    PriorityFacts("deadline", "change");
    assert "reconnect" != REASON_REVOKE && "deadline" != REASON_REVOKE && "deadline" != REASON_RECONNECT by {
      assert |REASON_REVOKE| == 6 && |REASON_RECONNECT| == 9 && |REASON_DEADLINE| == 8;
    }
    assert "change"[0] == 'c' && "revoke"[0] == 'r' && "reconnect"[0] == 'r' && "deadline"[0] == 'd' && "recovery"[0] == 'r';
    assert |"recovery"| == 8 && |"change"| == 6;
  }

  // ----- Notes and what they merge to -----

  /** One positive server ID noted for one reason. */
  datatype Note = Note(id: int, reason: string)

  function Merge(pending: map<int, Hint>, n: Note): map<int, Hint> {
    var priority, force := Priority(n.reason), Forces(n.reason);
    if n.id !in pending then pending[n.id := Hint(n.id, n.reason, priority, force)]
    else
      var h := pending[n.id];
      var stronger := if priority > h.priority then h.(reason := n.reason, priority := priority) else h;
      pending[n.id := stronger.(force := h.force || force)]
  }

  function Fold(ns: seq<Note>): map<int, Hint> {
    if ns == [] then map[] else Merge(Fold(ns[..|ns| - 1]), ns[|ns| - 1])
  }

  predicate IsNoted(ns: seq<Note>, id: int) {
    exists i :: 0 <= i < |ns| && ns[i].id == id
  }

  predicate IsForced(ns: seq<Note>, id: int) {
    exists i :: 0 <= i < |ns| && ns[i].id == id && Forces(ns[i].reason)
  }

  predicate AtMost(ns: seq<Note>, id: int, priority: int) {
    forall i :: 0 <= i < |ns| && ns[i].id == id ==> Priority(ns[i].reason) <= priority
  }

  /** Note `k` is the first of the strongest notes for `id`. */
  predicate IsFirstStrongest(ns: seq<Note>, id: int, k: nat) {
    && k < |ns| && ns[k].id == id && AtMost(ns, id, Priority(ns[k].reason))
    && forall i :: 0 <= i < k && ns[i].id == id ==> Priority(ns[i].reason) < Priority(ns[k].reason)
  }

  ghost predicate KeepsReason(ns: seq<Note>, id: int, reason: string) {
    exists k: nat :: IsFirstStrongest(ns, id, k) && ns[k].reason == reason
  }

  /** The hint one server's notes merge to: the first strongest reason, its priority, and force when
      any of them forces. */
  ghost predicate IsMerged(h: Hint, ns: seq<Note>, id: int) {
    h.id == id && h.priority == Priority(h.reason) && KeepsReason(ns, id, h.reason) && (h.force <==> IsForced(ns, id))
  }

  ghost predicate Means(pending: map<int, Hint>, ns: seq<Note>, id: int) {
    (id in pending <==> IsNoted(ns, id)) && (id in pending ==> IsMerged(pending[id], ns, id))
  }

  lemma NotedSnoc(ns: seq<Note>, n: Note, id: int)
    ensures IsNoted(ns + [n], id) <==> IsNoted(ns, id) || n.id == id
    ensures IsForced(ns + [n], id) <==> IsForced(ns, id) || (n.id == id && Forces(n.reason))
  {
    var next := ns + [n];
    assert next[|ns|] == n && forall i :: 0 <= i < |ns| ==> next[i] == ns[i];
  }

  /** A later note replaces the reason only if it is strictly stronger. */
  lemma KeepsSnoc(ns: seq<Note>, n: Note, id: int, reason: string)
    requires KeepsReason(ns, id, reason)
    ensures KeepsReason(ns + [n], id, if n.id == id && Priority(n.reason) > Priority(reason) then n.reason else reason)
  {
    var next := ns + [n];
    assert next[|ns|] == n && forall i :: 0 <= i < |ns| ==> next[i] == ns[i];
    var k: nat :| IsFirstStrongest(ns, id, k) && ns[k].reason == reason;
    if n.id == id && Priority(n.reason) > Priority(reason) {
      assert IsFirstStrongest(next, id, |ns|);
    } else {
      assert IsFirstStrongest(next, id, k);
    }
  }

  lemma KeepsFirst(ns: seq<Note>, n: Note)
    requires !IsNoted(ns, n.id)
    ensures KeepsReason(ns + [n], n.id, n.reason)
  {
    var next := ns + [n];
    assert next[|ns|] == n && forall i :: 0 <= i < |ns| ==> next[i] == ns[i];
    assert IsFirstStrongest(next, n.id, |ns|);
  }

  lemma MergeMeans(pending: map<int, Hint>, ns: seq<Note>, n: Note, id: int)
    requires Means(pending, ns, id)
    ensures Means(Merge(pending, n), ns + [n], id)
  {
    NotedSnoc(ns, n, id);
    if id in pending {
      KeepsSnoc(ns, n, id, pending[id].reason);
    } else if n.id == id {
      KeepsFirst(ns, n);
      assert !IsForced(ns, id);
    }
  }

  /** After any notes, a server is pending iff it was noted, with the merge of exactly its notes. */
  lemma {:induction false} FoldMeans(ns: seq<Note>, id: int)
    ensures Means(Fold(ns), ns, id)
  {
    if ns != [] {
      var before, n := ns[..|ns| - 1], ns[|ns| - 1];
      FoldMeans(before, id);
      MergeMeans(Fold(before), before, n, id);
      assert before + [n] == ns;
    }
  }

  /** The force flag is always that of the reason kept, for any reason strings whatsoever. */
  lemma ForceMatchesReason(h: Hint, ns: seq<Note>, id: int)
    requires IsMerged(h, ns, id)
    ensures h.force == Forces(h.reason)
  {
    var k: nat :| IsFirstStrongest(ns, id, k) && ns[k].reason == h.reason;
    PriorityFacts(h.reason, h.reason);
    if i :| 0 <= i < |ns| && ns[i].id == id && Forces(ns[i].reason) {
      PriorityFacts(ns[i].reason, h.reason);
    }
  }

  // ----- Independence of order -----

  ghost predicate SameNotes(a: seq<Note>, b: seq<Note>) {
    multiset(a) == multiset(b)
  }

  /** Two different reasons share the highest priority noted for `id`. */
  ghost predicate Tied(ns: seq<Note>, id: int, i: nat, j: nat) {
    && i < |ns| && j < |ns| && ns[i].id == id && ns[j].id == id && ns[i].reason != ns[j].reason
    && AtMost(ns, id, Priority(ns[i].reason)) && AtMost(ns, id, Priority(ns[j].reason))
  }

  ghost predicate HasTie(ns: seq<Note>, id: int) {
    exists i: nat, j: nat :: Tied(ns, id, i, j)
  }

  lemma SameMembers(a: seq<Note>, b: seq<Note>)
    requires SameNotes(a, b)
    ensures forall n :: n in a <==> n in b
  {
    forall n
      ensures n in a <==> n in b
    {
      assert n in a <==> n in multiset(a);
      assert n in b <==> n in multiset(b);
    }
  }

  lemma AtMostMembers(a: seq<Note>, b: seq<Note>, id: int, priority: int)
    requires forall n :: n in b ==> n in a
    requires AtMost(a, id, priority)
    ensures AtMost(b, id, priority)
  {
    forall i | 0 <= i < |b| && b[i].id == id
      ensures Priority(b[i].reason) <= priority
    {
      assert b[i] in a;
    }
  }

  lemma ForcedMembers(a: seq<Note>, b: seq<Note>, id: int)
    requires forall n :: n in a ==> n in b
    ensures IsNoted(a, id) ==> IsNoted(b, id)
    ensures IsForced(a, id) ==> IsForced(b, id)
  {
    if i :| 0 <= i < |a| && a[i].id == id {
      assert a[i] in b;
    }
    if i :| 0 <= i < |a| && a[i].id == id && Forces(a[i].reason) {
      assert a[i] in b;
    }
  }

  lemma NoTieSameReason(a: seq<Note>, b: seq<Note>, id: int, ra: string, rb: string)
    requires SameNotes(a, b) && KeepsReason(a, id, ra) && KeepsReason(b, id, rb)
    ensures Priority(ra) == Priority(rb)
    ensures !HasTie(a, id) ==> ra == rb
  {
    SameMembers(a, b);
    var i: nat :| IsFirstStrongest(a, id, i) && a[i].reason == ra;
    var k: nat :| IsFirstStrongest(b, id, k) && b[k].reason == rb;
    assert a[i] in b && b[k] in a;
    var j: nat :| j < |a| && a[j] == b[k];
    AtMostMembers(b, a, id, Priority(rb));
    AtMostMembers(a, b, id, Priority(ra));
    if ra != rb {
      assert Tied(a, id, i, j);
    }
  }

  /** Priority, force and whether a server is pending never depend on the order of the notes, and the
      reason does not either unless two different reasons tie for the highest priority. */
  lemma OrderIndependent(a: seq<Note>, b: seq<Note>, id: int)
    requires SameNotes(a, b)
    ensures id in Fold(a) <==> id in Fold(b)
    ensures id in Fold(a) ==> Fold(a)[id].priority == Fold(b)[id].priority && Fold(a)[id].force == Fold(b)[id].force
    ensures id in Fold(a) && !HasTie(a, id) ==> Fold(a)[id] == Fold(b)[id]
  {
    FoldMeans(a, id);
    FoldMeans(b, id);
    SameMembers(a, b);
    ForcedMembers(a, b, id);
    ForcedMembers(b, a, id);
    if id in Fold(a) {
      NoTieSameReason(a, b, id, Fold(a)[id].reason, Fold(b)[id].reason);
    }
  }

  lemma KeptReasonUnique(ns: seq<Note>, id: int, k: nat, l: nat)
    requires IsFirstStrongest(ns, id, k) && IsFirstStrongest(ns, id, l)
    ensures k == l
  {
  }

  function MoveToFront(ns: seq<Note>, j: nat): seq<Note>
    requires j < |ns|
  {
    [ns[j]] + (ns[..j] + ns[j + 1..])
  }

  lemma MoveToFrontSame(ns: seq<Note>, j: nat)
    requires j < |ns|
    ensures SameNotes(ns, MoveToFront(ns, j))
  {
    assert ns == ns[..j] + [ns[j]] + ns[j + 1..];
  }

  lemma StrongestAtFrontIsKept(ns: seq<Note>, id: int, j: nat)
    requires j < |ns| && ns[j].id == id && AtMost(ns, id, Priority(ns[j].reason))
    ensures id in Fold(MoveToFront(ns, j)) && Fold(MoveToFront(ns, j))[id].reason == ns[j].reason
  {
    var b := MoveToFront(ns, j);
    MoveToFrontSame(ns, j);
    SameMembers(ns, b);
    AtMostMembers(ns, b, id, Priority(ns[j].reason));
    assert b[0] == ns[j];
    assert IsFirstStrongest(b, id, 0);
    FoldMeans(b, id);
    var k: nat :| IsFirstStrongest(b, id, k) && b[k].reason == Fold(b)[id].reason;
    KeptReasonUnique(b, id, k, 0);
  }

  /** Exactly then: with such a tie, some other order of the same notes keeps another reason. */
  lemma ReasonDependsOnOrderIffTied(a: seq<Note>, id: int)
    requires id in Fold(a)
    ensures HasTie(a, id) <==> exists b :: SameNotes(a, b) && id in Fold(b) && Fold(b)[id].reason != Fold(a)[id].reason
  {
    if i: nat, j: nat :| Tied(a, id, i, j) {
      var l := if a[i].reason == Fold(a)[id].reason then j else i;
      MoveToFrontSame(a, l);
      StrongestAtFrontIsKept(a, id, l);
      var b := MoveToFront(a, l);
      assert SameNotes(a, b) && id in Fold(b) && Fold(b)[id].reason != Fold(a)[id].reason;
    }
    if b :| SameNotes(a, b) && id in Fold(b) && Fold(b)[id].reason != Fold(a)[id].reason {
      OrderIndependent(a, b, id);
    }
  }

  /** The five declared reasons have five different priorities, so they never tie. */
  lemma DeclaredReasonsOrderIndependent(a: seq<Note>, b: seq<Note>)
    requires SameNotes(a, b) && forall i :: 0 <= i < |a| ==> Declared(a[i].reason)
    ensures Fold(a) == Fold(b)
  {
    forall id
      ensures id in Fold(a) <==> id in Fold(b)
      ensures id in Fold(a) ==> Fold(a)[id] == Fold(b)[id]
    {
      OrderIndependent(a, b, id);
      if i: nat, j: nat :| Tied(a, id, i, j) {
        PriorityFacts(a[i].reason, a[j].reason);
      }
    }
  }

  // ----- Draining -----

  predicate Before(a: Hint, b: Hint) {
    a.priority > b.priority || (a.priority == b.priority && a.id < b.id)
  }

  predicate StrictlySorted(out: seq<Hint>) {
    forall i, j :: 0 <= i < j < |out| ==> Before(out[i], out[j])
  }

  /** Exactly the pending hints, strongest first, then by server. */
  ghost predicate IsDrainOf(out: seq<Hint>, pending: map<int, Hint>) {
    && StrictlySorted(out)
    && (forall h :: h in out ==> h.id in pending && pending[h.id] == h)
    && (forall id :: id in pending ==> pending[id] in out)
  }

  lemma HeadFirst(a: seq<Hint>, h: Hint)
    requires StrictlySorted(a) && h in a
    ensures h == a[0] || Before(a[0], h)
  {
    var i :| 0 <= i < |a| && a[i] == h;
    if i > 0 {
      assert Before(a[0], a[i]);
    }
  }

  lemma HeadOrTail(a: seq<Hint>, h: Hint)
    requires a != [] && StrictlySorted(a)
    ensures h in a[1..] <==> h in a && Before(a[0], h)
  {
    assert a == [a[0]] + a[1..];
    if h in a[1..] {
      var j :| 0 <= j < |a[1..]| && a[1..][j] == h;
      assert Before(a[0], a[j + 1]);
    }
  }

  predicate SameHints(a: seq<Hint>, b: seq<Hint>) {
    (forall h :: h in a ==> h in b) && (forall h :: h in b ==> h in a)
  }

  lemma EmptyTogether(a: seq<Hint>, b: seq<Hint>)
    ensures SameHints(a, b) ==> (a == [] <==> b == [])
  {
    if a != [] {
      assert a[0] in a;
    }
    if b != [] {
      assert b[0] in b;
    }
  }

  lemma {:induction false} SortedUnique(a: seq<Hint>, b: seq<Hint>)
    requires StrictlySorted(a) && StrictlySorted(b) && SameHints(a, b)
    ensures a == b
  {
    EmptyTogether(a, b);
    if a != [] {
      HeadFirst(a, b[0]);
      HeadFirst(b, a[0]);
      forall h
        ensures h in a[1..] <==> h in b[1..]
      {
        HeadOrTail(a, h);
        HeadOrTail(b, h);
      }
      SortedUnique(a[1..], b[1..]);
      assert a == [a[0]] + a[1..] && b == [b[0]] + b[1..];
    }
  }

  /** There is only one way to drain a pending set. */
  lemma DrainUnique(a: seq<Hint>, b: seq<Hint>, pending: map<int, Hint>)
    requires IsDrainOf(a, pending) && IsDrainOf(b, pending)
    ensures a == b
  {
    SortedUnique(a, b);
  }

  function InsertSorted(out: seq<Hint>, h: Hint): seq<Hint> {
    if out == [] || Before(out[|out| - 1], h) then out + [h]
    else InsertSorted(out[..|out| - 1], h) + [out[|out| - 1]]
  }

  lemma {:induction false} InsertMembers(out: seq<Hint>, h: Hint, x: Hint)
    ensures x in InsertSorted(out, h) <==> x in out || x == h
  {
    if out != [] && !Before(out[|out| - 1], h) {
      InsertMembers(out[..|out| - 1], h, x);
      assert out == out[..|out| - 1] + [out[|out| - 1]];
    }
  }

  lemma SortedSnoc(out: seq<Hint>, h: Hint)
    requires StrictlySorted(out) && forall x :: x in out ==> Before(x, h)
    ensures StrictlySorted(out + [h])
  {
  }

  lemma {:induction false} InsertSortedSorted(out: seq<Hint>, h: Hint)
    requires StrictlySorted(out) && forall x :: x in out ==> x.id != h.id
    ensures StrictlySorted(InsertSorted(out, h))
  {
    if out == [] || Before(out[|out| - 1], h) {
      SortedSnoc(out, h);
    } else {
      var front, last := out[..|out| - 1], out[|out| - 1];
      InsertSortedSorted(front, h);
      forall x | x in InsertSorted(front, h)
        ensures Before(x, last)
      {
        InsertMembers(front, h, x);
        assert last in out;
      }
      SortedSnoc(InsertSorted(front, h), last);
    }
  }

  // ----- The set -----

  function Positive(reason: string, ids: seq<int>): seq<Note> {
    if ids == [] then []
    else
      Positive(reason, ids[..|ids| - 1]) + if ids[|ids| - 1] > 0 then [Note(ids[|ids| - 1], reason)] else []
  }

  class HintSet {
    var pending: map<int, Hint>
    ghost var owed: seq<Note>     // positive notes since the last drain

    ghost predicate Valid()
      reads this
    {
      pending == Fold(owed)
    }

    constructor ()
      ensures Valid() && owed == []
    {
      pending, owed := map[], [];
    }

    method NoteOne(priority: int, force: bool, reason: string, id: int)
      requires Valid() && priority == Priority(reason) && force == Forces(reason)
      modifies this
      ensures Valid() && owed == old(owed) + if id > 0 then [Note(id, reason)] else []
    {
      if id <= 0 {
        return;
      }
      owed := owed + [Note(id, reason)];
      assert owed[..|owed| - 1] == old(owed);
      if id !in pending {
        pending := pending[id := Hint(id, reason, priority, force)];
        return;
      }
      var existing := pending[id];
      if priority > existing.priority {
        existing := existing.(reason := reason, priority := priority);
      }
      existing := existing.(force := existing.force || force);
      pending := pending[id := existing];
    }

    /** Adds one note for every positive ID, and nothing for any other. */
    method AddNotes(reason: string, ids: seq<int>)
      requires Valid()
      modifies this
      ensures Valid() && owed == old(owed) + Positive(reason, ids)
    {
      var priority, force := Priority(reason), Forces(reason);
      for i := 0 to |ids|
        invariant Valid() && owed == old(owed) + Positive(reason, ids[..i])
      {
        NoteOne(priority, force, reason, ids[i]);
        assert ids[..i + 1][..i] == ids[..i];
      }
      assert ids[..|ids|] == ids;
    }

    /** Empties the set and returns every pending hint once, in order. */
    method Drain() returns (out: seq<Hint>)
      requires Valid()
      modifies this
      ensures Valid() && owed == [] && IsDrainOf(out, Fold(old(owed)))
    {
      var taken := pending;
      pending, owed := map[], [];
      DrainedIds(old(owed));
      out := Sorted(taken);
    }
  }

  lemma DrainedIds(ns: seq<Note>)
    ensures forall id :: id in Fold(ns) ==> Fold(ns)[id].id == id
  {
    forall id | id in Fold(ns)
      ensures Fold(ns)[id].id == id
    {
      FoldMeans(ns, id);
    }
  }

  ghost predicate Covers(out: seq<Hint>, pending: map<int, Hint>, todo: set<int>) {
    && (forall h :: h in out ==> h.id in pending && h.id !in todo && pending[h.id] == h)
    && (forall id :: id in pending && id !in todo ==> pending[id] in out)
  }

  lemma CoverNext(out: seq<Hint>, pending: map<int, Hint>, todo: set<int>, id: int)
    requires Covers(out, pending, todo) && id in todo && todo <= pending.Keys && pending[id].id == id
    ensures Covers(InsertSorted(out, pending[id]), pending, todo - {id})
  {
    var next := InsertSorted(out, pending[id]);
    forall x: Hint
      ensures x in next <==> x in out || x == pending[id]
    {
      InsertMembers(out, pending[id], x);
    }
  }

  method Sorted(pending: map<int, Hint>) returns (out: seq<Hint>)
    requires forall id :: id in pending ==> pending[id].id == id
    ensures IsDrainOf(out, pending)
  {
    out := [];
    var todo := pending.Keys;
    while todo != {}
      invariant todo <= pending.Keys && StrictlySorted(out) && Covers(out, pending, todo)
      decreases |todo|
    {
      EmptyOrInhabited(todo);
      var id :| id in todo;
      CoverNext(out, pending, todo, id);
      InsertSortedSorted(out, pending[id]);
      out := InsertSorted(out, pending[id]);
      todo := todo - {id};
    }
  }

  // ----- Every interleaving -----

  datatype Event = Noted(reason: string, ids: seq<int>) | Drained

  /** What is still owed after a run of notes and drains. */
  function Owed(log: seq<Event>): seq<Note> {
    if log == [] then []
    else match log[|log| - 1]
      case Drained => []
      case Noted(reason, ids) => Owed(log[..|log| - 1]) + Positive(reason, ids)
  }

  ghost predicate NoDrain(log: seq<Event>, i: nat, k: nat) {
    forall j :: i <= j < k && j < |log| ==> !log[j].Drained?
  }

  ghost predicate NotNoted(log: seq<Event>, i: nat, k: nat, id: int) {
    forall j :: i <= j < k && j < |log| && log[j].Noted? ==> id !in log[j].ids
  }

  lemma {:induction false} PositiveMeans(reason: string, ids: seq<int>, n: Note)
    ensures n in Positive(reason, ids) <==> n.reason == reason && n.id > 0 && n.id in ids
  {
    if ids != [] {
      PositiveMeans(reason, ids[..|ids| - 1], n);
      assert ids == ids[..|ids| - 1] + [ids[|ids| - 1]];
    }
  }

  lemma {:induction false} StaysOwed(log: seq<Event>, i: nat, k: nat, n: Note)
    requires i < k <= |log| && NoDrain(log, i, k)
    requires log[i].Noted? && log[i].reason == n.reason && n.id in log[i].ids && n.id > 0
    ensures n in Owed(log[..k])
  {
    assert log[..k][..k - 1] == log[..k - 1] && log[..k][k - 1] == log[k - 1];
    if i + 1 < k {
      StaysOwed(log, i, k - 1, n);
    } else {
      PositiveMeans(n.reason, log[i].ids, n);
    }
  }

  lemma NotedConcat(a: seq<Note>, b: seq<Note>, id: int)
    ensures IsNoted(a + b, id) ==> IsNoted(a, id) || IsNoted(b, id)
  {
    if i :| 0 <= i < |a + b| && (a + b)[i].id == id {
      if i < |a| {
        assert a[i].id == id;
      } else {
        assert b[i - |a|].id == id;
      }
    }
  }

  lemma NotPositive(reason: string, ids: seq<int>, id: int)
    ensures IsNoted(Positive(reason, ids), id) ==> id in ids
  {
    if i :| 0 <= i < |Positive(reason, ids)| && Positive(reason, ids)[i].id == id {
      PositiveMeans(reason, ids, Positive(reason, ids)[i]);
    }
  }

  lemma {:induction false} NotOwed(log: seq<Event>, i: nat, k: nat, id: int)
    requires i < k <= |log| && log[i].Drained? && NotNoted(log, i, k, id)
    ensures !IsNoted(Owed(log[..k]), id)
  {
    assert log[..k][..k - 1] == log[..k - 1] && log[..k][k - 1] == log[k - 1];
    if i + 1 < k {
      NotOwed(log, i, k - 1, id);
      match log[k - 1]
      case Drained =>
      case Noted(reason, ids) =>
        NotedConcat(Owed(log[..k - 1]), Positive(reason, ids), id);
        NotPositive(reason, ids, id);
    }
  }

  /** A positive ID noted at `i` comes out of the next drain, at `k`, exactly once, with the merge of
      the notes since the previous drain. */
  lemma NotedComesOutOfNextDrain(log: seq<Event>, i: nat, k: nat, id: int, out: seq<Hint>)
    requires i < k < |log| && NoDrain(log, i, k) && log[k].Drained?
    requires log[i].Noted? && id > 0 && id in log[i].ids
    requires IsDrainOf(out, Fold(Owed(log[..k])))
    ensures exists j :: 0 <= j < |out| && out[j].id == id && IsMerged(out[j], Owed(log[..k]), id)
    ensures forall j, l :: 0 <= j < |out| && 0 <= l < |out| && out[j].id == id && out[l].id == id ==> j == l
  {
    var owed := Owed(log[..k]);
    StaysOwed(log, i, k, Note(id, log[i].reason));
    var m :| 0 <= m < |owed| && owed[m] == Note(id, log[i].reason);
    assert IsNoted(owed, id);
    FoldMeans(owed, id);
    assert Fold(owed)[id] in out;
    forall j, l | 0 <= j < |out| && 0 <= l < |out| && out[j].id == id && out[l].id == id
      ensures j == l
    {
      assert out[j] in out && out[l] in out;
    }
  }

  /** After a drain at `k` it comes out of no later drain, at `m`, unless it is noted again. */
  lemma DrainedNotRepeated(log: seq<Event>, k: nat, m: nat, id: int, later: seq<Hint>)
    requires k < m < |log| && log[k].Drained? && NotNoted(log, k, m, id)
    requires IsDrainOf(later, Fold(Owed(log[..m])))
    ensures forall j :: 0 <= j < |later| ==> later[j].id != id
  {
    NotOwed(log, k, m, id);
    FoldMeans(Owed(log[..m]), id);
    forall j | 0 <= j < |later|
      ensures later[j].id != id
    {
      assert later[j] in later;
    }
  }
}
