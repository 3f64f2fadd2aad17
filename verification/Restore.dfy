/** The restore commit protocol (internal/backup/backup.go).

    A pending record names a staged database and, possibly, a staged ACME tree. Applying it
    copies each beside its destination, renames the destination away and the copy in, and rolls
    back on error. Any operation may fail, and the process may die before any of them: once
    `crashed` is set, every later operation fails without effect, so the disk keeps the contents
    it had when the process died. Renames are atomic and existence checks are truthful; copies and
    recursive removals may stop half-way. */
module Restore {

  import opened Common

  datatype Node = File(bytes: string) | Tree(files: map<string, string>)

  /** The paths the protocol touches. They are pairwise distinct. */
  datatype Slot =
    | StagedDatabase | Database | DatabaseNew | DatabaseRollback
    | StagedAcme | Acme | AcmeNew | AcmeRollback

  type Nodes = map<Slot, Node>

  /** A record that cannot be decoded or names paths outside its stage is not valid. */
  datatype Record = ValidRecord | InvalidRecord

  datatype Outcome = NothingPending | Applied | Failed | FailedRollback

  predicate IsDatabase(s: Slot) {
    s.StagedDatabase? || s.Database? || s.DatabaseNew? || s.DatabaseRollback?
  }

  // ----- Disk contents -----

  predicate SameAt(a: Nodes, b: Nodes, s: Slot) {
    (s in a <==> s in b) && (s in a && s in b ==> a[s] == b[s])
  }

  ghost predicate SameExcept(a: Nodes, b: Nodes, slots: set<Slot>) {
    && (forall s :: s in a && s !in slots ==> s in b && b[s] == a[s])
    && (forall s :: s in b && s !in slots ==> s in a)
  }

  /** Databases are files, ACME homes are directory trees. */
  predicate Kinds(n: Nodes) {
    forall s :: s in n ==> (n[s].File? <==> IsDatabase(s))
  }

  predicate IsStaged(n: Nodes, db: string, acme: Option<map<string, string>>) {
    && StagedDatabase in n && n[StagedDatabase] == File(db)
    && match acme
       case None => StagedAcme !in n
       case Some(files) =>
         && StagedAcme in n && n[StagedAcme] == Tree(files)
         && (AcmeNew in n && n[AcmeNew].Tree? ==> n[AcmeNew].files.Keys <= files.Keys)
  }

  predicate IsCommitted(n: Nodes, before: Nodes, db: string, acme: Option<map<string, string>>) {
    && Database in n && n[Database] == File(db)
    && match acme
       case None => SameAt(n, before, Acme)
       case Some(files) => Acme in n && n[Acme] == Tree(files)
  }

  /** A destination is missing while its rollback copy exists: an earlier run died in between. */
  predicate Stranded(n: Nodes) {
    (Database !in n && DatabaseRollback in n) || (Acme !in n && AcmeRollback in n)
  }

  /** What an operator can still get back: the destination or, when it is missing, its rollback copy. */
  function Recoverable(n: Nodes, destination: Slot, rollback: Slot): Option<Node> {
    if destination in n then Some(n[destination]) else if rollback in n then Some(n[rollback]) else None
  }

  /** These contents, if any, are at the destination or at its rollback path. */
  predicate Held(n: Nodes, destination: Slot, rollback: Slot, contents: Option<Node>) {
    contents.Some? ==>
      || (destination in n && n[destination] == contents.value)
      || (rollback in n && n[rollback] == contents.value)
  }

  /** What could be recovered before is still at one of its two paths. */
  predicate KeepsOriginals(n: Nodes, before: Nodes) {
    && Held(n, Database, DatabaseRollback, Recoverable(before, Database, DatabaseRollback))
    && Held(n, Acme, AcmeRollback, Recoverable(before, Acme, AcmeRollback))
  }

  predicate CanReplace(n: Nodes, a: Slot, b: Slot) {
    a in n && (b in n ==> (n[a].File? && n[b].File?) || (n[a].Tree? && n[b].Tree? && n[b].files == map[]))
  }

  /** What replacing the database did: on success it holds the staged one and its old contents stand
      at the rollback path; on a completed rollback it is untouched, or recoverable as before. */
  ghost predicate FileResult(n: Nodes, before: Nodes, r: Outcome, crashed: bool) {
    && r in {Applied, Failed, FailedRollback} && SameExcept(n, before, {Database, DatabaseNew, DatabaseRollback})
    && (r.Applied? ==> !crashed && IsSwitched(n, before, Database, StagedDatabase, DatabaseRollback))
    && (r.Failed? && !crashed && (Database in before || DatabaseRollback !in before) ==> SameAt(n, before, Database))
    && (r.Failed? && !crashed ==>
          Recoverable(n, Database, DatabaseRollback) == Recoverable(before, Database, DatabaseRollback))
    && Held(n, Database, DatabaseRollback, Recoverable(before, Database, DatabaseRollback))
  }

  /** What replacing the tree, and undoing the database when that failed, did. */
  ghost predicate TreeResult(n: Nodes, before: Nodes, existed: bool, r: Outcome, crashed: bool) {
    && r in {Applied, Failed, FailedRollback}
    && SameExcept(n, before, {Database, DatabaseRollback, Acme, AcmeNew, AcmeRollback})
    && (StagedAcme !in before ==> SameAt(n, before, Acme) && SameAt(n, before, AcmeRollback))
    && (OnlyStagedNames(before) ==> OnlyStagedNames(n))
    && (r.Applied? ==> SameAt(n, before, Database) && SameAt(n, before, DatabaseRollback))
    && (r.Applied? && StagedAcme in before && OnlyStagedNames(before) ==> Acme in n && n[Acme] == before[StagedAcme])
    && (r.Failed? && existed ==> DatabaseRollback in before && Database in n && n[Database] == before[DatabaseRollback])
    && (r.Failed? && !existed ==> Database !in n && SameAt(n, before, DatabaseRollback))
    && (r.Failed? && !crashed && (Acme in before || AcmeRollback !in before) ==> SameAt(n, before, Acme))
    && (r.Failed? && !crashed ==> Recoverable(n, Acme, AcmeRollback) == Recoverable(before, Acme, AcmeRollback))
    && Held(n, Acme, AcmeRollback, Recoverable(before, Acme, AcmeRollback))
    && (DatabaseRollback in before ==> Held(n, Database, DatabaseRollback, Some(before[DatabaseRollback])))
  }

  /** What replacing both did: committed, or after a completed rollback both as before; the staged
      contents survive, and so do the originals. */
  ghost predicate BothResult(n: Nodes, before: Nodes, r: Outcome, crashed: bool, db: string, acme: Option<map<string, string>>) {
    && r in {Applied, Failed, FailedRollback}
    && (IsStaged(before, db, acme) ==> IsStaged(n, db, acme))
    && (StagedAcme !in before ==> SameAt(n, before, Acme) && SameAt(n, before, AcmeRollback))
    && (IsStaged(before, db, acme) && r.Applied? ==> IsCommitted(n, before, db, acme))
    && (r.Failed? && !crashed && !Stranded(before) ==> SameAt(n, before, Database) && SameAt(n, before, Acme))
    && (r.Failed? && !crashed ==> IsUndone(n, before))
    && KeepsOriginals(n, before)
  }

  lemma FileFailed(before: Nodes, n: Nodes, r: Outcome, crashed: bool, db: string, acme: Option<map<string, string>>)
    requires FileResult(n, before, r, crashed) && !r.Applied?
    ensures BothResult(n, before, r, crashed, db, acme)
  {
  }

  /** The ACME paths and the stage are as they were before the database was replaced. */
  lemma FileOnly(before: Nodes, mid: Nodes)
    requires SameExcept(mid, before, {Database, DatabaseNew, DatabaseRollback})
    ensures forall s :: s in {StagedDatabase, StagedAcme, Acme, AcmeNew, AcmeRollback} ==> SameAt(mid, before, s)
  {
  }

  lemma StageSurvives(before: Nodes, mid: Nodes, n: Nodes, existed: bool, r: Outcome, crashed: bool, db: string, acme: Option<map<string, string>>)
    requires FileResult(mid, before, Applied, false) && TreeResult(n, mid, existed, r, crashed) && Kinds(n)
    requires IsStaged(before, db, acme)
    ensures IsStaged(n, db, acme) && (r.Applied? ==> IsCommitted(n, before, db, acme))
  {
    FileOnly(before, mid);
  }

  lemma BothUndone(before: Nodes, mid: Nodes, n: Nodes)
    requires FileResult(mid, before, Applied, false) && TreeResult(n, mid, Database in before, Failed, false)
    ensures !Stranded(before) ==> SameAt(n, before, Database) && SameAt(n, before, Acme)
    ensures IsUndone(n, before)
  {
    FileOnly(before, mid);
  }

  lemma OriginalsKept(before: Nodes, mid: Nodes, n: Nodes, existed: bool, r: Outcome, crashed: bool)
    requires FileResult(mid, before, Applied, false) && TreeResult(n, mid, existed, r, crashed)
    ensures KeepsOriginals(n, before)
    ensures StagedAcme !in before ==> SameAt(n, before, Acme) && SameAt(n, before, AcmeRollback)
  {
    FileOnly(before, mid);
  }

  lemma TreeFollowed(before: Nodes, mid: Nodes, n: Nodes, r: Outcome, crashed: bool, db: string, acme: Option<map<string, string>>)
    requires FileResult(mid, before, Applied, false) && TreeResult(n, mid, Database in before, r, crashed) && Kinds(n)
    ensures BothResult(n, before, r, crashed, db, acme)
  {
    OriginalsKept(before, mid, n, Database in before, r, crashed);
    if IsStaged(before, db, acme) {
      StageSurvives(before, mid, n, Database in before, r, crashed, db, acme);
    }
    if r.Failed? && !crashed {
      BothUndone(before, mid, n);
    }
  }

  lemma SameElsewhere(before: Nodes, n: Nodes, a: Slot, b: Slot, s: Slot)
    requires SameExcept(n, before, {a, b}) && s != a && s != b
    ensures SameAt(n, before, s) && SameExcept(n, before, {a, s, b})
    ensures s in n ==> s in before && FilesAt(n, s).Keys <= FilesAt(before, s).Keys
  {
  }

  lemma SameThrough(before: Nodes, mid: Nodes, n: Nodes, a: Slot, b: Slot, s: Slot)
    requires SameExcept(mid, before, {a, b}) && SameExcept(n, mid, {s}) && a != s && b != s
    ensures SameExcept(n, before, {a, s, b}) && SameAt(n, mid, a) && SameAt(mid, before, s)
  {
  }

  class Disk {
    var nodes: Nodes
    var record: Option<Record>
    var crashed: bool
    /** Whether operations may fail at all during this run. */
    var faulty: bool

    constructor (nodes: Nodes, record: Option<Record>)
      ensures this.nodes == nodes && this.record == record && !crashed && faulty
    {
      this.nodes, this.record := nodes, record;
      crashed, faulty := false, true;
    }

    /** A new process on the same disk. */
    method Restart(mayFail: bool)
      modifies this`crashed, this`faulty
      ensures !crashed && faulty == mayFail
    {
      crashed, faulty := false, mayFail;
    }

    /** Decides whether the next operation fails, and whether the process dies with it. */
    method Fails() returns (fails: bool)
      modifies this`crashed
      ensures crashed ==> fails
      ensures old(crashed) ==> crashed
      ensures !old(crashed) && !faulty ==> !fails
    {
      fails := crashed;
      if !crashed && faulty {
        fails := *;
        if fails {
          crashed := *;
        }
      }
    }

    method Remove(s: Slot) returns (ok: bool)
      modifies this`nodes, this`crashed
      ensures SameExcept(nodes, old(nodes), {s}) && (s in nodes ==> s in old(nodes) && nodes[s] == old(nodes)[s])
      ensures Kinds(old(nodes)) ==> Kinds(nodes)
      ensures ok ==> !crashed && s !in nodes
      ensures old(crashed) ==> crashed && nodes == old(nodes)
      ensures !old(crashed) && !faulty ==> !crashed && s !in nodes
    {
      var fails := Fails();
      if fails {
        var performed: bool := *;
        if performed && !crashed {
          nodes := nodes - {s};
        }
        return false;
      }
      ok := s in nodes;
      nodes := nodes - {s};
    }

    /** Recursive removal; an interrupted one may leave part of a tree behind. */
    method RemoveAll(s: Slot) returns (ok: bool)
      modifies this`nodes, this`crashed
      ensures SameExcept(nodes, old(nodes), {s})
      ensures ok ==> !crashed && s !in nodes
      ensures s in nodes ==> s in old(nodes)
      ensures s in nodes && old(nodes)[s].File? ==> nodes[s] == old(nodes)[s]
      ensures s in nodes && old(nodes)[s].Tree? ==> nodes[s].Tree? && nodes[s].files.Keys <= old(nodes)[s].files.Keys
      ensures Kinds(old(nodes)) ==> Kinds(nodes)
      ensures old(crashed) ==> crashed && nodes == old(nodes)
      ensures !old(crashed) && !faulty ==> ok
    {
      var alreadyDead := crashed;
      var fails := Fails();
      if fails {
        var gone: bool, kept: set<string> := *, *;
        if !alreadyDead && s in nodes {
          if gone {
            nodes := nodes - {s};
          } else if nodes[s].Tree? {
            var files := nodes[s].files;
            nodes := nodes[s := Tree(map name | name in files && name in kept :: files[name])];
          }
        }
        return false;
      }
      nodes := nodes - {s};
      ok := true;
    }

    method Rename(a: Slot, b: Slot) returns (ok: bool)
      requires a != b
      modifies this`nodes, this`crashed
      ensures ok ==> !crashed && CanReplace(old(nodes), a, b) && SameExcept(nodes, old(nodes), {a, b})
      ensures ok ==> a !in nodes && b in nodes && nodes[b] == old(nodes)[a]
      ensures Kinds(old(nodes)) && IsDatabase(a) == IsDatabase(b) ==> Kinds(nodes)
      ensures !ok ==> nodes == old(nodes)
      ensures old(crashed) ==> crashed
      ensures !old(crashed) && !faulty ==> !crashed && (ok <==> CanReplace(old(nodes), a, b))
    {
      var fails := Fails();
      if fails || !CanReplace(nodes, a, b) {
        return false;
      }
      nodes := nodes[b := nodes[a]] - {a};
      ok := true;
    }

    /** Exclusive creation of `b` with the bytes of `a`. */
    method CopyFile(a: Slot, b: Slot) returns (ok: bool)
      requires a != b
      modifies this`nodes, this`crashed
      ensures SameExcept(nodes, old(nodes), {b})
      ensures ok ==> !crashed && a in old(nodes) && old(nodes)[a].File? && b !in old(nodes) && b in nodes && nodes[b] == old(nodes)[a]
      ensures !ok ==> SameAt(nodes, old(nodes), b) || (b !in old(nodes) && b in nodes && nodes[b].File?)
      ensures old(crashed) ==> crashed && nodes == old(nodes)
      ensures !old(crashed) && !faulty ==> !crashed && (a in old(nodes) && old(nodes)[a].File? && b !in old(nodes) ==> ok)
    {
      var alreadyDead := crashed;
      var fails := Fails();
      if alreadyDead || a !in nodes || !nodes[a].File? || b in nodes {
        return false;
      }
      if fails {
        var partial: string, created: bool := *, *;
        if created {
          nodes := nodes[b := File(partial)];
        }
        return false;
      }
      nodes := nodes[b := nodes[a]];
      ok := true;
    }

    /** Exclusive creation of one file inside the tree at `b`. */
    method CopyEntry(b: Slot, name: string, bytes: string) returns (ok: bool)
      requires b in nodes && nodes[b].Tree?
      modifies this`nodes, this`crashed
      ensures ok ==> !crashed && name !in old(nodes)[b].files && nodes == old(nodes)[b := Tree(old(nodes)[b].files[name := bytes])]
      ensures b in nodes && nodes[b].Tree? && nodes == old(nodes)[b := nodes[b]]
      ensures nodes[b].files.Keys <= old(nodes)[b].files.Keys + {name}
      ensures old(crashed) ==> crashed && nodes == old(nodes)
      ensures !old(crashed) && !faulty ==> !crashed && (name !in old(nodes)[b].files ==> ok)
    {
      var alreadyDead := crashed;
      var fails := Fails();
      if alreadyDead || name in nodes[b].files {
        return false;
      }
      if fails {
        var partial: string, created: bool := *, *;
        if created {
          nodes := nodes[b := Tree(nodes[b].files[name := partial])];
        }
        return false;
      }
      nodes := nodes[b := Tree(nodes[b].files[name := bytes])];
      ok := true;
    }

    method CopyEntries(b: Slot, source: map<string, string>) returns (ok: bool)
      requires b in nodes && nodes[b].Tree? && !crashed
      modifies this`nodes, this`crashed
      ensures SameExcept(nodes, old(nodes), {b}) && b in nodes && nodes[b].Tree?
      ensures nodes[b].files.Keys <= old(nodes)[b].files.Keys + source.Keys
      ensures ok ==> !crashed && IsUnion(nodes[b].files, old(nodes)[b].files, source, {})
      ensures !faulty ==> !crashed && (old(nodes)[b].files == map[] ==> ok)
    {
      ghost var start := nodes[b].files;
      var todo := source.Keys;
      while todo != {}
        invariant todo <= source.Keys && !crashed
        invariant SameExcept(nodes, old(nodes), {b}) && b in nodes && nodes[b].Tree?
        invariant IsUnion(nodes[b].files, start, source, todo)
        decreases |todo|
      {
        var name :| name in todo;
        ok := CopyEntry(b, name, source[name]);
        if !ok {
          return;
        }
        todo := todo - {name};
      }
      ok := true;
    }

    /** Copies a tree file by file; each file is created exclusively, directories may exist. */
    method CopyTree(a: Slot, b: Slot) returns (ok: bool)
      requires a != b && a in nodes && nodes[a].Tree? && (b in nodes ==> nodes[b].Tree?)
      modifies this`nodes, this`crashed
      ensures SameExcept(nodes, old(nodes), {b})
      ensures b in nodes ==> nodes[b].Tree? && nodes[b].files.Keys <= old(nodes)[a].files.Keys + FilesAt(old(nodes), b).Keys
      ensures ok ==> !crashed && b in nodes && IsUnion(nodes[b].files, FilesAt(old(nodes), b), old(nodes)[a].files, {})
      ensures old(crashed) ==> crashed && nodes == old(nodes)
      ensures !old(crashed) && !faulty ==> !crashed && (FilesAt(old(nodes), b) == map[] ==> ok)
    {
      var fails := Fails();
      if fails {
        return false;
      }
      var source := nodes[a].files;
      if b !in nodes {
        nodes := nodes[b := Tree(map[])];
      }
      ok := CopyEntries(b, source);
    }

    /** Removes what stands at `destination` and, if there was something before, renames it back. */
    method RollbackPath(destination: Slot, rollback: Slot, existed: bool) returns (ok: bool)
      requires destination != rollback && IsDatabase(destination) == IsDatabase(rollback)
      modifies this`nodes, this`crashed
      ensures SameExcept(nodes, old(nodes), {destination, rollback})
      ensures ok ==> !crashed
      ensures ok && !existed ==> destination !in nodes && SameAt(nodes, old(nodes), rollback)
      ensures ok && existed ==> rollback in old(nodes) && destination in nodes && nodes[destination] == old(nodes)[rollback]
      ensures rollback in old(nodes) ==> Held(nodes, destination, rollback, Some(old(nodes)[rollback]))
      ensures Kinds(old(nodes)) ==> Kinds(nodes)
      ensures old(crashed) ==> crashed && nodes == old(nodes)
    {
      ok := RemoveAll(destination);
      if !ok || !existed {
        return;
      }
      ok := Rename(rollback, destination);
    }

    /** Removal whose error is ignored. */
    method Discard(s: Slot)
      requires Kinds(nodes)
      modifies this`nodes, this`crashed
      ensures Kinds(nodes) && SameExcept(nodes, old(nodes), {s}) && Shrunk(nodes, old(nodes), s)
      ensures old(crashed) ==> crashed && nodes == old(nodes)
      ensures !old(crashed) && !faulty ==> !crashed && s !in nodes
    {
      var ok;
      if IsDatabase(s) {
        ok := Remove(s);
      } else {
        ok := RemoveAll(s);
      }
    }

    method SetAside(destination: Slot, rollback: Slot) returns (ok: bool)
      requires Kinds(nodes) && destination in nodes
      requires destination != rollback && IsDatabase(destination) == IsDatabase(rollback)
      modifies this`nodes, this`crashed
      ensures Kinds(nodes) && SameExcept(nodes, old(nodes), {destination, rollback})
      ensures !ok ==> destination in nodes && nodes[destination] == old(nodes)[destination]
      ensures ok ==> !crashed && destination !in nodes && rollback in nodes && nodes[rollback] == old(nodes)[destination]
      ensures Held(nodes, destination, rollback, Some(old(nodes)[destination]))
      ensures !old(crashed) && !faulty ==> ok && !crashed
    {
      Discard(rollback);
      ok := Rename(destination, rollback);
    }

    /** Renames the destination, if there is one, to its rollback path. */
    method MoveAway(destination: Slot, pending: Slot, rollback: Slot) returns (ok: bool)
      requires Kinds(nodes) && SameKind(destination, pending, rollback)
      modifies this`nodes, this`crashed
      ensures Kinds(nodes) && Shrunk(nodes, old(nodes), pending)
      ensures SameExcept(nodes, old(nodes), {destination, pending, rollback})
      ensures !ok ==> destination in old(nodes) && SameAt(nodes, old(nodes), destination)
      ensures ok && destination !in old(nodes) ==> nodes == old(nodes) && crashed == old(crashed)
      ensures ok && destination in old(nodes) ==>
        !crashed && destination !in nodes && SameAt(nodes, old(nodes), pending) && rollback in nodes && nodes[rollback] == old(nodes)[destination]
      ensures !old(crashed) && !faulty ==> ok && !crashed
    {
      if destination !in nodes {
        return true;
      }
      ok := SetAside(destination, rollback);
      ghost var mid := nodes;
      SameElsewhere(old(nodes), mid, destination, rollback, pending);
      if !ok {
        Discard(pending);
        SameThrough(old(nodes), mid, nodes, destination, rollback, pending);
      }
    }

    /** Gives the empty destination back what is at the rollback path, if anything. */
    method Undo(destination: Slot, rollback: Slot) returns (r: Outcome)
      requires Kinds(nodes) && destination !in nodes
      requires destination != rollback && IsDatabase(destination) == IsDatabase(rollback)
      modifies this`nodes, this`crashed
      ensures Kinds(nodes) && SameExcept(nodes, old(nodes), {destination, rollback})
      ensures r in {Failed, FailedRollback}
      ensures r.Failed? && rollback in old(nodes) ==> destination in nodes && nodes[destination] == old(nodes)[rollback]
      ensures r.Failed? && rollback !in old(nodes) ==> destination !in nodes && rollback !in nodes
      ensures rollback in old(nodes) ==> Held(nodes, destination, rollback, Some(old(nodes)[rollback]))
    {
      var ok := RollbackPath(destination, rollback, rollback in nodes);
      r := if ok then Failed else FailedRollback;
    }

    method Abandon(destination: Slot, pending: Slot, rollback: Slot) returns (r: Outcome)
      requires Kinds(nodes) && SameKind(destination, pending, rollback) && destination !in nodes
      modifies this`nodes, this`crashed
      ensures Kinds(nodes) && Shrunk(nodes, old(nodes), pending)
      ensures SameExcept(nodes, old(nodes), {destination, pending, rollback})
      ensures r in {Failed, FailedRollback}
      ensures r.Failed? && rollback in old(nodes) ==> destination in nodes && nodes[destination] == old(nodes)[rollback]
      ensures r.Failed? && rollback !in old(nodes) ==> destination !in nodes && rollback !in nodes
      ensures rollback in old(nodes) ==> Held(nodes, destination, rollback, Some(old(nodes)[rollback]))
    {
      Discard(pending);
      r := Undo(destination, rollback);
    }

    /** Renames the new contents in; on failure restores what is at the rollback path. */
    method MoveIn(destination: Slot, pending: Slot, rollback: Slot) returns (r: Outcome)
      requires Kinds(nodes) && SameKind(destination, pending, rollback) && destination !in nodes && pending in nodes
      modifies this`nodes, this`crashed
      ensures Kinds(nodes) && Shrunk(nodes, old(nodes), pending)
      ensures SameExcept(nodes, old(nodes), {destination, pending, rollback})
      ensures r in {Applied, Failed, FailedRollback}
      ensures r.Applied? ==> !crashed && destination in nodes && nodes[destination] == old(nodes)[pending] && SameAt(nodes, old(nodes), rollback)
      ensures r.Failed? && rollback in old(nodes) ==> destination in nodes && nodes[destination] == old(nodes)[rollback]
      ensures r.Failed? && rollback !in old(nodes) ==> destination !in nodes && rollback !in nodes
      ensures rollback in old(nodes) ==> Held(nodes, destination, rollback, Some(old(nodes)[rollback]))
      ensures !old(crashed) && !faulty ==> r.Applied?
    {
      var ok := Rename(pending, destination);
      if ok {
        return Applied;
      }
      r := Abandon(destination, pending, rollback);
    }

    /** Puts the contents at `pending` in place of the destination. */
    method Switch(destination: Slot, pending: Slot, rollback: Slot) returns (r: Outcome)
      requires Kinds(nodes) && SameKind(destination, pending, rollback) && pending in nodes
      modifies this`nodes, this`crashed
      ensures Kinds(nodes) && Shrunk(nodes, old(nodes), pending)
      ensures SameExcept(nodes, old(nodes), {destination, pending, rollback})
      ensures r in {Applied, Failed, FailedRollback}
      ensures r.Applied? ==> IsSwitched(nodes, old(nodes), destination, pending, rollback) && !crashed
      ensures r.Failed? && !crashed && (destination in old(nodes) || rollback !in old(nodes)) ==> SameAt(nodes, old(nodes), destination)
      ensures r.Failed? && !crashed ==> Recoverable(nodes, destination, rollback) == Recoverable(old(nodes), destination, rollback)
      ensures Held(nodes, destination, rollback, Recoverable(old(nodes), destination, rollback))
      ensures !old(crashed) && !faulty ==> r.Applied?
    {
      var ok := MoveAway(destination, pending, rollback);
      if !ok {
        return Failed;
      }
      r := MoveIn(destination, pending, rollback);
    }

    /** A complete copy of the staged database beside its destination. */
    method PrepareFile() returns (ok: bool)
      requires Kinds(nodes)
      modifies this`nodes, this`crashed
      ensures Kinds(nodes) && SameExcept(nodes, old(nodes), {DatabaseNew})
      ensures ok ==> !crashed && StagedDatabase in old(nodes) && DatabaseNew in nodes && nodes[DatabaseNew] == old(nodes)[StagedDatabase]
      ensures !old(crashed) && !faulty && StagedDatabase in old(nodes) ==> ok
    {
      var fails := Fails(); // creating the parent directory
      if fails {
        return false;
      }
      Discard(DatabaseNew);
      ok := CopyFile(StagedDatabase, DatabaseNew);
    }

    method ReplaceFile() returns (r: Outcome)
      requires Kinds(nodes)
      modifies this`nodes, this`crashed
      ensures Kinds(nodes) && FileResult(nodes, old(nodes), r, crashed)
      ensures !old(crashed) && !faulty && StagedDatabase in old(nodes) ==> r.Applied?
    {
      var ok := PrepareFile();
      if !ok {
        return Failed;
      }
      r := Switch(Database, DatabaseNew, DatabaseRollback);
    }

    /** A complete copy of the staged tree beside its destination. */
    method PrepareTree() returns (ok: bool)
      requires Kinds(nodes) && StagedAcme in nodes
      modifies this`nodes, this`crashed
      ensures Kinds(nodes) && SameExcept(nodes, old(nodes), {AcmeNew})
      ensures OnlyStagedNames(old(nodes)) ==> OnlyStagedNames(nodes)
      ensures ok ==> !crashed && AcmeNew in nodes
      ensures ok && OnlyStagedNames(old(nodes)) ==> nodes[AcmeNew] == old(nodes)[StagedAcme]
      ensures !old(crashed) && !faulty ==> ok
    {
      var fails := Fails(); // creating the parent directory
      if fails {
        return false;
      }
      Discard(AcmeNew);
      ghost var leftover := FilesAt(nodes, AcmeNew);
      ok := CopyTree(StagedAcme, AcmeNew);
      if ok && OnlyStagedNames(old(nodes)) {
        UnionIsSource(nodes[AcmeNew].files, leftover, old(nodes)[StagedAcme].files);
      }
    }

    method ReplaceTree() returns (r: Outcome)
      requires Kinds(nodes)
      modifies this`nodes, this`crashed
      ensures Kinds(nodes) && SameExcept(nodes, old(nodes), {Acme, AcmeNew, AcmeRollback})
      ensures r in {Applied, Failed, FailedRollback}
      ensures StagedAcme !in old(nodes) ==> nodes == old(nodes)
      ensures OnlyStagedNames(old(nodes)) ==> OnlyStagedNames(nodes)
      ensures r.Applied? && StagedAcme in old(nodes) && OnlyStagedNames(old(nodes)) ==> Acme in nodes && nodes[Acme] == old(nodes)[StagedAcme]
      ensures r.Failed? && !crashed && (Acme in old(nodes) || AcmeRollback !in old(nodes)) ==> SameAt(nodes, old(nodes), Acme)
      ensures r.Failed? && !crashed ==> Recoverable(nodes, Acme, AcmeRollback) == Recoverable(old(nodes), Acme, AcmeRollback)
      ensures Held(nodes, Acme, AcmeRollback, Recoverable(old(nodes), Acme, AcmeRollback))
      ensures old(crashed) ==> crashed
      ensures !old(crashed) && !faulty ==> r.Applied? && !crashed
    {
      var fails := Fails(); // inspecting the staged tree
      if fails {
        return Failed;
      }
      if StagedAcme !in nodes {
        return Applied;
      }
      var ok := PrepareTree();
      if !ok {
        return Failed;
      }
      r := Switch(Acme, AcmeNew, AcmeRollback);
    }

    /** Deletes the pending record: from here on the restore is final. */
    method RemoveRecord() returns (ok: bool)
      modifies this`record, this`crashed
      ensures record == old(record) || record == None
      ensures ok ==> record == None
      ensures old(crashed) ==> crashed && record == old(record)
      ensures !old(crashed) && !faulty ==> ok && !crashed
    {
      var alreadyDead := crashed;
      var fails := Fails();
      if fails {
        var performed: bool := *;
        if performed && !alreadyDead {
          record := None;
        }
        return false;
      }
      record := None;
      ok := true;
    }

    /** Cleanup once the record is gone: both rollback copies, best effort, and the stage. */
    method Cleanup() returns (ok: bool)
      requires Kinds(nodes)
      modifies this`nodes, this`crashed
      ensures Kinds(nodes) && SameExcept(nodes, old(nodes), {DatabaseRollback, AcmeRollback, StagedDatabase, StagedAcme})
      ensures ok ==> StagedDatabase !in nodes && StagedAcme !in nodes
      ensures !old(crashed) && !faulty ==> ok && DatabaseRollback !in nodes && AcmeRollback !in nodes
    {
      Discard(DatabaseRollback);
      Discard(AcmeRollback);
      ok := RemoveAll(StagedDatabase);
      if ok {
        ok := RemoveAll(StagedAcme);
      }
    }

    /** Replaces the ACME tree; when that fails, puts the replaced database back. */
    method TreeOrUndo(existed: bool) returns (r: Outcome)
      requires Kinds(nodes)
      modifies this`nodes, this`crashed
      ensures Kinds(nodes) && TreeResult(nodes, old(nodes), existed, r, crashed)
      ensures !old(crashed) && !faulty ==> r.Applied? && !crashed
    {
      r := ReplaceTree();
      if r != Applied {
        var ok := RollbackPath(Database, DatabaseRollback, existed);
        r := if !ok then FailedRollback else r;
      }
    }

    /** Replaces the database and then the ACME tree, undoing the first when the second fails. */
    method ReplaceBoth(ghost db: string, ghost acme: Option<map<string, string>>) returns (r: Outcome)
      requires Kinds(nodes)
      modifies this`nodes, this`crashed
      ensures Kinds(nodes) && BothResult(nodes, old(nodes), r, crashed, db, acme)
      ensures !old(crashed) && !faulty && StagedDatabase in old(nodes) ==> r.Applied? && !crashed
    {
      var existed := Database in nodes;
      r := ReplaceFile();
      if r == Applied {
        ghost var mid := nodes;
        r := TreeOrUndo(existed);
        TreeFollowed(old(nodes), mid, nodes, r, crashed, db, acme);
      } else {
        FileFailed(old(nodes), nodes, r, crashed, db, acme);
      }
    }

    /** One start of the controller.

        Whatever fails and whenever the process dies, the pending record either survives together
        with everything it needs, or is gone and the restore is complete. A run without faults
        completes it. A run that reports an error and did not fail to roll back left database and
        ACME home both restored or both recoverable as before; unless it started from a stranded
        disk, the latter means both untouched. As long as the record is there, what could be
        recovered before this start is still at its destination or rollback path, even if the process
        died. */
    method ApplyPendingRestore(ghost db: string, ghost acme: Option<map<string, string>>) returns (r: Outcome)
      requires Kinds(nodes)
      modifies this`nodes, this`record, this`crashed
      ensures Kinds(nodes)
      ensures old(record).None? ==> nodes == old(nodes) && record == None
      ensures old(record) == Some(InvalidRecord) ==> r.Failed? && nodes == old(nodes) && record == old(record)
      ensures IsPending(old(record), old(nodes), db, acme) ==>
        IsPending(record, nodes, db, acme) || (record == None && IsCommitted(nodes, old(nodes), db, acme))
      ensures IsPending(old(record), old(nodes), db, acme) && acme.None? ==> SameAt(nodes, old(nodes), Acme)
      ensures IsPending(old(record), old(nodes), db, acme) && !old(crashed) && !faulty ==>
        r.Applied? && record == None && DatabaseRollback !in nodes && AcmeRollback !in nodes
      ensures r.Applied? ==> record == None && StagedDatabase !in nodes && StagedAcme !in nodes
      ensures r.NothingPending? <==> old(record).None?
      ensures IsPending(old(record), old(nodes), db, acme) && r.Failed? && !crashed && !Stranded(old(nodes)) ==>
        || (SameAt(nodes, old(nodes), Database) && SameAt(nodes, old(nodes), Acme))
        || IsCommitted(nodes, old(nodes), db, acme)
      ensures IsPending(old(record), old(nodes), db, acme) && r.Failed? && !crashed ==>
        IsUndone(nodes, old(nodes)) || IsCommitted(nodes, old(nodes), db, acme)
      ensures record.Some? ==> KeepsOriginals(nodes, old(nodes))
      ensures IsPending(old(record), old(nodes), db, acme) && acme.None? && record.Some? ==> SameAt(nodes, old(nodes), AcmeRollback)
    {
      if record.None? {
        return NothingPending;
      }
      var fails := Fails(); // reading the record
      if fails || record.value.InvalidRecord? {
        return Failed;
      }
      r := ReplaceBoth(db, acme);
      if r != Applied {
        return;
      }
      var ok := RemoveRecord();
      if !ok {
        return Failed;
      }
      ok := Cleanup();
      if !ok {
        return Failed;
      }
    }
  }

  predicate IsUndone(n: Nodes, before: Nodes) {
    && Recoverable(n, Database, DatabaseRollback) == Recoverable(before, Database, DatabaseRollback)
    && Recoverable(n, Acme, AcmeRollback) == Recoverable(before, Acme, AcmeRollback)
  }

  /** A valid record whose staged database and tree are intact. */
  predicate IsPending(record: Option<Record>, n: Nodes, db: string, acme: Option<map<string, string>>) {
    record == Some(ValidRecord) && IsStaged(n, db, acme)
  }

  /** Redo: after any number of starts, each cut short or failing anywhere, one start without
      faults ends with the staged database and tree in place and no pending record. If that start
      still found the record, neither the stage nor a rollback copy is left. */
  method RestoreThroughFaults(disk: Disk, starts: nat, ghost db: string, ghost acme: Option<map<string, string>>)
    returns (last: Outcome)
    requires Kinds(disk.nodes) && IsPending(disk.record, disk.nodes, db, acme)
    modifies disk
    ensures disk.record == None && IsCommitted(disk.nodes, old(disk.nodes), db, acme)
    ensures last.Applied? || last.NothingPending?
    ensures last.Applied? ==> forall s :: s in {StagedDatabase, StagedAcme, DatabaseRollback, AcmeRollback} ==> s !in disk.nodes
    ensures starts == 0 ==> last.Applied?
  {
    for i := 0 to starts
      invariant Kinds(disk.nodes)
      invariant IsPending(disk.record, disk.nodes, db, acme)
                || (disk.record == None && IsCommitted(disk.nodes, old(disk.nodes), db, acme))
      invariant acme.None? ==> SameAt(disk.nodes, old(disk.nodes), Acme)
      invariant i == 0 ==> IsPending(disk.record, disk.nodes, db, acme)
    {
      disk.Restart(true);
      var r := disk.ApplyPendingRestore(db, acme);
    }
    disk.Restart(false);
    last := disk.ApplyPendingRestore(db, acme);
  }

  /** Only what could be recovered is safe. Any other contents at the database's two paths stand at
      the rollback path beside an existing database, and a start that dies after clearing that path
      loses them with the record still pending. */
  method StartDropsDatabase(disk: Disk, ghost c: Node, ghost db: string, ghost acme: Option<map<string, string>>)
    requires Kinds(disk.nodes) && IsPending(disk.record, disk.nodes, db, acme)
    requires Held(disk.nodes, Database, DatabaseRollback, Some(c)) && Recoverable(disk.nodes, Database, DatabaseRollback) != Some(c)
    modifies disk
    ensures IsPending(disk.record, disk.nodes, db, acme) && !Held(disk.nodes, Database, DatabaseRollback, Some(c))
  {
    disk.Restart(false);
    var ok := disk.PrepareFile();
    disk.Discard(DatabaseRollback);
  }

  method ClearTreeRollback(disk: Disk, ghost c: Node, ghost db: string, ghost files: map<string, string>)
    requires Kinds(disk.nodes) && IsStaged(disk.nodes, db, Some(files)) && !disk.crashed && !disk.faulty
    requires Held(disk.nodes, Acme, AcmeRollback, Some(c)) && Recoverable(disk.nodes, Acme, AcmeRollback) != Some(c)
    modifies disk`nodes, disk`crashed
    ensures IsStaged(disk.nodes, db, Some(files)) && !Held(disk.nodes, Acme, AcmeRollback, Some(c))
  {
    var ok := disk.PrepareTree();
    disk.Discard(AcmeRollback);
  }

  /** So it is for the ACME tree when one is staged. */
  method StartDropsTree(disk: Disk, ghost c: Node, ghost db: string, ghost files: map<string, string>)
    requires Kinds(disk.nodes) && IsPending(disk.record, disk.nodes, db, Some(files))
    requires Held(disk.nodes, Acme, AcmeRollback, Some(c)) && Recoverable(disk.nodes, Acme, AcmeRollback) != Some(c)
    modifies disk
    ensures IsPending(disk.record, disk.nodes, db, Some(files)) && !Held(disk.nodes, Acme, AcmeRollback, Some(c))
  {
    disk.Restart(false);
    var r := disk.ReplaceFile();
    FileOnly(old(disk.nodes), disk.nodes);
    ClearTreeRollback(disk, c, db, files);
  }

  /** Hence an original survives one start but not always two: when each dies right after it replaced
      the database, the staged database stands at both paths and the original at neither, with the
      record still pending. */
  method TwoStartsDropOriginal(disk: Disk, ghost db: string, ghost acme: Option<map<string, string>>)
    requires Kinds(disk.nodes) && IsPending(disk.record, disk.nodes, db, acme) && Database in disk.nodes
    modifies disk
    ensures IsPending(disk.record, disk.nodes, db, acme)
    ensures Database in disk.nodes && disk.nodes[Database] == File(db)
    ensures DatabaseRollback in disk.nodes && disk.nodes[DatabaseRollback] == File(db)
    ensures old(disk.nodes)[Database] != File(db) ==>
              !Held(disk.nodes, Database, DatabaseRollback, Some(old(disk.nodes)[Database]))
  {
    disk.Restart(false);
    var first := disk.ReplaceFile();
    disk.Restart(false);
    var second := disk.ReplaceFile();
  }

  /** A copy of the staged tree that was cut short has no name the staged tree lacks. */
  predicate OnlyStagedNames(n: Nodes) {
    StagedAcme in n ==> FilesAt(n, AcmeNew).Keys <= FilesAt(n, StagedAcme).Keys
  }

  lemma UnionIsSource(files: map<string, string>, start: map<string, string>, source: map<string, string>)
    requires IsUnion(files, start, source, {}) && start.Keys <= source.Keys
    ensures files == source
  {
  }

  /** Nothing was added at `s`. */
  predicate Shrunk(n: Nodes, before: Nodes, s: Slot) {
    s in n ==> s in before && FilesAt(n, s).Keys <= FilesAt(before, s).Keys
  }

  predicate SameKind(destination: Slot, pending: Slot, rollback: Slot) {
    && destination != pending && destination != rollback && pending != rollback
    && IsDatabase(destination) == IsDatabase(pending) == IsDatabase(rollback)
  }

  /** The destination holds what was at `source`; its old contents, if any, are kept for rollback. */
  predicate IsSwitched(n: Nodes, before: Nodes, destination: Slot, source: Slot, rollback: Slot) {
    && source in before && destination in n && n[destination] == before[source]
    && (destination in before ==> rollback in n && n[rollback] == before[destination])
    && (destination !in before ==> SameAt(n, before, rollback))
  }

  function FilesAt(n: Nodes, s: Slot): map<string, string> {
    if s in n && n[s].Tree? then n[s].files else map[]
  }

  /** `files` is `start` and the part of `source` outside `todo`, which have no name in common. */
  ghost predicate IsUnion(files: map<string, string>, start: map<string, string>, source: map<string, string>, todo: set<string>) {
    && (forall name :: name in files <==> name in start || (name in source && name !in todo))
    && (forall name :: name in start && name in files ==> files[name] == start[name])
    && (forall name :: name in source && name !in todo ==> name !in start && name in files && files[name] == source[name])
  }
}
