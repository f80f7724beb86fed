/** Issue identifiers over whole runs: issued once, recorded for ever, and when they still resolve. */
module Identifiers {
  import opened Prelude
  import opened Text
  import opened Tables
  import opened Commands
  import opened Invariants
  import opened Runs

  /** An Issue reference is an issue id first and a recorded identifier second. */
  function Resolve(db: Db, org: Id, text: string): Option<Id> {
    if text in db.issues && db.issues[text].org == org then Some(text)
    else if (org, text) in db.aliases then Some(db.aliases[(org, text)].issue)
    else None
  }

  predicate Shows(db: Db, issue: Id, org: Id, text: string) {
    issue in db.issues && db.issues[issue].org == org && db.issues[issue].identifier == text
  }

  lemma NamesFrom(db: Db, ready: Db, changed: Db, db': Db)
    requires ready.teams == db.teams && ready.aliases == db.aliases && Names(ready, changed)
    requires db'.teams == changed.teams && db'.aliases == changed.aliases
    ensures Names(db, db')
  {
    forall a | a in db'.aliases && a !in db.aliases ensures exists t :: Issued(db, db', t, a) {
      var t :| Issued(ready, changed, t, a);
      assert Issued(db, db', t, a);
    }
  }

  lemma BodyNames(db: Db, actor: Id, now: int, ids: FreshIds, r: Request, cap: Captured)
    requires Structural(db) && Shaped(r) && (NeedsCatalog(r) ==> r.org in db.workspaces)
    requires Body(db, actor, now, ids, r, cap).Ok?
    ensures Names(db, Body(db, actor, now, ids, r, cap).value.db)
  {
    BodyKeeps(db, actor, now, ids, r, cap);
  }

  lemma PerformNames(db: Db, c: Command, now: int, ids: FreshIds, cap: Captured)
    requires Structural(db) && Shaped(c.request) && Perform(db, c, now, ids, cap).Ok?
    ensures Names(db, Perform(db, c, now, ids, cap).value.db)
  {
    if NeedsCatalog(c.request) {
      var ready := EnsureCatalog(db, c.request.org, ids).value;
      CatalogKeeps(db, c.request.org, ids);
      BodyNames(ready, c.actor, now, ids, c.request, cap);
      NamesFrom(db, ready, Perform(db, c, now, ids, cap).value.db, Perform(db, c, now, ids, cap).value.db);
    } else {
      BodyNames(db, c.actor, now, ids, c.request, cap);
    }
  }

  lemma ReservedNames(before: Db, db: Db, c: Command, now: int, ids: FreshIds, cap: Captured)
    requires Structural(db) && Shaped(c.request) && db.teams == before.teams && db.aliases == before.aliases
    ensures Names(before, Reserved(before, db, c, now, ids, cap).db)
  {
    if KeyOf(c) !in db.commands && Perform(db, c, now, ids, cap).Ok? {
      var change := Perform(db, c, now, ids, cap).value;
      PerformNames(db, c, now, ids, cap);
      NamesFrom(before, db, change.db, Committed(change, c));
    } else {
      NamesFrom(before, before, before, Reserved(before, db, c, now, ids, cap).db);
    }
  }

  lemma NamesStay(db: Db)
    ensures Names(db, db)
  {
  }

  lemma TransactNames(db: Db, c: Command, now: int, ids: FreshIds, cap: Captured)
    requires Structural(db) && Shaped(c.request)
    ensures Names(db, Transact(db, c, now, ids, cap).db)
  {
    hide Names, Structural, Reserved;
    if CatalogFirst(c.request) {
      NamesStay(db);
      if EnsureCatalog(db, c.request.org, ids).Ok? {
        EnsureCatalogShape(db, c.request.org, ids);
        CatalogKeeps(db, c.request.org, ids);
        ReservedNames(db, EnsureCatalog(db, c.request.org, ids).value, c, now, ids, cap);
      }
    } else {
      ReservedNames(db, db, c, now, ids, cap);
    }
  }

  lemma AfterNames(db: Db, step: Step)
    requires Structural(db) && Legal([step])
    ensures Names(db, After(db, step))
  {
    hide Transact, Structural;
    assert step in [step];
    match step
    case Execute(c, now, ids, cap) => TransactNames(db, c, now, ids, cap);
    case Initialize(org, ids) =>
      if EnsureCatalog(db, org, ids).Ok? {
        EnsureCatalogShape(db, org, ids);
      }
    case Retain(_, _) =>
  }

  lemma StepNames(steps: seq<Step>, n: nat)
    requires Legal(steps) && n < |steps|
    ensures Names(At(steps, n), At(steps, n + 1))
  {
    hide Transact, Structural, Names, After;
    AtNext(steps, n);
    ReachableInvariant(steps, n);
    AfterNames(At(steps, n), steps[n]);
  }

  lemma StepKeepsRecord(steps: seq<Step>, n: nat, a: (Id, string))
    requires Legal(steps) && n < |steps| && a in At(steps, n).aliases
    ensures a in At(steps, n + 1).aliases && At(steps, n + 1).aliases[a] == At(steps, n).aliases[a]
  {
    StepNames(steps, n);
  }

  /** A recorded identifier stays recorded for the same Issue. */
  lemma {:induction false} RecordsLast(steps: seq<Step>, i: nat, j: nat, a: (Id, string))
    requires Legal(steps) && i <= j <= |steps| && a in At(steps, i).aliases
    ensures a in At(steps, j).aliases && At(steps, j).aliases[a] == At(steps, i).aliases[a]
    decreases j
  {
    hide Transact;
    if i < j {
      RecordsLast(steps, i, j - 1, a);
      StepKeepsRecord(steps, j - 1, a);
    }
  }

  lemma ShownIsRecorded(steps: seq<Step>, n: nat, issue: Id, org: Id, text: string)
    requires Legal(steps) && n <= |steps| && Shows(At(steps, n), issue, org, text)
    ensures (org, text) in At(steps, n).aliases && At(steps, n).aliases[(org, text)].issue == issue
  {
    ReachableInvariant(steps, n);
  }

  lemma RecordedExists(steps: seq<Step>, n: nat, org: Id, text: string)
    requires Legal(steps) && n <= |steps| && (org, text) in At(steps, n).aliases
    ensures var issue := At(steps, n).aliases[(org, text)].issue;
            issue in At(steps, n).issues && At(steps, n).issues[issue].org == org
  {
    ReachableInvariant(steps, n);
  }

  /** An identifier that one Issue showed is never shown by another one, in any later state. */
  lemma NeverReissued(steps: seq<Step>, i: nat, j: nat, x: Id, y: Id, org: Id, text: string)
    requires Legal(steps) && i <= j <= |steps|
    requires Shows(At(steps, i), x, org, text) && Shows(At(steps, j), y, org, text)
    ensures x == y
  {
    ShownIsRecorded(steps, i, x, org, text);
    RecordsLast(steps, i, j, (org, text));
    ShownIsRecorded(steps, j, y, org, text);
  }

  /** Every identifier an Issue ever showed is its current one or among its previous ones. */
  lemma PreviousIsComplete(steps: seq<Step>, i: nat, j: nat, x: Id, org: Id, text: string)
    requires Legal(steps) && i <= j <= |steps| && Shows(At(steps, i), x, org, text)
    ensures x in At(steps, j).issues && At(steps, j).issues[x].org == org
    ensures At(steps, j).issues[x].identifier == text || text in Previous(At(steps, j), x)
  {
    ShownIsRecorded(steps, i, x, org, text);
    RecordsLast(steps, i, j, (org, text));
    RecordedExists(steps, j, org, text);
    var db := At(steps, j);
    assert (org, text) in db.aliases.Keys;
  }

  /**
   An identifier keeps resolving to the Issue it was issued to exactly as long as no other
   Issue of the Organization was created with that very text as its id.
   */
  lemma ResolvesExactly(steps: seq<Step>, i: nat, j: nat, x: Id, org: Id, text: string)
    requires Legal(steps) && i <= j <= |steps| && Shows(At(steps, i), x, org, text)
    ensures var db := At(steps, j);
            Resolve(db, org, text) == Some(x) <==> !(text in db.issues && db.issues[text].org == org && text != x)
  {
    ShownIsRecorded(steps, i, x, org, text);
    RecordsLast(steps, i, j, (org, text));
  }

  // ---- Team keys and numbering

  predicate Counts(db: Db, t: Id, number: nat, a: (Id, string)) {
    t in db.teams && db.teams[t].org == a.0 && number < db.teams[t].nextNumber
        && a.1 == Identifier(db.teams[t].key, number)
  }

  /** Every recorded identifier is some Team's current key with a number that Team has used up. */
  ghost predicate Counted(db: Db) {
    forall a :: a in db.aliases ==> exists t, number :: Counts(db, t, number, a)
  }

  predicate KeyStays(db: Db, db': Db, t: Id) {
    t in db.teams && t in db'.teams ==> db'.teams[t].key == db.teams[t].key
  }

  predicate KeysStay(db: Db, db': Db) {
    forall t :: t in db.teams ==> KeyStays(db, db', t)
  }

  lemma NamesKeepCounted(db: Db, db': Db)
    requires Names(db, db') && Counted(db) && KeysStay(db, db')
    ensures Counted(db')
  {
    forall a | a in db'.aliases ensures exists t, number :: Counts(db', t, number, a) {
      if a in db.aliases {
        var t, number :| Counts(db, t, number, a);
        assert Counts(db', t, number, a);
      } else {
        var t :| Issued(db, db', t, a);
        assert Counts(db', t, db.teams[t].nextNumber, a);
      }
    }
  }

  /** With keys that never change, a Team's next identifier is always a new one. */
  lemma CountedIsFree(db: Db, team: Id)
    requires TeamsOk(db.teams) && Counted(db) && team in db.teams
    ensures (db.teams[team].org, NextIdentifier(db.teams, team)) !in db.aliases
  {
    var a := (db.teams[team].org, NextIdentifier(db.teams, team));
    if a in db.aliases {
      var t, number :| Counts(db, t, number, a);
      IdentifierInjective(db.teams[t].key, number, db.teams[team].key, db.teams[team].nextNumber);
    }
  }

  lemma {:induction false} RunKeepsCounted(steps: seq<Step>, n: nat)
    requires Legal(steps) && n <= |steps|
    requires forall k :: 0 <= k < n ==> KeysStay(At(steps, k), At(steps, k + 1))
    ensures Counted(At(steps, n))
  {
    hide Transact;
    if n > 0 {
      RunKeepsCounted(steps, n - 1);
      StepNames(steps, n - 1);
      assert KeysStay(At(steps, n - 1), At(steps, n - 1 + 1));
      NamesKeepCounted(At(steps, n - 1), At(steps, n));
    }
  }

  /** As long as no Team's key was changed, no create or move is refused over its identifier. */
  lemma NextIsFree(steps: seq<Step>, n: nat, team: Id)
    requires Legal(steps) && n <= |steps| && team in At(steps, n).teams
    requires forall k :: 0 <= k < n ==> KeysStay(At(steps, k), At(steps, k + 1))
    ensures (At(steps, n).teams[team].org, NextIdentifier(At(steps, n).teams, team)) !in At(steps, n).aliases
  {
    RunKeepsCounted(steps, n);
    ReachableInvariant(steps, n);
    CountedIsFree(At(steps, n), team);
  }

  ghost predicate Blocked(db: Db, team: Id) {
    team in db.teams && (db.teams[team].org, NextIdentifier(db.teams, team)) in db.aliases
  }

  lemma BlockedCreate(db: Db, actor: Id, now: int, r: Request)
    requires r.CreateIssue? && Blocked(db, r.team)
    ensures CreateIssueBody(db, actor, now, r).Err?
  {
  }

  lemma BlockedMove(db: Db, actor: Id, now: int, r: Request, cap: Captured)
    requires r.MoveIssue? && Blocked(db, r.team)
    ensures MoveIssueBody(db, actor, now, r, cap).Err?
  {
  }

  /** A Team whose next identifier is taken has every create and move into it refused, and rolled back. */
  lemma BlockedRefuses(db: Db, c: Command, now: int, ids: FreshIds, cap: Captured)
    requires KeyOf(c) !in db.commands && (c.request.CreateIssue? || c.request.MoveIssue?)
    requires Blocked(db, c.request.team)
    ensures Transact(db, c, now, ids, cap).result.Err? && Transact(db, c, now, ids, cap).db == db
  {
    if c.request.CreateIssue? {
      BlockedCreate(db, c.actor, now, c.request);
    } else {
      BlockedMove(db, c.actor, now, c.request, cap);
    }
  }

  lemma NamesKeepBlocked(db: Db, db': Db, team: Id)
    requires Names(db, db') && KeyStays(db, db', team) && Blocked(db, team)
    ensures Blocked(db', team)
  {
  }

  lemma StepKeepsBlocked(steps: seq<Step>, n: nat, team: Id)
    requires Legal(steps) && n < |steps|
    requires KeyStays(At(steps, n), At(steps, n + 1), team) && Blocked(At(steps, n), team)
    ensures Blocked(At(steps, n + 1), team)
  {
    StepNames(steps, n);
    NamesKeepBlocked(At(steps, n), At(steps, n + 1), team);
  }

  /** The number is rolled back too, so only a new key for the Team ends this. */
  lemma {:induction false} BlockedUntilRekeyed(steps: seq<Step>, i: nat, j: nat, team: Id)
    requires Legal(steps) && i <= j <= |steps| && Blocked(At(steps, i), team)
    requires forall k :: i <= k < j ==> KeyStays(At(steps, k), At(steps, k + 1), team)
    ensures Blocked(At(steps, j), team)
    decreases j
  {
    hide Transact, After, At, Blocked, KeyStays;
    if i < j {
      BlockedUntilRekeyed(steps, i, j - 1, team);
      assert KeyStays(At(steps, j - 1), At(steps, j - 1 + 1), team);
      StepKeepsBlocked(steps, j - 1, team);
    }
  }

  // ---- What else it takes to create or move an Issue

  lemma ShownIsTaken(db: Db, org: Id, identifier: string, except: Id)
    requires AliasesOk(db.issues, db.aliases) && (org, identifier) !in db.aliases
    ensures !IdentifierShown(db.issues, org, identifier, except)
  {
  }

  /** Given a free identifier, a create goes through exactly when its references are there and its id is new. */
  lemma CreateExactly(db: Db, actor: Id, now: int, r: Request)
    requires AliasesOk(db.issues, db.aliases) && r.CreateIssue? && TeamExists(db, r.org, r.team)
    requires (r.org, NextIdentifier(db.teams, r.team)) !in db.aliases
    ensures CreateIssueBody(db, actor, now, r).Ok? <==>
            ResolveState(db, r.org, r.team, r.stateChoice).Ok? && r.issue !in db.issues
            && TeamAttached(db, r.org, r.project, r.team) && ParentExists(db.issues, r.org, r.parent)
            && r.parent != Some(r.issue)
  {
    ShownIsTaken(db, r.org, NextIdentifier(db.teams, r.team), r.issue);
  }

  /** A move goes through exactly when the revision matches, the state is the new Team's and the Team is attached. */
  lemma MoveExactly(db: Db, actor: Id, now: int, r: Request, cap: Captured)
    requires AliasesOk(db.issues, db.aliases) && r.MoveIssue? && TeamExists(db, r.org, r.team)
    requires (r.org, NextIdentifier(db.teams, r.team)) !in db.aliases
    ensures MoveIssueBody(db, actor, now, r, cap).Ok? <==>
            ResolveState(db, r.org, r.team, Some(r.state)).Ok?
            && r.issue in db.issues && db.issues[r.issue].org == r.org
            && ParseRevision(r.revision) == Some(db.issues[r.issue].revision)
            && TeamAttached(db, r.org, db.issues[r.issue].project, r.team)
  {
    ShownIsTaken(db, r.org, NextIdentifier(db.teams, r.team), r.issue);
  }
}
