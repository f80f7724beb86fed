/** Retention: forgetting a subject, and what that does to references and to the activity history. */
module Retentions {
  import opened Prelude
  import opened Tables
  import opened Commands
  import opened Invariants

  predicate Assigned(i: Issue, org: Id, subject: Id) {
    i.org == org && i.assignee == Some(subject)
  }

  /** The assignments of the subject end, each with a new revision. */
  function Unassigned(issues: map<Id, Issue>, org: Id, subject: Id): map<Id, Issue> {
    map i | i in issues ::
      if Assigned(issues[i], org, subject) then issues[i].(assignee := None, revision := issues[i].revision + 1)
      else issues[i]
  }

  /** The subject's records stay, under another name. */
  function Renamed(activity: seq<ActivityRow>, org: Id, subject: Id, tombstone: Id): (r: seq<ActivityRow>)
    ensures |r| == |activity|
  {
    if activity == [] then []
    else
      var last := activity[|activity| - 1];
      Renamed(activity[..|activity| - 1], org, subject, tombstone)
      + [if last.org == org && last.actor == subject then last.(actor := tombstone) else last]
  }

  function Forget(db: Db, org: Id, subject: Id, tombstone: Id): Db {
    db.(issues := Unassigned(db.issues, org, subject), activity := Renamed(db.activity, org, subject, tombstone))
  }

  /** The transaction of `apply_retention`, which keeps receipts of its own and records no activity. */
  function Apply(db: Db, action: Id, r: Retention): Db {
    if action in db.retentions then db
    else Forget(db, r.org, r.subject, "privacy:" + action).(retentions := db.retentions[action := r])
  }

  function Applied(db: Db, action: Id, r: Retention): Result<string, StorageError> {
    if action in db.retentions && db.retentions[action] != r then Refuse(IdempotencyConflict)
    else Ok("projects-retention:" + action)
  }

  lemma UnassignedIssues(db: Db, org: Id, subject: Id)
    requires IssuesOk(db.projects, db.states, db.issues)
    ensures IssuesOk(db.projects, db.states, Unassigned(db.issues, org, subject))
  {
    var issues := Unassigned(db.issues, org, subject);
    forall i | i in issues ensures IssueOk(db.projects, db.states, issues[i]) {
      assert IssueOk(db.projects, db.states, db.issues[i]);
    }
  }

  lemma UnassignedAliases(db: Db, org: Id, subject: Id)
    requires AliasesOk(db.issues, db.aliases)
    ensures AliasesOk(Unassigned(db.issues, org, subject), db.aliases)
  {
  }

  lemma UnassignedParents(issues: map<Id, Issue>, org: Id, subject: Id)
    requires ParentsOk(issues)
    ensures ParentsOk(Unassigned(issues, org, subject))
  {
    var after := Unassigned(issues, org, subject);
    forall i | i in after && after[i].parent.Some?
      ensures after[i].parent.value in after && after[after[i].parent.value].org == after[i].org
    {
      assert after[i].parent == issues[i].parent;
    }
  }

  /** Forgetting a subject keeps every reference, identifier and parent. */
  lemma ForgetKeepsTables(db: Db, org: Id, subject: Id, tombstone: Id)
    requires Structural(db)
    ensures Structural(Forget(db, org, subject, tombstone))
  {
    UnassignedIssues(db, org, subject);
    UnassignedAliases(db, org, subject);
    UnassignedParents(db.issues, org, subject);
    IssuesSwap(db, db.teams, Unassigned(db.issues, org, subject), db.aliases);
    SameTables(db.(teams := db.teams, issues := Unassigned(db.issues, org, subject), aliases := db.aliases),
               Forget(db, org, subject, tombstone));
  }

  lemma SameTables(a: Db, b: Db)
    requires Structural(a) && b == a.(activity := b.activity, retentions := b.retentions)
    ensures Structural(b)
  {
  }

  lemma {:induction false} RenamedRevisions(activity: seq<ActivityRow>, org: Id, subject: Id, tombstone: Id,
                                            kind: EntityKind, e: Id)
    ensures Revisions(Renamed(activity, org, subject, tombstone), kind, e) == Revisions(activity, kind, e)
  {
    if activity != [] {
      var before := activity[..|activity| - 1];
      RenamedRevisions(before, org, subject, tombstone, kind, e);
      var r := Renamed(activity, org, subject, tombstone);
      assert r[..|r| - 1] == Renamed(before, org, subject, tombstone);
    }
  }

  lemma ApplyKeepsRecords(db: Db, action: Id, r: Retention, kind: EntityKind, e: Id)
    ensures Revisions(Apply(db, action, r).activity, kind, e) == Revisions(db.activity, kind, e)
  {
    RenamedRevisions(db.activity, r.org, r.subject, "privacy:" + action, kind, e);
  }

  lemma ApplyRevisions(db: Db, action: Id, r: Retention, e: Id)
    ensures TeamRevision(Apply(db, action, r), e) == TeamRevision(db, e)
    ensures ProjectRevision(Apply(db, action, r), e) == ProjectRevision(db, e)
    ensures IssueRevision(Apply(db, action, r), e) >= IssueRevision(db, e)
  {
  }

  lemma ApplyKeepsHistory(db: Db, action: Id, r: Retention)
    requires HistoryOk(db)
    ensures HistoryOk(Apply(db, action, r))
  {
    hide Apply, Revisions;
    var db' := Apply(db, action, r);
    forall t ensures Revisions(db'.activity, TeamEntity, t) == UpTo(TeamRevision(db', t)) {
      ApplyKeepsRecords(db, action, r, TeamEntity, t);
      ApplyRevisions(db, action, r, t);
    }
    forall p ensures Revisions(db'.activity, ProjectEntity, p) == UpTo(ProjectRevision(db', p)) {
      ApplyKeepsRecords(db, action, r, ProjectEntity, p);
      ApplyRevisions(db, action, r, p);
    }
    forall i ensures Climbs(Revisions(db'.activity, IssueEntity, i), IssueRevision(db', i)) {
      ApplyKeepsRecords(db, action, r, IssueEntity, i);
      ApplyRevisions(db, action, r, i);
    }
  }

  /** Retention keeps what commands keep; the records of an Issue still ascend, with gaps. */
  lemma ApplyKeeps(db: Db, action: Id, r: Retention)
    requires Invariant(db)
    ensures Invariant(Apply(db, action, r))
  {
    hide HistoryOk, Structural;
    ApplyKeepsHistory(db, action, r);
    if action !in db.retentions {
      ForgetKeepsTables(db, r.org, r.subject, "privacy:" + action);
      SameTables(Forget(db, r.org, r.subject, "privacy:" + action), Apply(db, action, r));
    }
  }

  // ---- What is left of a subject

  lemma {:induction false} RenamedAt(activity: seq<ActivityRow>, org: Id, subject: Id, tombstone: Id, k: nat)
    requires k < |activity|
    ensures var was := activity[k];
            Renamed(activity, org, subject, tombstone)[k]
            == ActivityRow(was.org, was.project, was.issue,
                           if was.org == org && was.actor == subject then tombstone else was.actor,
                           was.kind, was.entity, was.revision)
  {
    if k < |activity| - 1 {
      RenamedAt(activity[..|activity| - 1], org, subject, tombstone, k);
    }
  }

  lemma UnassignedAt(issues: map<Id, Issue>, org: Id, subject: Id, i: Id)
    requires i in issues
    ensures var was := issues[i];
            var cleared := was.org == org && was.assignee == Some(subject);
            && i in Unassigned(issues, org, subject)
            && Unassigned(issues, org, subject)[i]
               == Issue(was.org, was.project, was.team, was.identifier, was.title, was.state, was.parent,
                        if cleared then None else was.assignee, was.archived,
                        was.revision + if cleared then 1 else 0)
  {
  }

  /** A new action ends the subject's assignments and writes its tombstone for the subject; nothing else changes. */
  lemma ForgottenExactly(db: Db, action: Id, r: Retention)
    requires action !in db.retentions
    ensures Applied(db, action, r) == Ok("projects-retention:" + action)
    ensures var after := Apply(db, action, r);
            && after == db.(issues := after.issues, activity := after.activity,
                            retentions := db.retentions[action := r])
            && after.issues.Keys == db.issues.Keys
            && (forall i :: i in db.issues ==>
                  var was := db.issues[i];
                  var cleared := was.org == r.org && was.assignee == Some(r.subject);
                  after.issues[i]
                  == Issue(was.org, was.project, was.team, was.identifier, was.title, was.state, was.parent,
                           if cleared then None else was.assignee, was.archived,
                           was.revision + if cleared then 1 else 0))
            && |after.activity| == |db.activity|
            && (forall k :: 0 <= k < |db.activity| ==>
                  var was := db.activity[k];
                  after.activity[k]
                  == ActivityRow(was.org, was.project, was.issue,
                                 if was.org == r.org && was.actor == r.subject then "privacy:" + action else was.actor,
                                 was.kind, was.entity, was.revision))
  {
    hide Unassigned, Renamed;
    var after := Apply(db, action, r);
    SameKeys(db.issues, r.org, r.subject);
    forall i | i in db.issues
      ensures i in after.issues && var was := db.issues[i];
              var cleared := was.org == r.org && was.assignee == Some(r.subject);
              after.issues[i]
              == Issue(was.org, was.project, was.team, was.identifier, was.title, was.state, was.parent,
                       if cleared then None else was.assignee, was.archived,
                       was.revision + if cleared then 1 else 0)
    {
      UnassignedAt(db.issues, r.org, r.subject, i);
    }
    forall k | 0 <= k < |db.activity|
      ensures var was := db.activity[k];
              after.activity[k]
              == ActivityRow(was.org, was.project, was.issue,
                             if was.org == r.org && was.actor == r.subject then "privacy:" + action else was.actor,
                             was.kind, was.entity, was.revision)
    {
      RenamedAt(db.activity, r.org, r.subject, "privacy:" + action, k);
    }
  }

  lemma SameKeys(issues: map<Id, Issue>, org: Id, subject: Id)
    ensures Unassigned(issues, org, subject).Keys == issues.Keys
  {
  }

  /** An action that was applied before changes nothing and is confirmed again, unless it is another request. */
  lemma RepeatedExactly(db: Db, action: Id, r: Retention)
    requires action in db.retentions
    ensures Apply(db, action, r) == db
    ensures Applied(db, action, r)
         == if db.retentions[action].org == r.org && db.retentions[action].subject == r.subject
               && db.retentions[action].delete == r.delete then Ok("projects-retention:" + action)
            else Err(Domain(IdempotencyConflict))
  {
  }

  /** Unless the subject is called like the tombstone, no assignment and no record of the Organization names it. */
  lemma NoTrace(db: Db, action: Id, r: Retention)
    requires action !in db.retentions && r.subject != "privacy:" + action
    ensures var after := Apply(db, action, r);
            && (forall i :: i in after.issues && after.issues[i].org == r.org ==>
                  after.issues[i].assignee != Some(r.subject))
            && (forall row :: row in after.activity && row.org == r.org ==> row.actor != r.subject)
  {
    ForgottenExactly(db, action, r);
    hide Apply;
    var after := Apply(db, action, r);
    forall row | row in after.activity && row.org == r.org ensures row.actor != r.subject {
      var k :| 0 <= k < |after.activity| && after.activity[k] == row;
      assert after.activity[k].org == db.activity[k].org;
    }
  }
}
