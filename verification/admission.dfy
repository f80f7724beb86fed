/** What the checks before a transaction establish about the actor. */
module Admission {
  import opened Prelude
  import opened Text
  import opened Tables
  import opened Sorting
  import opened Reorder
  import opened Commands
  import opened Invariants

  /** The actor is an active member of every private Team among these. */
  ghost predicate MemberOfPrivate(db: Db, teams: set<Id>, actor: Id) {
    forall t :: t in teams && t in db.teams && db.teams[t].private ==>
      (t, actor) in db.members && db.members[(t, actor)].active
  }

  function Matching(db: Db, org: Id, teamIds: seq<Id>): set<Id> {
    set t | t in teamIds && t in db.teams && db.teams[t].org == org
  }

  /** One count compared with the length of the list stands for: no repetition, all exist, all are visible. */
  lemma TeamsCheckedExactly(db: Db, org: Id, teamIds: seq<Id>, actor: Id)
    ensures CheckTeams(db, org, teamIds, actor).Ok? <==>
            NoDup(teamIds) && (forall t :: t in teamIds ==> TeamExists(db, org, t) && TeamOpen(db, t, actor))
    ensures CheckTeams(db, org, teamIds, actor) == Refuse(TeamNotFound) <==>
            !(NoDup(teamIds) && forall t :: t in teamIds ==> TeamExists(db, org, t))
  {
    var all, matching := (set t | t in teamIds), Matching(db, org, teamIds);
    assert matching <= all;
    MembersCount(teamIds);
    SubsetSize(matching, all);
    if |matching| == |teamIds| {
      SameSizeSubset(matching, all);
      assert forall t :: t in teamIds ==> t in matching;
    }
    if NoDup(teamIds) && forall t :: t in teamIds ==> TeamExists(db, org, t) {
      assert matching == all;
    }
  }

  /** The Project or Issue a request is about, if it names an existing one. */
  predicate AboutProject(r: Request) {
    r.UpdateProject? || r.ArchiveProject? || r.CreateIssue?
  }

  predicate AboutIssue(r: Request) {
    r.UpdateIssue? || r.MoveIssue? || r.ArchiveIssue? || r.SetAssignee?
  }

  lemma ProjectWasChecked(db: Db, actor: Id, r: Request)
    requires AboutProject(r) && Admit(db, actor, r).Ok?
    ensures CheckProject(db, r.org, r.project, actor).Ok?
  {
    hide CheckTeams, CheckIssueLinks;
  }

  lemma IssueWasChecked(db: Db, actor: Id, r: Request)
    requires AboutIssue(r) && Admit(db, actor, r).Ok?
    ensures CheckIssue(db, r.org, r.issue, actor).Ok?
    ensures r.SetAssignee? && r.assignee.Some? ==> CheckIssue(db, r.org, r.issue, r.assignee.value).Ok?
  {
    hide CheckTeams, CheckIssueLinks;
  }

  /** An admitted command about a Project comes from an actor whom none of its private Teams shuts out. */
  lemma AdmittedSeesProject(db: Db, actor: Id, r: Request)
    requires AboutProject(r) && Admit(db, actor, r).Ok?
    ensures r.project in db.projects && db.projects[r.project].org == r.org
    ensures MemberOfPrivate(db, db.projects[r.project].teams, actor)
  {
    ProjectWasChecked(db, actor, r);
    hide Admit;
  }

  lemma CheckedSees(db: Db, org: Id, issue: Id, actor: Id)
    requires IssuesOk(db.projects, db.states, db.issues) && CheckIssue(db, org, issue, actor).Ok?
    ensures issue in db.issues && db.issues[issue].org == org && db.issues[issue].project in db.projects
    ensures MemberOfPrivate(db, db.projects[db.issues[issue].project].teams, actor)
  {
    IssueHasProject(db, issue);
  }

  /** An admitted command about an Issue comes from an actor who may see its Project; so may a new assignee. */
  lemma AdmittedSeesIssue(db: Db, actor: Id, r: Request)
    requires IssuesOk(db.projects, db.states, db.issues) && AboutIssue(r) && Admit(db, actor, r).Ok?
    ensures r.issue in db.issues && db.issues[r.issue].org == r.org && db.issues[r.issue].project in db.projects
    ensures MemberOfPrivate(db, db.projects[db.issues[r.issue].project].teams, actor)
    ensures r.SetAssignee? && r.assignee.Some? ==>
              MemberOfPrivate(db, db.projects[db.issues[r.issue].project].teams, r.assignee.value)
  {
    IssueWasChecked(db, actor, r);
    hide Admit, CheckIssue, MemberOfPrivate;
    CheckedSees(db, r.org, r.issue, actor);
    if r.SetAssignee? && r.assignee.Some? {
      CheckedSees(db, r.org, r.issue, r.assignee.value);
    }
  }

  lemma IssueHasProject(db: Db, issue: Id)
    requires IssuesOk(db.projects, db.states, db.issues)
    ensures issue in db.issues ==> db.issues[issue].project in db.projects
  {
    if issue in db.issues {
      assert IssueOk(db.projects, db.states, db.issues[issue]);
    }
  }

  // ---- The answer to every request before its transaction

  /** The actor is kept out by none of these Teams. */
  lemma OpenExactly(db: Db, teams: set<Id>, actor: Id)
    requires forall t :: t in teams ==> t in db.teams
    ensures (forall t :: t in teams ==> TeamOpen(db, t, actor)) <==> MemberOfPrivate(db, teams, actor)
  {
  }

  lemma ProjectChecks(db: Db, org: Id, project: Id, actor: Id)
    requires Structural(db)
    ensures CheckProject(db, org, project, actor)
         == if !(project in db.projects && db.projects[project].org == org) then Refuse(NotFound)
            else if !MemberOfPrivate(db, db.projects[project].teams, actor) then Refuse(PrivateTeam)
            else Ok(())
  {
    if project in db.projects {
      assert ProjectOk(db.teams, db.statuses, db.projects[project]);
    }
  }

  lemma IssueChecks(db: Db, org: Id, issue: Id, actor: Id)
    requires Structural(db)
    ensures CheckIssue(db, org, issue, actor)
         == if !(issue in db.issues && db.issues[issue].org == org) then Refuse(NotFound)
            else if db.issues[issue].project in db.projects
                    && !MemberOfPrivate(db, db.projects[db.issues[issue].project].teams, actor) then Refuse(PrivateTeam)
            else Ok(())
  {
    hide TeamsOk, StatesOk, DefaultsOk, StatusesOk, AliasesOk, ParentsOk;
    if issue in db.issues {
      assert IssueOk(db.projects, db.states, db.issues[issue]);
      assert ProjectOk(db.teams, db.statuses, db.projects[db.issues[issue].project]);
    }
  }

  lemma TeamChecks(db: Db, org: Id, teamIds: seq<Id>, actor: Id)
    ensures CheckTeams(db, org, teamIds, actor)
         == if !NoDup(teamIds) || exists t :: t in teamIds && !(t in db.teams && db.teams[t].org == org) then
              Refuse(TeamNotFound)
            else if !MemberOfPrivate(db, (set t | t in teamIds), actor) then Refuse(PrivateTeam)
            else Ok(())
  {
    TeamsCheckedExactly(db, org, teamIds, actor);
    if NoDup(teamIds) && forall t :: t in teamIds ==> TeamExists(db, org, t) {
      OpenExactly(db, (set t | t in teamIds), actor);
    }
    hide NoDup;
  }

  lemma LinkChecks(db: Db, org: Id, project: Id, team: Id, parent: Option<Id>)
    ensures CheckIssueLinks(db, org, project, team, parent)
         == if !(project in db.projects && db.projects[project].org == org && team in db.projects[project].teams) then
              Refuse(TeamNotFound)
            else if parent.Some? && !(parent.value in db.issues && db.issues[parent.value].org == org
                                      && db.issues[parent.value].project == project) then Refuse(ParentNotFound)
            else Ok(())
  {
  }

  /** The first check that fails, or else what the checks have read. */
  function FirstFailure(checks: seq<Result<(), StorageError>>, read: Captured): Result<Captured, StorageError> {
    if checks == [] then Ok(read)
    else if checks[0].Err? then Err(checks[0].error)
    else FirstFailure(checks[1..], read)
  }

  lemma FailuresUnrolled(a: Result<(), StorageError>, b: Result<(), StorageError>, c: Result<(), StorageError>,
                         d: Result<(), StorageError>, read: Captured)
    ensures FirstFailure([], read) == Ok(read)
    ensures FirstFailure([a], read) == Then(a, Ok(read))
    ensures FirstFailure([a, b], read) == Then(a, Then(b, Ok(read)))
    ensures FirstFailure([a, b, c], read) == Then(a, Then(b, Then(c, Ok(read))))
    ensures FirstFailure([a, b, c, d], read) == Then(a, Then(b, Then(c, Then(d, Ok(read)))))
  {
    assert [a][1..] == [] && [a, b][1..] == [b] && [a, b, c][1..] == [b, c] && [a, b, c, d][1..] == [b, c, d];
    assert [b][1..] == [] && [b, c][1..] == [c] && [b, c, d][1..] == [c, d];
    assert [c][1..] == [] && [c, d][1..] == [d] && [d][1..] == [];
    assert FirstFailure([d], read) == Then(d, Ok(read));
    assert FirstFailure([c], read) == Then(c, Ok(read));
    assert FirstFailure([b], read) == Then(b, Ok(read));
    assert FirstFailure([c, d], read) == Then(c, Then(d, Ok(read)));
    assert FirstFailure([b, c], read) == Then(b, Then(c, Ok(read)));
    assert FirstFailure([b, c, d], read) == Then(b, Then(c, Then(d, Ok(read))));
  }

  function Unless(bad: bool, failure: DomainFailure): Result<(), StorageError> {
    if bad then Refuse(failure) else Ok(())
  }

  function RevisionCheck(text: string): Result<(), StorageError> {
    Unless(ParseRevision(text).None?, InvalidRequest)
  }

  /** One to a hundred items, of distinct entries, at distinct positions that a 32-bit number can hold. */
  predicate ItemsFit(items: seq<Item>) {
    && items != [] && |items| <= 100
    && (forall i, j :: 0 <= i < |items| && 0 <= j < |items| && i != j ==>
          items[i].id != items[j].id && items[i].position != items[j].position)
    && (forall i :: 0 <= i < |items| ==> 0 <= items[i].position < 0x8000_0000)
  }

  lemma ItemsFitExactly(items: seq<Item>)
    ensures ItemsOk(items) <==> ItemsFit(items)
  {
  }

  function IssueLinks(db: Db, org: Id, issue: Id, team: Option<Id>, parent: Option<Id>): Result<(), StorageError> {
    if issue !in db.issues then Ok(())
    else
      var row := db.issues[issue];
      CheckIssueLinks(db, org, row.project, if team.Some? then team.value else row.team, parent)
  }

  /** Project and Team of the Issue, as they are carried into the transaction. */
  function Whereabouts(db: Db, issue: Id): Captured {
    if issue in db.issues then Captured(db.issues[issue].project, db.issues[issue].team, map[]) else NOTHING
  }

  /** Which checks stand before the transaction of a command about Teams and catalogs. */
  lemma GovernanceAdmission(db: Db, actor: Id, r: Request)
    ensures r.PutTeam? ==>
              Admit(db, actor, r)
              == if forall t :: t in db.teams && t != r.team && db.teams[t].org == r.org ==> db.teams[t].key != r.key
                 then Ok(NOTHING) else Refuse(KeyConflict)
    ensures r.SetMember? || r.PutState? ==>
              Admit(db, actor, r)
              == if r.team in db.teams && db.teams[r.team].org == r.org then Ok(NOTHING) else Refuse(NotFound)
    ensures r.ReorderStates? || r.ReorderStatuses? ==>
              Admit(db, actor, r) == if ItemsFit(r.items) then Ok(NOTHING) else Refuse(InvalidRequest)
    ensures r.ArchiveState? || r.DeleteState? || r.ArchiveStatus? || r.DeleteStatus? ==>
              Admit(db, actor, r)
              == if ParseRevision(r.revision).Some? then Ok(NOTHING) else Refuse(InvalidRequest)
    ensures r.PutStatus? ==> Admit(db, actor, r) == Ok(NOTHING)
  {
    if r.ReorderStates? || r.ReorderStatuses? {
      ItemsFitExactly(r.items);
    }
  }

  /** The same for Projects: first the Project itself, then the Teams that the request lists. */
  lemma ProjectAdmission(db: Db, actor: Id, r: Request)
    ensures r.CreateProject? ==>
              Admit(db, actor, r) == FirstFailure([CheckTeams(db, r.org, r.teamIds, actor)], NOTHING)
    ensures r.UpdateProject? ==>
              Admit(db, actor, r)
              == FirstFailure([CheckProject(db, r.org, r.project, actor), CheckTeams(db, r.org, r.teamIds, actor),
                               RevisionCheck(r.revision)], NOTHING)
    ensures r.ArchiveProject? ==>
              Admit(db, actor, r)
              == FirstFailure([CheckProject(db, r.org, r.project, actor), RevisionCheck(r.revision)], NOTHING)
  {
    hide CheckTeams, CheckProject;
    if r.CreateProject? {
      var a := CheckTeams(db, r.org, r.teamIds, actor);
      FailuresUnrolled(a, a, a, a, NOTHING);
    } else if r.UpdateProject? {
      var a := CheckProject(db, r.org, r.project, actor);
      FailuresUnrolled(a, CheckTeams(db, r.org, r.teamIds, actor), RevisionCheck(r.revision), a, NOTHING);
    } else if r.ArchiveProject? {
      var a := CheckProject(db, r.org, r.project, actor);
      FailuresUnrolled(a, RevisionCheck(r.revision), a, a, NOTHING);
    }
  }

  /** And for Issues, whose Project and Team are carried into the transaction. */
  lemma IssueAdmission(db: Db, actor: Id, r: Request)
    requires Structural(db)
    ensures r.CreateIssue? ==>
              Admit(db, actor, r)
              == FirstFailure([CheckProject(db, r.org, r.project, actor),
                               CheckIssueLinks(db, r.org, r.project, r.team, r.parent)],
                              Captured(r.project, r.team, map[]))
    ensures r.UpdateIssue? ==>
              Admit(db, actor, r)
              == FirstFailure([CheckIssue(db, r.org, r.issue, actor), IssueLinks(db, r.org, r.issue, None, r.parent),
                               RevisionCheck(r.revision)], Whereabouts(db, r.issue))
    ensures r.MoveIssue? ==>
              Admit(db, actor, r)
              == FirstFailure([CheckIssue(db, r.org, r.issue, actor), CheckTeams(db, r.org, [r.team], actor),
                               IssueLinks(db, r.org, r.issue, Some(r.team), None), RevisionCheck(r.revision)],
                              Whereabouts(db, r.issue))
    ensures r.ArchiveIssue? ==>
              Admit(db, actor, r)
              == FirstFailure([CheckIssue(db, r.org, r.issue, actor), RevisionCheck(r.revision)], NOTHING)
    ensures r.SetAssignee? ==>
              Admit(db, actor, r)
              == FirstFailure([CheckIssue(db, r.org, r.issue, actor),
                               if r.assignee.Some? then CheckIssue(db, r.org, r.issue, r.assignee.value) else Ok(())],
                              NOTHING)
  {
    hide CheckTeams, CheckIssueLinks, CheckProject, CheckIssue, Structural;
    if r.CreateIssue? {
      var a := CheckProject(db, r.org, r.project, actor);
      FailuresUnrolled(a, CheckIssueLinks(db, r.org, r.project, r.team, r.parent), a, a,
                       Captured(r.project, r.team, map[]));
    } else if AboutIssue(r) {
      var a := CheckIssue(db, r.org, r.issue, actor);
      IssueChecks(db, r.org, r.issue, actor);
      if r.UpdateIssue? {
        FailuresUnrolled(a, IssueLinks(db, r.org, r.issue, None, r.parent), RevisionCheck(r.revision), a,
                         Whereabouts(db, r.issue));
      } else if r.MoveIssue? {
        FailuresUnrolled(a, CheckTeams(db, r.org, [r.team], actor), IssueLinks(db, r.org, r.issue, Some(r.team), None),
                         RevisionCheck(r.revision), Whereabouts(db, r.issue));
      } else if r.ArchiveIssue? {
        FailuresUnrolled(a, RevisionCheck(r.revision), a, a, NOTHING);
      } else {
        FailuresUnrolled(a, if r.assignee.Some? then CheckIssue(db, r.org, r.issue, r.assignee.value) else Ok(()), a, a,
                         NOTHING);
      }
    }
  }
}
