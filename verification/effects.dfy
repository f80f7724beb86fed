/**
 What each command does to the rows and what its caller is told, from reservation to commit
 and without a word about how: when it goes through, each refusal in the order in which the
 checks are made, and every column of every row that changes.
 */
module Effects {
  import opened Prelude
  import opened Text
  import opened Tables
  import opened Sorting
  import opened Reorder
  import opened Commands
  import opened Invariants
  import Parents

  /** A record about a Team, a membership or a catalog names no Project and no Issue. */
  function GovernanceRecord(c: Command, kind: EntityKind, entity: Id, revision: Option<nat>): ActivityRow {
    ActivityRow(c.request.org, None, None, c.actor, kind, entity, revision)
  }

  function ProjectRecord(c: Command, project: Id, revision: nat): ActivityRow {
    ActivityRow(c.request.org, Some(project), None, c.actor, ProjectEntity, project, Some(revision))
  }

  function IssueRecord(c: Command, project: Id, issue: Id, revision: nat): ActivityRow {
    ActivityRow(c.request.org, Some(project), Some(issue), c.actor, IssueEntity, issue, Some(revision))
  }

  // ---- From a transaction to its statements

  /** What a caller is told, and what is left, when the statements end like this. */
  ghost function Told(db: Db, c: Command, said: Result<Change, StorageError>): Outcome {
    match said
    case Err(e) => Outcome(db, Err(e))
    case Ok(change) =>
      Outcome(change.db.(activity := change.db.activity + [change.row],
                         commands := change.db.commands[KeyOf(c) := Receipt(c.request, change.reply)]),
              Ok(change.reply))
  }

  lemma Plainly(db: Db, c: Command, now: int, ids: FreshIds, cap: Captured)
    requires Shaped(c.request) && KeyOf(c) !in db.commands && !NeedsCatalog(c.request) && !CatalogFirst(c.request)
    ensures Transact(db, c, now, ids, cap) == Told(db, c, Body(db, c.actor, now, ids, c.request, cap))
  {
    hide Body;
  }

  lemma WithCatalog(db: Db, c: Command, now: int, ids: FreshIds, cap: Captured)
    requires Shaped(c.request) && KeyOf(c) !in db.commands && (NeedsCatalog(c.request) || CatalogFirst(c.request))
    ensures EnsureCatalog(db, c.request.org, ids).Err? ==> Transact(db, c, now, ids, cap) == Told(db, c, Err(Runtime))
    ensures EnsureCatalog(db, c.request.org, ids).Ok? ==>
              var ready := EnsureCatalog(db, c.request.org, ids).value;
              && c.request.org in ready.workspaces
              && Transact(db, c, now, ids, cap) == Told(db, c, Body(ready, c.actor, now, ids, c.request, cap))
  {
    hide Body;
    if EnsureCatalog(db, c.request.org, ids).Ok? {
      EnsureCatalogShape(db, c.request.org, ids);
    }
  }

  lemma BodyIs(db: Db, actor: Id, now: int, ids: FreshIds, r: Request, cap: Captured)
    requires Shaped(r) && (NeedsCatalog(r) || CatalogFirst(r) ==> r.org in db.workspaces)
    ensures var body := Body(db, actor, now, ids, r, cap);
            && (r.PutTeam? ==> body == PutTeamBody(db, actor, r, ids))
            && (r.SetMember? ==> body == SetMemberBody(db, actor, r))
            && (r.PutState? ==> body == PutStateBody(db, actor, r))
            && (r.ArchiveState? ==> body == ArchiveStateBody(db, actor, r))
            && (r.DeleteState? ==> body == DeleteStateBody(db, actor, r))
            && (r.PutStatus? ==> body == PutStatusBody(db, actor, r))
            && (r.ArchiveStatus? ==> body == ArchiveStatusBody(db, actor, r))
            && (r.DeleteStatus? ==> body == DeleteStatusBody(db, actor, r))
            && (r.CreateProject? ==> body == CreateProjectBody(db, actor, now, r))
            && (r.UpdateProject? ==> body == UpdateProjectBody(db, actor, now, r))
            && (r.ArchiveProject? ==> body == ArchiveProjectBody(db, actor, r))
            && (r.CreateIssue? ==> body == CreateIssueBody(db, actor, now, r))
            && (r.UpdateIssue? ==> body == UpdateIssueBody(db, actor, r, cap))
            && (r.MoveIssue? ==> body == MoveIssueBody(db, actor, now, r, cap))
            && (r.ArchiveIssue? ==> body == ArchiveIssueBody(db, actor, r))
            && (r.SetAssignee? ==> body == SetAssigneeBody(db, actor, r))
  {
    hide PutTeamBody, SetMemberBody, PutStateBody, ArchiveStateBody, DeleteStateBody;
    hide PutStatusBody, ArchiveStatusBody, DeleteStatusBody, CreateProjectBody, UpdateProjectBody;
    hide ArchiveProjectBody, CreateIssueBody, UpdateIssueBody, MoveIssueBody, ArchiveIssueBody;
    hide SetAssigneeBody;
  }

  // ---- What a new Organization and a new Team start with

  /** The fresh ids from `from` on are new to the table and differ from one another. */
  predicate Fresh(ids: seq<Id>, taken: set<Id>) {
    NoDup(ids) && forall k :: 0 <= k < |ids| ==> ids[k] !in taken
  }

  function FirstStatuses(org: Id, ids: FreshIds): map<Id, Status> {
    map[ids[0] := Status(org, "Backlog", ProjectBacklog, 0, true, false, 1),
        ids[1] := Status(org, "Planned", ProjectPlanned, 1, false, false, 1),
        ids[2] := Status(org, "In Progress", ProjectStarted, 2, false, false, 1),
        ids[3] := Status(org, "Paused", ProjectPaused, 3, false, false, 1),
        ids[4] := Status(org, "Completed", ProjectCompleted, 4, false, false, 1),
        ids[5] := Status(org, "Canceled", ProjectCanceled, 5, false, false, 1)]
  }

  function FirstStates(org: Id, team: Id, ids: FreshIds): map<Id, WorkflowState> {
    map[ids[6] := WorkflowState(org, team, "Backlog", Backlog, 0, false, 1),
        ids[7] := WorkflowState(org, team, "Todo", Unstarted, 1, false, 1),
        ids[8] := WorkflowState(org, team, "In Progress", Started, 2, false, 1),
        ids[9] := WorkflowState(org, team, "Done", Completed, 3, false, 1),
        ids[10] := WorkflowState(org, team, "Canceled", Canceled, 4, false, 1)]
  }

  lemma NoneFresh(ids: seq<Id>, taken: set<Id>)
    requires ids == []
    ensures Fresh(ids, taken)
  {
  }

  lemma FreshNext(ids: seq<Id>, n: nat, taken: set<Id>)
    requires 0 < n <= |ids|
    ensures Fresh(ids[..n], taken) <==>
            Fresh(ids[..n - 1], taken) && ids[n - 1] !in taken && ids[n - 1] !in ids[..n - 1]
  {
    assert ids[..n] == ids[..n - 1] + [ids[n - 1]];
    if Fresh(ids[..n], taken) {
      forall k | 0 <= k < n - 1 ensures ids[..n - 1][k] == ids[..n][k] {
      }
      assert ids[..n][n - 1] == ids[n - 1];
    }
  }

  lemma StatusNamesDiffer(m: nat, n: nat)
    requires m < n < 6
    ensures STATUS_DEFAULTS[m].0 != STATUS_DEFAULTS[n].0
  {
    assert "Backlog"[0] == 'B' && "Planned"[1] == 'l' && "Paused"[1] == 'a' && "Completed"[1] == 'o'
           && "Canceled"[1] == 'a';
    assert "Planned"[0] == 'P' && "Paused"[0] == 'P' && "Completed"[0] == 'C' && "Canceled"[0] == 'C';
    assert "In Progress"[0] == 'I';
  }

  lemma StateNamesDiffer(m: nat, n: nat)
    requires m < n < 5
    ensures STATE_DEFAULTS[m].0 != STATE_DEFAULTS[n].0
  {
    assert "Backlog"[0] == 'B' && "Todo"[0] == 'T' && "In Progress"[0] == 'I' && "Done"[0] == 'D'
           && "Canceled"[0] == 'C';
  }

  /** The default statuses go in exactly when their fresh ids are new. */
  lemma {:induction false} StatusesInsertable(statuses: map<Id, Status>, org: Id, ids: FreshIds, n: nat)
    requires n <= 6 && forall s :: s in statuses ==> statuses[s].org != org
    ensures InsertStatuses(statuses, org, ids, n).Some? <==> Fresh(ids[..n], statuses.Keys)
  {
    hide Fresh, StatusNameTaken;
    if n == 0 {
      NoneFresh(ids[..0], statuses.Keys);
    } else {
      StatusesInsertable(statuses, org, ids, n - 1);
      FreshNext(ids, n, statuses.Keys);
      if InsertStatuses(statuses, org, ids, n - 1).Some? {
        InsertStatusesFacts(statuses, org, ids, n - 1);
        NextStatusFits(statuses, InsertStatuses(statuses, org, ids, n - 1).value, org, ids, n);
      }
    }
  }

  lemma NextStatusFits(statuses: map<Id, Status>, m: map<Id, Status>, org: Id, ids: FreshIds, n: nat)
    requires 0 < n <= 6
    requires forall s :: s in statuses ==> statuses[s].org != org && s in m && m[s] == statuses[s]
    requires forall s :: s in m ==> s in statuses || s in ids[..n - 1]
    requires forall k :: 0 <= k < n - 1 ==> ids[k] in m && m[ids[k]].name == STATUS_DEFAULTS[k].0
    ensures ids[n - 1] in m <==> ids[n - 1] in statuses || ids[n - 1] in ids[..n - 1]
    ensures !StatusNameTaken(m, org, STATUS_DEFAULTS[n - 1].0, ids[n - 1])
  {
    forall s | s in m && m[s].org == org ensures m[s].name != STATUS_DEFAULTS[n - 1].0 {
      var k :| 0 <= k < n - 1 && ids[..n - 1][k] == s;
      assert ids[k] == s;
      StatusNamesDiffer(k, n - 1);
    }
  }

  lemma {:induction false} StatesInsertable(states: map<Id, WorkflowState>, org: Id, team: Id, ids: FreshIds, n: nat)
    requires n <= 5 && forall s :: s in states ==> states[s].team != team
    ensures InsertStates(states, org, team, ids, n).Some? <==> Fresh(ids[6..][..n], states.Keys)
  {
    hide Fresh, StateNameTaken;
    if n == 0 {
      NoneFresh(ids[6..][..0], states.Keys);
    } else {
      StatesInsertable(states, org, team, ids, n - 1);
      FreshNext(ids[6..], n, states.Keys);
      if InsertStates(states, org, team, ids, n - 1).Some? {
        InsertStatesFacts(states, org, team, ids, n - 1);
        NextStateFits(states, InsertStates(states, org, team, ids, n - 1).value, team, ids, n);
      }
    }
  }

  lemma NextStateFits(states: map<Id, WorkflowState>, m: map<Id, WorkflowState>, team: Id, ids: FreshIds, n: nat)
    requires 0 < n <= 5
    requires forall s :: s in states ==> states[s].team != team && s in m && m[s] == states[s]
    requires forall s :: s in m ==> s in states || s in ids[6..][..n - 1]
    requires forall k :: 0 <= k < n - 1 ==> ids[6..][k] in m && m[ids[6..][k]].name == STATE_DEFAULTS[k].0
    ensures ids[6 + n - 1] == ids[6..][n - 1]
    ensures ids[6 + n - 1] in m <==> ids[6..][n - 1] in states || ids[6..][n - 1] in ids[6..][..n - 1]
    ensures !StateNameTaken(m, team, STATE_DEFAULTS[n - 1].0, ids[6 + n - 1])
  {
    forall s | s in m && m[s].team == team ensures m[s].name != STATE_DEFAULTS[n - 1].0 {
      var k :| 0 <= k < n - 1 && ids[6..][..n - 1][k] == s;
      assert ids[6..][k] == s;
      StateNamesDiffer(k, n - 1);
    }
  }

  /** The catalog of an Organization that has none; one that has one keeps it. */
  lemma CatalogEffect(db: Db, org: Id, ids: FreshIds)
    requires Structural(db)
    ensures EnsureCatalog(db, org, ids)
         == if org in db.workspaces then Ok(db)
            else if !Fresh(ids[..6], db.statuses.Keys) then Err(Runtime)
            else Ok(db.(workspaces := db.workspaces[org := ids[0]], statuses := db.statuses + FirstStatuses(org, ids)))
  {
    if org !in db.workspaces {
      StatusesInsertable(db.statuses, org, ids, 6);
      if EnsureCatalog(db, org, ids).Ok? {
        InsertStatusesFacts(db.statuses, org, ids, 6);
        FirstStatusesOnly(db.statuses, InsertStatuses(db.statuses, org, ids, 6).value, org, ids);
      }
    }
  }

  lemma FirstStatusesAt(org: Id, ids: FreshIds, k: nat)
    requires k < 6 && forall i, j :: 0 <= i < j < 6 ==> ids[i] != ids[j]
    ensures ids[k] in FirstStatuses(org, ids)
    ensures FirstStatuses(org, ids)[ids[k]]
         == Status(org, STATUS_DEFAULTS[k].0, STATUS_DEFAULTS[k].1, k, k == 0, false, 1)
  {
    if k == 0 {
    } else if k == 1 {
    } else if k == 2 {
    } else if k == 3 {
    } else if k == 4 {
    }
  }

  lemma FirstStatusesOnly(statuses: map<Id, Status>, m: map<Id, Status>, org: Id, ids: FreshIds)
    requires Fresh(ids[..6], statuses.Keys)
    requires forall s :: s in statuses ==> s in m && m[s] == statuses[s]
    requires forall s :: s in m ==> s in statuses || s in ids[..6]
    requires forall k :: 0 <= k < 6 ==>
               ids[k] in m && m[ids[k]] == Status(org, STATUS_DEFAULTS[k].0, STATUS_DEFAULTS[k].1, k, k == 0, false, 1)
    ensures m == statuses + FirstStatuses(org, ids)
  {
    var first := FirstStatuses(org, ids);
    forall i, j | 0 <= i < j < 6 ensures ids[i] != ids[j] {
      assert ids[..6][i] != ids[..6][j];
    }
    FirstStatusKeys(org, ids);
    hide FirstStatuses, Fresh;
    forall s | s in ids[..6] ensures s in first && s in m && first[s] == m[s] {
      var k :| 0 <= k < 6 && ids[..6][k] == s;
      assert ids[k] == s;
      FirstStatusesAt(org, ids, k);
    }
  }

  lemma FirstStatusKeys(org: Id, ids: FreshIds)
    ensures FirstStatuses(org, ids).Keys == set s | s in ids[..6]
  {
    assert ids[..6] == [ids[0], ids[1], ids[2], ids[3], ids[4], ids[5]];
  }

  lemma FirstStatesOnly(states: map<Id, WorkflowState>, m: map<Id, WorkflowState>, org: Id, team: Id, ids: FreshIds)
    requires Fresh(ids[6..][..5], states.Keys)
    requires forall s :: s in states ==> s in m && m[s] == states[s]
    requires forall s :: s in m ==> s in states || s in ids[6..][..5]
    requires forall k :: 0 <= k < 5 ==>
               var id := ids[6..][k];
               id in m && m[id] == WorkflowState(org, team, STATE_DEFAULTS[k].0, STATE_DEFAULTS[k].1, k, false, 1)
    ensures m == states + FirstStates(org, team, ids)
  {
    var first, own := FirstStates(org, team, ids), ids[6..][..5];
    forall k | 0 <= k < 5 ensures own[k] == ids[6..][k] == ids[6 + k] {
    }
    assert forall i, j :: 0 <= i < j < 5 ==> own[i] != own[j];
    forall s ensures s in m <==> s in states || s in first {
      if s in own {
        var k :| 0 <= k < 5 && own[k] == s;
        assert ids[6 + k] == s;
      }
    }
  }

  /** A new Team's states go in exactly when their fresh ids are new. */
  lemma FirstWorkflow(states: map<Id, WorkflowState>, org: Id, team: Id, ids: FreshIds)
    requires forall s :: s in states ==> states[s].team != team
    ensures InsertStates(states, org, team, ids, 5)
         == if Fresh(ids[6..][..5], states.Keys) then Some(states + FirstStates(org, team, ids)) else None
  {
    StatesInsertable(states, org, team, ids, 5);
    if InsertStates(states, org, team, ids, 5).Some? {
      InsertStatesFacts(states, org, team, ids, 5);
      FirstStatesOnly(states, InsertStates(states, org, team, ids, 5).value, org, team, ids);
    }
  }

  // ---- What refers to a state

  /** An Issue of the Organization is in this state. */
  predicate StateUsed(db: Db, org: Id, state: Id) {
    exists i :: i in db.issues && db.issues[i].org == org && db.issues[i].state == state
  }

  /** The Team starts its Issues in this state. */
  predicate StartsIn(db: Db, org: Id, team: Id, state: Id) {
    team in db.teams && db.teams[team].org == org && db.teams[team].defaultState == state
  }

  lemma NoStatesYet(db: Db, team: Id)
    requires Structural(db) && team !in db.teams
    ensures forall s :: s in db.states ==> db.states[s].team != team
  {
    hide TeamsOk, DefaultsOk, StatusesOk, ProjectsOk, IssuesOk, AliasesOk, ParentsOk;
  }

  // ---- Teams

  /** The key of another Team of the Organization. */
  predicate Owned(db: Db, org: Id, key: string, team: Id) {
    exists t :: t in db.teams && t != team && db.teams[t].org == org && db.teams[t].key == key
  }

  /** Two to ten capital letters and digits, a letter first. */
  predicate KeyShaped(key: string) {
    2 <= |key| <= 10 && 'A' <= key[0] <= 'Z'
    && forall k :: 0 <= k < |key| ==> 'A' <= key[k] <= 'Z' || '0' <= key[k] <= '9'
  }

  lemma KeysAreShaped(key: string)
    ensures ValidKey(key) <==> KeyShaped(key)
  {
    if ValidKey(key) {
      assert forall k :: 0 <= k < |key| ==> key[k] in key;
    }
    if KeyShaped(key) {
      forall c | c in key ensures 'A' <= c <= 'Z' || IsDigit(c) {
        var k :| 0 <= k < |key| && key[k] == c;
      }
    }
  }

  lemma CreateTeamEffect(db: Db, c: Command, now: int, ids: FreshIds, cap: Captured)
    requires Structural(db) && KeyOf(c) !in db.commands && c.request.PutTeam? && c.request.expected.None?
    ensures var r := c.request;
            Transact(db, c, now, ids, cap) == Told(db, c,
              if EnsureCatalog(db, r.org, ids).Err? then Err(Runtime)
              else if r.defaultState.Some? then Refuse(DefaultStateInvalid)
              else if !KeyShaped(r.key) then Err(Runtime)
              else if r.team in db.teams || Owned(db, r.org, r.key, r.team) then Refuse(KeyConflict)
              else if !Fresh(ids[6..][..5], db.states.Keys) then Err(Runtime)
              else
                var team := Team(r.org, r.key, r.name, r.private, ids[7], 1, 1);
                var ready := EnsureCatalog(db, r.org, ids).value;
                Ok(Change(ready.(teams := db.teams[r.team := team],
                                    states := db.states + FirstStates(r.org, r.team, ids)),
                          TeamReply(r.team, team), GovernanceRecord(c, TeamEntity, r.team, Some(1)))))
  {
    hide Structural;
    WithCatalog(db, c, now, ids, cap);
    hide Transact, Told;
    if EnsureCatalog(db, c.request.org, ids).Ok? {
      BodyIs(EnsureCatalog(db, c.request.org, ids).value, c.actor, now, ids, c.request, cap);
      EnsureCatalogShape(db, c.request.org, ids);
      KeysAreShaped(c.request.key);
      hide Body, EnsureCatalog, ValidKey, KeyShaped;
      if c.request.team !in db.teams {
        NoStatesYet(db, c.request.team);
        FirstWorkflow(db.states, c.request.org, c.request.team, ids);
        hide InsertStates, FirstStates, Fresh;
      }
    }
  }

  /** The Team at the revision that the request expects. */
  predicate TeamAt(db: Db, org: Id, team: Id, revision: string) {
    team in db.teams && db.teams[team].org == org && ParseRevision(revision) == Some(db.teams[team].revision)
  }

  lemma ChangeTeamEffect(db: Db, c: Command, now: int, ids: FreshIds, cap: Captured)
    requires KeyOf(c) !in db.commands && c.request.PutTeam? && c.request.expected.Some?
    ensures var r := c.request;
            Transact(db, c, now, ids, cap) == Told(db, c,
              if EnsureCatalog(db, r.org, ids).Err? then Err(Runtime)
              else if r.defaultState.None? || r.defaultState.value !in db.states then Refuse(DefaultStateInvalid)
              else
                var d := db.states[r.defaultState.value];
                if d.org != r.org || d.team != r.team || d.category != Unstarted || d.archived then
                  Refuse(DefaultStateInvalid)
                else if ParseRevision(r.expected.value).None? then Refuse(InvalidRequest)
                else if !TeamAt(db, r.org, r.team, r.expected.value) then
                  Refuse(RevisionConflict)
                else if !KeyShaped(r.key) || Owned(db, r.org, r.key, r.team) then Err(Runtime)
                else
                  var was := db.teams[r.team];
                  var team := Team(was.org, r.key, r.name, r.private, r.defaultState.value, was.nextNumber,
                                   was.revision + 1);
                  var ready := EnsureCatalog(db, r.org, ids).value;
                  Ok(Change(ready.(teams := db.teams[r.team := team]), TeamReply(r.team, team),
                            GovernanceRecord(c, TeamEntity, r.team, Some(was.revision + 1)))))
  {
    WithCatalog(db, c, now, ids, cap);
    hide Transact, Told;
    if EnsureCatalog(db, c.request.org, ids).Ok? {
      BodyIs(EnsureCatalog(db, c.request.org, ids).value, c.actor, now, ids, c.request, cap);
      EnsureCatalogShape(db, c.request.org, ids);
      KeysAreShaped(c.request.key);
      hide Body, EnsureCatalog, ValidKey, KeyShaped, ParseRevision;
    }
  }

  lemma MemberEffect(db: Db, c: Command, now: int, ids: FreshIds, cap: Captured)
    requires KeyOf(c) !in db.commands && c.request.SetMember?
    ensures var r := c.request;
            Transact(db, c, now, ids, cap) == Told(db, c,
              var k := (r.team, r.subject);
              if k in db.members then
                var revision := db.members[k].revision + if db.members[k].active == r.active then 0 else 1;
                Ok(Change(db.(members := db.members[k := Member(r.active, revision)]),
                          MemberReply(r.team, r.subject, r.active, db.members[k].active != r.active, revision),
                          GovernanceRecord(c, MemberEntity, r.subject, Some(revision))))
              else if !(r.team in db.teams && db.teams[r.team].org == r.org) then Err(Runtime)
              else
                Ok(Change(db.(members := db.members[k := Member(r.active, 1)]),
                          MemberReply(r.team, r.subject, r.active, true, 1),
                          GovernanceRecord(c, MemberEntity, r.subject, Some(1)))))
  {
    Plainly(db, c, now, ids, cap);
    BodyIs(db, c.actor, now, ids, c.request, cap);
    hide Transact, Body, Told;
    var k := (c.request.team, c.request.subject);
    if k in db.members && db.members[k].active == c.request.active {
      assert db.members[k := db.members[k]] == db.members;
    }
  }

  // ---- Workflow states

  predicate OwnState(db: Db, org: Id, team: Id, state: Id) {
    state in db.states && db.states[state].org == org && db.states[state].team == team
  }

  /** Another state of the Team has this name. */
  predicate StateNamed(db: Db, team: Id, name: string, state: Id) {
    exists s :: s in db.states && s != state && db.states[s].team == team && db.states[s].name == name
  }

  lemma CreateStateEffect(db: Db, c: Command, now: int, ids: FreshIds, cap: Captured)
    requires KeyOf(c) !in db.commands && c.request.PutState? && c.request.expected.None?
    ensures var r := c.request;
            Transact(db, c, now, ids, cap) == Told(db, c,
              if r.state in db.states || StateNamed(db, r.team, r.name, r.state) then Refuse(KeyConflict)
              else if !(r.team in db.teams && db.teams[r.team].org == r.org) then Err(Runtime)
              else
                var row := WorkflowState(r.org, r.team, r.name, r.category, r.position, false, 1);
                Ok(Change(db.(states := db.states[r.state := row]), StateReply(r.state, row),
                          GovernanceRecord(c, StateEntity, r.state, Some(1)))))
  {
    Plainly(db, c, now, ids, cap);
    BodyIs(db, c.actor, now, ids, c.request, cap);
    hide Transact, Body, Told, ParseRevision;
  }

  lemma ChangeStateEffect(db: Db, c: Command, now: int, ids: FreshIds, cap: Captured)
    requires KeyOf(c) !in db.commands && c.request.PutState? && c.request.expected.Some?
    ensures var r := c.request;
            Transact(db, c, now, ids, cap) == Told(db, c,
              if !OwnState(db, r.org, r.team, r.state) then Refuse(NotFound)
              else
                var was := db.states[r.state];
                if was.category != r.category || ParseRevision(r.expected.value).None? then
                  Refuse(InvalidRequest)
                else if ParseRevision(r.expected.value) != Some(was.revision) then Refuse(RevisionConflict)
                else if StateNamed(db, r.team, r.name, r.state) then Err(Runtime)
                else
                  var row := WorkflowState(was.org, was.team, r.name, was.category, r.position, was.archived,
                                           was.revision + 1);
                  Ok(Change(db.(states := db.states[r.state := row]), StateReply(r.state, row),
                            GovernanceRecord(c, StateEntity, r.state, Some(was.revision + 1)))))
  {
    Plainly(db, c, now, ids, cap);
    BodyIs(db, c.actor, now, ids, c.request, cap);
    hide Transact, Body, Told, ParseRevision;
  }

  /** The default is looked at before references, and references before the revision. */
  lemma ArchiveStateEffect(db: Db, c: Command, now: int, ids: FreshIds, cap: Captured)
    requires KeyOf(c) !in db.commands && c.request.ArchiveState?
    ensures var r := c.request;
            Transact(db, c, now, ids, cap) == Told(db, c,
              if !(r.state in db.states && db.states[r.state].org == r.org) then Refuse(NotFound)
              else
                var was := db.states[r.state];
                if r.archived && StartsIn(db, r.org, was.team, r.state) then Refuse(DefaultStateInvalid)
                else if r.archived && StateUsed(db, r.org, r.state) then Refuse(ActiveReference)
                else if ParseRevision(r.revision) != Some(was.revision) then Refuse(RevisionConflict)
                else
                  var row := WorkflowState(was.org, was.team, was.name, was.category, was.position, r.archived,
                                           was.revision + 1);
                  Ok(Change(db.(states := db.states[r.state := row]), StateReply(r.state, row),
                            GovernanceRecord(c, StateEntity, r.state, Some(was.revision + 1)))))
  {
    Plainly(db, c, now, ids, cap);
    BodyIs(db, c.actor, now, ids, c.request, cap);
    hide Transact, Body, Told, ParseRevision;
  }

  /** An Issue of this Team is in this state. */
  predicate StateUsedIn(db: Db, org: Id, team: Id, state: Id) {
    exists i :: i in db.issues && db.issues[i].org == org && db.issues[i].team == team && db.issues[i].state == state
  }

  lemma DeleteStateEffect(db: Db, c: Command, now: int, ids: FreshIds, cap: Captured)
    requires KeyOf(c) !in db.commands && c.request.DeleteState?
    ensures var r := c.request;
            Transact(db, c, now, ids, cap) == Told(db, c,
              if !OwnState(db, r.org, r.team, r.state) then Refuse(NotFound)
              else
                var was := db.states[r.state];
                if ParseRevision(r.revision) != Some(was.revision) then Refuse(RevisionConflict)
                else if StartsIn(db, r.org, r.team, r.state) then Refuse(DefaultStateInvalid)
                else if StateUsedIn(db, r.org, r.team, r.state) then Refuse(ActiveReference)
                else if !was.archived then Refuse(InvalidRequest)
                else
                  Ok(Change(db.(states := db.states - {r.state}), DeletedReply(r.state),
                            GovernanceRecord(c, StateEntity, r.state, Some(was.revision)))))
  {
    Plainly(db, c, now, ids, cap);
    BodyIs(db, c.actor, now, ids, c.request, cap);
    hide Transact, Body, Told, ParseRevision;
  }

  // ---- Project statuses

  predicate OwnStatus(db: Db, org: Id, status: Id) {
    status in db.statuses && db.statuses[status].org == org
  }

  /** Another status of the Organization has this name. */
  predicate StatusNamed(db: Db, org: Id, name: string, status: Id) {
    exists s :: s in db.statuses && s != status && db.statuses[s].org == org && db.statuses[s].name == name
  }

  /** A Project of the Organization has this status. */
  predicate StatusUsed(db: Db, org: Id, status: Id) {
    exists p :: p in db.projects && db.projects[p].org == org && db.projects[p].status == status
  }

  lemma CreateStatusEffect(db: Db, c: Command, now: int, ids: FreshIds, cap: Captured)
    requires KeyOf(c) !in db.commands && c.request.PutStatus? && c.request.expected.None?
    ensures var r := c.request;
            Transact(db, c, now, ids, cap) == Told(db, c,
              if EnsureCatalog(db, r.org, ids).Err? then Err(Runtime)
              else
                var ready := EnsureCatalog(db, r.org, ids).value;
                if r.status in ready.statuses || StatusNamed(ready, r.org, r.name, r.status) then
                  Refuse(KeyConflict)
                else
                  var row := Status(r.org, r.name, r.statusCategory, r.position, false, false, 1);
                  Ok(Change(ready.(statuses := ready.statuses[r.status := row]), StatusReply(r.status, row),
                            GovernanceRecord(c, StatusEntity, r.status, Some(1)))))
  {
    WithCatalog(db, c, now, ids, cap);
    hide Transact, Told, ParseRevision;
    if EnsureCatalog(db, c.request.org, ids).Ok? {
      BodyIs(EnsureCatalog(db, c.request.org, ids).value, c.actor, now, ids, c.request, cap);
      hide Body, EnsureCatalog;
    }
  }

  lemma ChangeStatusEffect(db: Db, c: Command, now: int, ids: FreshIds, cap: Captured)
    requires KeyOf(c) !in db.commands && c.request.PutStatus? && c.request.expected.Some?
    ensures var r := c.request;
            Transact(db, c, now, ids, cap) == Told(db, c,
              if EnsureCatalog(db, r.org, ids).Err? then Err(Runtime)
              else
                var ready := EnsureCatalog(db, r.org, ids).value;
                if !OwnStatus(ready, r.org, r.status) then Refuse(NotFound)
                else
                  var was := ready.statuses[r.status];
                  if was.category != r.statusCategory || ParseRevision(r.expected.value).None? then
                    Refuse(InvalidRequest)
                  else if ParseRevision(r.expected.value) != Some(was.revision) then Refuse(RevisionConflict)
                  else if StatusNamed(ready, r.org, r.name, r.status) then Err(Runtime)
                  else
                    var row := Status(was.org, r.name, was.category, r.position, was.isDefault, was.archived,
                                      was.revision + 1);
                    Ok(Change(ready.(statuses := ready.statuses[r.status := row]), StatusReply(r.status, row),
                              GovernanceRecord(c, StatusEntity, r.status, Some(was.revision + 1)))))
  {
    WithCatalog(db, c, now, ids, cap);
    hide Transact, Told, ParseRevision;
    if EnsureCatalog(db, c.request.org, ids).Ok? {
      BodyIs(EnsureCatalog(db, c.request.org, ids).value, c.actor, now, ids, c.request, cap);
      hide Body, EnsureCatalog;
    }
  }

  lemma ArchiveStatusEffect(db: Db, c: Command, now: int, ids: FreshIds, cap: Captured)
    requires KeyOf(c) !in db.commands && c.request.ArchiveStatus?
    ensures var r := c.request;
            Transact(db, c, now, ids, cap) == Told(db, c,
              if EnsureCatalog(db, r.org, ids).Err? then Err(Runtime)
              else
                var ready := EnsureCatalog(db, r.org, ids).value;
                if !OwnStatus(ready, r.org, r.status) then Refuse(NotFound)
                else
                  var was := ready.statuses[r.status];
                  if r.archived && was.isDefault then Refuse(DefaultStateInvalid)
                  else if r.archived && StatusUsed(ready, r.org, r.status) then Refuse(ActiveReference)
                  else if ParseRevision(r.revision) != Some(was.revision) then Refuse(RevisionConflict)
                  else
                    var row := Status(was.org, was.name, was.category, was.position, was.isDefault, r.archived,
                                      was.revision + 1);
                    Ok(Change(ready.(statuses := ready.statuses[r.status := row]), StatusReply(r.status, row),
                              GovernanceRecord(c, StatusEntity, r.status, Some(was.revision + 1)))))
  {
    WithCatalog(db, c, now, ids, cap);
    hide Transact, Told, ParseRevision;
    if EnsureCatalog(db, c.request.org, ids).Ok? {
      BodyIs(EnsureCatalog(db, c.request.org, ids).value, c.actor, now, ids, c.request, cap);
      hide Body, EnsureCatalog;
    }
  }

  lemma DeleteStatusEffect(db: Db, c: Command, now: int, ids: FreshIds, cap: Captured)
    requires KeyOf(c) !in db.commands && c.request.DeleteStatus?
    ensures var r := c.request;
            Transact(db, c, now, ids, cap) == Told(db, c,
              if EnsureCatalog(db, r.org, ids).Err? then Err(Runtime)
              else
                var ready := EnsureCatalog(db, r.org, ids).value;
                if !OwnStatus(ready, r.org, r.status) then Refuse(NotFound)
                else
                  var was := ready.statuses[r.status];
                  if ParseRevision(r.revision) != Some(was.revision) then Refuse(RevisionConflict)
                  else if was.isDefault then Refuse(DefaultStateInvalid)
                  else if StatusUsed(ready, r.org, r.status) then Refuse(ActiveReference)
                  else if !was.archived then Refuse(InvalidRequest)
                  else
                    Ok(Change(ready.(statuses := ready.statuses - {r.status}), DeletedReply(r.status),
                              GovernanceRecord(c, StatusEntity, r.status, Some(was.revision)))))
  {
    WithCatalog(db, c, now, ids, cap);
    hide Transact, Told, ParseRevision;
    if EnsureCatalog(db, c.request.org, ids).Ok? {
      BodyIs(EnsureCatalog(db, c.request.org, ids).value, c.actor, now, ids, c.request, cap);
      hide Body, EnsureCatalog;
    }
  }

  // ---- Projects

  /** An unarchived status of the Organization. */
  predicate StatusLive(db: Db, org: Id, status: Id) {
    OwnStatus(db, org, status) && !db.statuses[status].archived
  }

  /** The lead and every listed Team exist in the Organization, at least one is listed, and none twice. */
  predicate TeamsFit(db: Db, org: Id, lead: Id, teamIds: seq<Id>) {
    && teamIds != [] && NoDup(teamIds)
    && lead in db.teams && db.teams[lead].org == org
    && forall t :: t in teamIds ==> t in db.teams && db.teams[t].org == org
  }

  lemma CreateProjectEffect(db: Db, c: Command, now: int, ids: FreshIds, cap: Captured)
    requires KeyOf(c) !in db.commands && c.request.CreateProject?
    ensures var r := c.request;
            Transact(db, c, now, ids, cap) == Told(db, c,
              if EnsureCatalog(db, r.org, ids).Err? then Err(Runtime)
              else
                var ready := EnsureCatalog(db, r.org, ids).value;
                assert r.org in ready.workspaces;
                var status := if r.statusChoice.Some? then r.statusChoice.value else ready.workspaces[r.org];
                if !StatusLive(ready, r.org, status) then Refuse(ProjectStatusNotFound)
                else if r.project in ready.projects then Refuse(IdentifierConflict)
                else if !TeamsFit(ready, r.org, r.lead, r.teamIds) then Err(Runtime)
                else
                  var category := ready.statuses[status].category;
                  var row := Project(r.org, r.name, r.lead, (set t | t in r.teamIds), status,
                                     if category == ProjectCompleted then Some(now) else None,
                                     if category == ProjectCanceled then Some(now) else None, false, 1);
                  Ok(Change(ready.(projects := ready.projects[r.project := row]), ProjectReply(r.project, row),
                            ProjectRecord(c, r.project, 1))))
  {
    WithCatalog(db, c, now, ids, cap);
    hide Transact, Told;
    if EnsureCatalog(db, c.request.org, ids).Ok? {
      BodyIs(EnsureCatalog(db, c.request.org, ids).value, c.actor, now, ids, c.request, cap);
      hide Body, EnsureCatalog;
    }
  }

  /** A time stays as long as its category does, is set on entering it and cleared on leaving. */
  lemma UpdateProjectEffect(db: Db, c: Command, now: int, ids: FreshIds, cap: Captured)
    requires KeyOf(c) !in db.commands && c.request.UpdateProject?
    ensures var r := c.request;
            Transact(db, c, now, ids, cap) == Told(db, c,
              if EnsureCatalog(db, r.org, ids).Err? then Err(Runtime)
              else
                var ready := EnsureCatalog(db, r.org, ids).value;
                if TeamStillUsed(db, r) then Refuse(ActiveReference)
                else if !StatusLive(ready, r.org, r.status) then Refuse(ProjectStatusNotFound)
                else if !(r.project in db.projects && db.projects[r.project].org == r.org) then Refuse(NotFound)
                else
                  var was, category := db.projects[r.project], ready.statuses[r.status].category;
                  if ParseRevision(r.revision) != Some(was.revision) then Refuse(RevisionConflict)
                  else if !TeamsFit(db, r.org, r.lead, r.teamIds) then Err(Runtime)
                  else
                    var completed := if category != ProjectCompleted then None
                                     else if was.completedAt.Some? then was.completedAt else Some(now);
                    var canceled := if category != ProjectCanceled then None
                                    else if was.canceledAt.Some? then was.canceledAt else Some(now);
                    var row := Project(was.org, r.name, r.lead, (set t | t in r.teamIds), r.status, completed, canceled,
                                       was.archived, was.revision + 1);
                    Ok(Change(ready.(projects := db.projects[r.project := row]), ProjectReply(r.project, row),
                              ProjectRecord(c, r.project, was.revision + 1))))
  {
    WithCatalog(db, c, now, ids, cap);
    hide Transact, Told;
    if EnsureCatalog(db, c.request.org, ids).Ok? {
      BodyIs(EnsureCatalog(db, c.request.org, ids).value, c.actor, now, ids, c.request, cap);
      EnsureCatalogShape(db, c.request.org, ids);
      hide Body, EnsureCatalog, NoDup;
      NotCovered(db, c.request);
      hide IssueTeamsCovered, TeamStillUsed;
    }
  }

  /** An Issue of the Project is in a Team that the request leaves out. */
  ghost predicate TeamStillUsed(db: Db, r: Request)
    requires r.UpdateProject?
  {
    exists i :: i in db.issues && db.issues[i].org == r.org && db.issues[i].project == r.project
                && db.issues[i].team !in r.teamIds
  }

  lemma NotCovered(db: Db, r: Request)
    requires r.UpdateProject?
    ensures IssueTeamsCovered(db.issues, r.org, r.project, r.teamIds) <==> !TeamStillUsed(db, r)
  {
  }

  lemma ArchiveProjectEffect(db: Db, c: Command, now: int, ids: FreshIds, cap: Captured)
    requires KeyOf(c) !in db.commands && c.request.ArchiveProject?
    ensures var r := c.request;
            Transact(db, c, now, ids, cap) == Told(db, c,
              if !(r.project in db.projects && db.projects[r.project].org == r.org) then Refuse(NotFound)
              else
                var was := db.projects[r.project];
                if ParseRevision(r.revision) != Some(was.revision) then Refuse(RevisionConflict)
                else
                  var row := Project(was.org, was.name, was.lead, was.teams, was.status, was.completedAt,
                                     was.canceledAt,
                                     r.archived, was.revision + 1);
                  Ok(Change(db.(projects := db.projects[r.project := row]), ProjectReply(r.project, row),
                            ProjectRecord(c, r.project, was.revision + 1))))
  {
    Plainly(db, c, now, ids, cap);
    BodyIs(db, c.actor, now, ids, c.request, cap);
    hide Transact, Body, Told, ParseRevision;
  }

  // ---- Issues

  /** An unarchived state of this very Team. */
  predicate StateLive(db: Db, org: Id, team: Id, state: Id) {
    team in db.teams && db.teams[team].org == org && OwnState(db, org, team, state) && !db.states[state].archived
  }

  /** The Issue at the revision that the request expects. */
  predicate IssueAt(db: Db, org: Id, issue: Id, revision: string) {
    issue in db.issues && db.issues[issue].org == org && ParseRevision(revision) == Some(db.issues[issue].revision)
  }

  predicate Attached(db: Db, org: Id, project: Id, team: Id) {
    project in db.projects && db.projects[project].org == org && team in db.projects[project].teams
  }

  predicate ParentFits(db: Db, org: Id, issue: Id, parent: Option<Id>) {
    parent.Some? ==> parent.value != issue && parent.value in db.issues && db.issues[parent.value].org == org
  }

  lemma PreviousExactly(db: Db, issue: Id)
    requires issue in db.issues
    ensures var row := db.issues[issue];
            forall text :: text in Previous(db, issue) <==>
              && text != row.identifier && (row.org, text) in db.aliases && db.aliases[(row.org, text)].issue == issue
  {
    var row := db.issues[issue];
    forall text | text != row.identifier && (row.org, text) in db.aliases && db.aliases[(row.org, text)].issue == issue
      ensures text in Previous(db, issue)
    {
      assert (row.org, text) in db.aliases.Keys;
    }
  }

  /** The name that a Team gives next, and the Team after that. */
  lemma NumberTaken(teams: map<Id, Team>, team: Id)
    requires team in teams
    ensures var t := teams[team];
            && NextIdentifier(teams, team) == t.key + "-" + Decimal(t.nextNumber)
            && TakeNumber(teams, team)
               == teams[team := Team(t.org, t.key, t.name, t.private, t.defaultState, t.nextNumber + 1, t.revision)]
  {
    hide Decimal;
  }

  lemma CreateIssueEffect(db: Db, c: Command, now: int, ids: FreshIds, cap: Captured)
    requires KeyOf(c) !in db.commands && c.request.CreateIssue?
    ensures var r := c.request;
            Transact(db, c, now, ids, cap) == Told(db, c,
              if !(r.team in db.teams && db.teams[r.team].org == r.org) then Refuse(WorkflowStateNotFound)
              else
                var t := db.teams[r.team];
                var state := if r.stateChoice.Some? then r.stateChoice.value else t.defaultState;
                var name := t.key + "-" + Decimal(t.nextNumber);
                if !StateLive(db, r.org, r.team, state) then Refuse(WorkflowStateNotFound)
                else if r.parent == Some(r.issue) then Err(Runtime)
                else if r.issue in db.issues || IdentifierShown(db.issues, r.org, name, r.issue) then
                  Refuse(IdentifierConflict)
                else if !Attached(db, r.org, r.project, r.team) || !ParentFits(db, r.org, r.issue, r.parent)
                        || (r.org, name) in db.aliases then Err(Runtime)
                else
                  var row := Issue(r.org, r.project, r.team, name, r.title, state, r.parent, None, false, 1);
                  var team := Team(t.org, t.key, t.name, t.private, t.defaultState, t.nextNumber + 1, t.revision);
                  var after := db.(teams := db.teams[r.team := team], issues := db.issues[r.issue := row],
                                  aliases := db.aliases[(r.org, name) := Alias(r.issue, now)]);
                  Ok(Change(after, IssueReply(r.issue, row, Previous(after, r.issue)),
                            IssueRecord(c, r.project, r.issue, row.revision))))
  {
    Plainly(db, c, now, ids, cap);
    BodyIs(db, c.actor, now, ids, c.request, cap);
    hide Transact, Body, Told, ParseRevision, Previous, IdentifierShown, Decimal;
    if c.request.team in db.teams {
      NumberTaken(db.teams, c.request.team);
      hide NextIdentifier, TakeNumber;
    }
  }

  lemma UpdateIssueEffect(db: Db, c: Command, now: int, ids: FreshIds, cap: Captured)
    requires KeyOf(c) !in db.commands && c.request.UpdateIssue?
    ensures var r := c.request;
            Transact(db, c, now, ids, cap) == Told(db, c,
              if r.parent.Some? && Parents.Below(cap.links, r.issue, r.parent.value) then Refuse(InvalidRequest)
              else if !StateLive(db, r.org, cap.team, r.state) then Refuse(WorkflowStateNotFound)
              else if !IssueAt(db, r.org, r.issue, r.revision) then Refuse(RevisionConflict)
              else
                var was := db.issues[r.issue];
                if !ParentFits(db, r.org, r.issue, r.parent) || was.team != cap.team then Err(Runtime)
                else
                  var row := Issue(was.org, was.project, was.team, was.identifier, r.title, r.state, r.parent,
                                   was.assignee, was.archived, was.revision + 1);
                  var after := db.(issues := db.issues[r.issue := row]);
                  Ok(Change(after, IssueReply(r.issue, row, Previous(after, r.issue)),
                            IssueRecord(c, cap.project, r.issue, row.revision))))
  {
    Plainly(db, c, now, ids, cap);
    BodyIs(db, c.actor, now, ids, c.request, cap);
    hide Transact, Body, Told, ParseRevision, Previous;
  }

  lemma MoveIssueEffect(db: Db, c: Command, now: int, ids: FreshIds, cap: Captured)
    requires KeyOf(c) !in db.commands && c.request.MoveIssue?
    ensures var r := c.request;
            Transact(db, c, now, ids, cap) == Told(db, c,
              if !StateLive(db, r.org, r.team, r.state) then Refuse(WorkflowStateNotFound)
              else
                var t := db.teams[r.team];
                var name := t.key + "-" + Decimal(t.nextNumber);
                if !IssueAt(db, r.org, r.issue, r.revision) then Refuse(RevisionConflict)
                else
                  var was := db.issues[r.issue];
                  if IdentifierShown(db.issues, r.org, name, r.issue) || !Attached(db, r.org, was.project, r.team)
                     || (r.org, name) in db.aliases then Err(Runtime)
                  else
                    var row := Issue(was.org, was.project, r.team, name, was.title, r.state, was.parent, was.assignee,
                                     was.archived, was.revision + 1);
                    var team := Team(t.org, t.key, t.name, t.private, t.defaultState, t.nextNumber + 1, t.revision);
                    var after := db.(teams := db.teams[r.team := team], issues := db.issues[r.issue := row],
                                    aliases := db.aliases[(r.org, name) := Alias(r.issue, now)]);
                    Ok(Change(after, IssueReply(r.issue, row, Previous(after, r.issue)),
                              IssueRecord(c, cap.project, r.issue, row.revision))))
  {
    Plainly(db, c, now, ids, cap);
    BodyIs(db, c.actor, now, ids, c.request, cap);
    hide Transact, Body, Told, ParseRevision, Previous, IdentifierShown, Decimal;
    if c.request.team in db.teams {
      NumberTaken(db.teams, c.request.team);
      hide NextIdentifier, TakeNumber;
    }
  }

  lemma ArchiveIssueEffect(db: Db, c: Command, now: int, ids: FreshIds, cap: Captured)
    requires KeyOf(c) !in db.commands && c.request.ArchiveIssue?
    ensures var r := c.request;
            Transact(db, c, now, ids, cap) == Told(db, c,
              if !IssueAt(db, r.org, r.issue, r.revision) then Refuse(RevisionConflict)
              else
                var was := db.issues[r.issue];
                var row := Issue(was.org, was.project, was.team, was.identifier, was.title, was.state, was.parent,
                                 was.assignee, r.archived, was.revision + 1);
                var after := db.(issues := db.issues[r.issue := row]);
                Ok(Change(after, IssueReply(r.issue, row, Previous(after, r.issue)),
                          IssueRecord(c, was.project, r.issue, row.revision))))
  {
    Plainly(db, c, now, ids, cap);
    BodyIs(db, c.actor, now, ids, c.request, cap);
    hide Transact, Body, Told, ParseRevision, Previous;
  }

  lemma AssigneeEffect(db: Db, c: Command, now: int, ids: FreshIds, cap: Captured)
    requires KeyOf(c) !in db.commands && c.request.SetAssignee?
    ensures var r := c.request;
            Transact(db, c, now, ids, cap) == Told(db, c,
              if ParseRevision(r.revision).None? then Refuse(InvalidRequest)
              else if !IssueAt(db, r.org, r.issue, r.revision) then Refuse(RevisionConflict)
              else
                var was := db.issues[r.issue];
                var row := Issue(was.org, was.project, was.team, was.identifier, was.title, was.state, was.parent,
                                 r.assignee, was.archived, was.revision + 1);
                Ok(Change(db.(issues := db.issues[r.issue := row]),
                          AssigneeReply(r.issue, r.assignee, was.revision + 1),
                          IssueRecord(c, was.project, r.issue, was.revision + 1))))
  {
    Plainly(db, c, now, ids, cap);
    BodyIs(db, c.actor, now, ids, c.request, cap);
    hide Transact, Body, Told;
  }
}
