/** The provider over mutable tables: every command statement by statement, in one transaction. */
module Store {
  import opened Prelude
  import opened Text
  import opened Tables
  import opened Sorting
  import opened Reorder
  import opened Commands
  import opened Invariants
  import opened Retentions
  import opened Runs
  import Parents

  /** A row of `project_commands`; the response stays empty until the command completes. */
  datatype Reservation = Reservation(request: Request, response: Option<Reply>)

  datatype CommandStart = New | Replay(reply: Reply) | Conflict

  type Answer = Result<(Reply, ActivityRow), StorageError>

  function Receipts(commands: map<CommandKey, Reservation>): map<CommandKey, Receipt> {
    map k | k in commands && commands[k].response.Some? :: Receipt(commands[k].request, commands[k].response.value)
  }

  /** The statements answered as the specification says and left its tables behind. */
  ghost predicate Did(out: Answer, spec: Result<Change, StorageError>, after: Db) {
    match spec
    case Err(e) => out == Err(e)
    case Ok(change) => out == Ok((change.reply, change.row)) && after == change.db
  }

  class Provider {
    var teams: map<Id, Team>
    var members: map<(Id, Id), Member>
    var states: map<Id, WorkflowState>
    var workspaces: map<Id, Id>
    var statuses: map<Id, Status>
    var projects: map<Id, Project>
    var issues: map<Id, Issue>
    var aliases: map<(Id, string), Alias>
    var commands: map<CommandKey, Reservation>
    var retentions: map<Id, Retention>
    var activity: seq<ActivityRow>

    /** The tables without reservations that have no response yet. */
    function Contents(): Db
      reads this
    {
      Db(teams, members, states, workspaces, statuses, projects, issues, aliases, Receipts(commands), retentions,
         activity)
    }

    /** Between transactions every reservation has its response. */
    ghost predicate Settled()
      reads this
    {
      forall k :: k in commands ==> commands[k].response.Some?
    }

    constructor ()
      ensures Contents() == EmptyDb && Settled()
    {
      teams, members, states, workspaces, statuses := map[], map[], map[], map[], map[];
      projects, issues, aliases, commands, retentions, activity := map[], map[], map[], map[], map[], [];
    }

    /** The recursive query of an update with a parent ends: its Issue is not below itself. */
    ghost predicate QueryEnds(r: Request)
      reads this
    {
      r.UpdateIssue? && r.parent.Some? ==> !Parents.Below(LinksOf(issues), r.issue, r.issue)
    }

    // ---- Reserving and completing a command

    method ReserveCommand(c: Command) returns (start: Result<CommandStart, StorageError>)
      requires Settled()
      modifies this`commands
      ensures start.Ok? && Contents() == old(Contents())
      ensures match start.value
              case New => KeyOf(c) !in old(commands)
                          && commands == old(commands)[KeyOf(c) := Reservation(c.request, None)]
              case Replay(reply) =>
                commands == old(commands)
                && KeyOf(c) in Contents().commands && Contents().commands[KeyOf(c)] == Receipt(c.request, reply)
              case Conflict =>
                commands == old(commands)
                && KeyOf(c) in Contents().commands && Contents().commands[KeyOf(c)].request != c.request
    {
      if KeyOf(c) !in commands {
        commands := commands[KeyOf(c) := Reservation(c.request, None)];
        return Ok(New);
      }
      var row := commands[KeyOf(c)];
      if row.request != c.request {
        return Ok(Conflict);
      }
      match row.response {
        case None => start := Err(Runtime);
        case Some(reply) => start := Ok(Replay(reply));
      }
    }

    method CompleteCommand(key: CommandKey, reply: Reply) returns (done: Result<(), StorageError>)
      modifies this`commands
      ensures key in old(commands) && old(commands)[key].response.None? ==>
                done.Ok? && commands == old(commands)[key := Reservation(old(commands)[key].request, Some(reply))]
      ensures !(key in old(commands) && old(commands)[key].response.None?) ==> done.Err? && commands == old(commands)
    {
      if key in commands && commands[key].response.None? {
        commands := commands[key := commands[key].(response := Some(reply))];
        done := Ok(());
      } else {
        done := Err(Runtime);
      }
    }

    method AppendActivity(row: ActivityRow)
      modifies this`activity
      ensures activity == old(activity) + [row]
    {
      activity := activity + [row];
    }

    // ---- Default catalogs

    method EnsureProjectStatusCatalog(org: Id, ids: FreshIds) returns (done: Result<Id, StorageError>)
      modifies this`workspaces, this`statuses
      ensures match EnsureCatalog(old(Contents()), org, ids)
              case Err(e) => done == Err(e)
              case Ok(ready) => Contents() == ready && org in workspaces && done == Ok(workspaces[org])
    {
      if org in workspaces {
        return Ok(workspaces[org]);
      }
      workspaces := workspaces[org := ids[0]];
      for n := 0 to 6
        invariant workspaces == old(workspaces)[org := ids[0]]
        invariant InsertStatuses(old(statuses), org, ids, n) == Some(statuses)
      {
        var (name, category) := STATUS_DEFAULTS[n];
        if ids[n] in statuses || StatusNameTaken(statuses, org, name, ids[n]) {
          NoLaterStatuses(old(statuses), org, ids, n + 1, 6);
          return Err(Runtime);
        }
        statuses := statuses[ids[n] := Status(org, name, category, n, n == 0, false, 1)];
      }
      done := Ok(ids[0]);
    }

    method InsertDefaultWorkflowStates(org: Id, team: Id, ids: FreshIds) returns (done: Result<(), StorageError>)
      modifies this`states
      ensures match InsertStates(old(states), org, team, ids, 5)
              case None => done == Err(Runtime)
              case Some(m) => done == Ok(()) && states == m
    {
      for n := 0 to 5
        invariant InsertStates(old(states), org, team, ids, n) == Some(states)
      {
        var (name, category) := STATE_DEFAULTS[n];
        var id := ids[6 + n];
        if id in states || StateNameTaken(states, team, name, id) {
          NoLaterStates(old(states), org, team, ids, n + 1, 5);
          return Err(Runtime);
        }
        states := states[id := WorkflowState(org, team, name, category, n, false, 1)];
      }
      done := Ok(());
    }

    // ---- Teams and workflow states

    method PutTeam(actor: Id, r: Request, ids: FreshIds) returns (out: Answer)
      requires r.PutTeam?
      modifies this`teams, this`states
      ensures Did(out, PutTeamBody(old(Contents()), actor, r, ids), Contents())
    {
      if r.expected.Some? {
        if r.defaultState.None? {
          return Refuse(DefaultStateInvalid);
        }
        var d := r.defaultState.value;
        if !(StateExists(Contents(), r.org, r.team, d) && states[d].category == Unstarted && !states[d].archived) {
          return Refuse(DefaultStateInvalid);
        }
        var expected := ParseRevision(r.expected.value);
        if expected.None? {
          return Refuse(InvalidRequest);
        }
        if !(TeamExists(Contents(), r.org, r.team) && teams[r.team].revision == expected.value) {
          return Refuse(RevisionConflict);
        }
        if !ValidKey(r.key) || KeyOwned(teams, r.org, r.key, r.team) {
          return Err(Runtime);
        }
        teams := teams[r.team := teams[r.team].(key := r.key, name := r.name, private := r.private, defaultState := d,
                                                revision := teams[r.team].revision + 1)];
      } else {
        if r.defaultState.Some? {
          return Refuse(DefaultStateInvalid);
        }
        if !ValidKey(r.key) {
          return Err(Runtime);
        }
        if r.team in teams || KeyOwned(teams, r.org, r.key, r.team) {
          return Refuse(KeyConflict);
        }
        teams := teams[r.team := Team(r.org, r.key, r.name, r.private, ids[6 + TODO], 1, 1)];
        var inserted := InsertDefaultWorkflowStates(r.org, r.team, ids);
        if inserted.Err? {
          return Err(inserted.error);
        }
      }
      out := Ok((TeamReply(r.team, teams[r.team]),
                 TeamRow(r, actor, TeamEntity, r.team, Some(teams[r.team].revision))));
    }

    method SetTeamMember(actor: Id, r: Request) returns (out: Answer)
      requires r.SetMember?
      modifies this`members
      ensures Did(out, SetMemberBody(old(Contents()), actor, r), Contents())
    {
      var k := (r.team, r.subject);
      var changed := true;
      if k in members && members[k].active == r.active {
        changed := false;
      } else if k in members {
        members := members[k := Member(r.active, members[k].revision + 1)];
      } else {
        if !TeamExists(Contents(), r.org, r.team) {
          return Err(Runtime);
        }
        members := members[k := Member(r.active, 1)];
      }
      out := Ok((MemberReply(r.team, r.subject, r.active, changed, members[k].revision),
                 TeamRow(r, actor, MemberEntity, r.subject, Some(members[k].revision))));
    }

    method PutWorkflowState(actor: Id, r: Request) returns (out: Answer)
      requires r.PutState?
      modifies this`states
      ensures Did(out, PutStateBody(old(Contents()), actor, r), Contents())
    {
      if r.expected.Some? {
        if !StateExists(Contents(), r.org, r.team, r.state) {
          return Refuse(NotFound);
        }
        var expected := ParseRevision(r.expected.value);
        if states[r.state].category != r.category || expected.None? {
          return Refuse(InvalidRequest);
        }
        if states[r.state].revision != expected.value {
          return Refuse(RevisionConflict);
        }
        if StateNameTaken(states, r.team, r.name, r.state) {
          return Err(Runtime);
        }
        states := states[r.state := states[r.state].(name := r.name, position := r.position,
                                                     revision := states[r.state].revision + 1)];
      } else {
        if r.state in states || StateNameTaken(states, r.team, r.name, r.state) {
          return Refuse(KeyConflict);
        }
        if !TeamExists(Contents(), r.org, r.team) {
          return Err(Runtime);
        }
        states := states[r.state := WorkflowState(r.org, r.team, r.name, r.category, r.position, false, 1)];
      }
      out := Ok((StateReply(r.state, states[r.state]),
                 TeamRow(r, actor, StateEntity, r.state, Some(states[r.state].revision))));
    }

    method ArchiveWorkflowState(actor: Id, r: Request) returns (out: Answer)
      requires r.ArchiveState?
      modifies this`states
      ensures Did(out, ArchiveStateBody(old(Contents()), actor, r), Contents())
    {
      if !(r.state in states && states[r.state].org == r.org) {
        return Refuse(NotFound);
      }
      if r.archived {
        if IsDefaultState(Contents(), r.org, states[r.state].team, r.state) {
          return Refuse(DefaultStateInvalid);
        }
        if StateReferenced(issues, r.org, r.state) {
          return Refuse(ActiveReference);
        }
      }
      if ParseRevision(r.revision) != Some(states[r.state].revision) {
        return Refuse(RevisionConflict);
      }
      states := states[r.state := states[r.state].(archived := r.archived, revision := states[r.state].revision + 1)];
      out := Ok((StateReply(r.state, states[r.state]),
                 TeamRow(r, actor, StateEntity, r.state, Some(states[r.state].revision))));
    }

    method DeleteWorkflowState(actor: Id, r: Request) returns (out: Answer)
      requires r.DeleteState?
      modifies this`states
      ensures Did(out, DeleteStateBody(old(Contents()), actor, r), Contents())
    {
      var refused := DeleteStateRefusal(Contents(), r);
      if refused.Some? {
        return Err(refused.value);
      }
      var revision := states[r.state].revision;
      states := states - {r.state};
      out := Ok((DeletedReply(r.state), TeamRow(r, actor, StateEntity, r.state, Some(revision))));
    }

    method ReorderWorkflowStates(actor: Id, r: Request) returns (out: Answer)
      requires r.ReorderStates? && ItemsOk(r.items)
      modifies this`states
      ensures Did(out, ReorderStatesBody(old(Contents()), actor, r), Contents())
    {
      var active := ActiveStates(Contents(), r.org, r.team);
      var problem := CheckItems(active, r.items);
      if problem.Some? {
        return Refuse(problem.value);
      }
      NamedRowsExist(active, r.items);
      states := MoveRows(states, r.items, MovedState);
      var rows := LoadRows(states, InOrder(r.items));
      out := Ok((StatesReply(rows), TeamRow(r, actor, StateCatalog, r.team, None)));
    }

    // ---- Project statuses and Projects

    method PutProjectStatus(actor: Id, r: Request) returns (out: Answer)
      requires r.PutStatus?
      modifies this`statuses
      ensures Did(out, PutStatusBody(old(Contents()), actor, r), Contents())
    {
      if r.expected.Some? {
        if !(r.status in statuses && statuses[r.status].org == r.org) {
          return Refuse(NotFound);
        }
        var expected := ParseRevision(r.expected.value);
        if statuses[r.status].category != r.statusCategory || expected.None? {
          return Refuse(InvalidRequest);
        }
        if statuses[r.status].revision != expected.value {
          return Refuse(RevisionConflict);
        }
        if StatusNameTaken(statuses, r.org, r.name, r.status) {
          return Err(Runtime);
        }
        statuses := statuses[r.status := statuses[r.status].(name := r.name, position := r.position,
                                                             revision := statuses[r.status].revision + 1)];
      } else {
        if r.status in statuses || StatusNameTaken(statuses, r.org, r.name, r.status) {
          return Refuse(KeyConflict);
        }
        statuses := statuses[r.status := Status(r.org, r.name, r.statusCategory, r.position, false, false, 1)];
      }
      out := Ok((StatusReply(r.status, statuses[r.status]),
                 TeamRow(r, actor, StatusEntity, r.status, Some(statuses[r.status].revision))));
    }

    method ArchiveProjectStatus(actor: Id, r: Request) returns (out: Answer)
      requires r.ArchiveStatus?
      modifies this`statuses
      ensures Did(out, ArchiveStatusBody(old(Contents()), actor, r), Contents())
    {
      if !(r.status in statuses && statuses[r.status].org == r.org) {
        return Refuse(NotFound);
      }
      if r.archived {
        if statuses[r.status].isDefault {
          return Refuse(DefaultStateInvalid);
        }
        if StatusReferenced(projects, r.org, r.status) {
          return Refuse(ActiveReference);
        }
      }
      if ParseRevision(r.revision) != Some(statuses[r.status].revision) {
        return Refuse(RevisionConflict);
      }
      statuses := statuses[r.status := statuses[r.status].(archived := r.archived,
                                                           revision := statuses[r.status].revision + 1)];
      out := Ok((StatusReply(r.status, statuses[r.status]),
                 TeamRow(r, actor, StatusEntity, r.status, Some(statuses[r.status].revision))));
    }

    method DeleteProjectStatus(actor: Id, r: Request) returns (out: Answer)
      requires r.DeleteStatus?
      modifies this`statuses
      ensures Did(out, DeleteStatusBody(old(Contents()), actor, r), Contents())
    {
      var refused := DeleteStatusRefusal(Contents(), r);
      if refused.Some? {
        return Err(refused.value);
      }
      var revision := statuses[r.status].revision;
      statuses := statuses - {r.status};
      out := Ok((DeletedReply(r.status), TeamRow(r, actor, StatusEntity, r.status, Some(revision))));
    }

    method ReorderProjectStatuses(actor: Id, r: Request) returns (out: Answer)
      requires r.ReorderStatuses? && ItemsOk(r.items)
      modifies this`statuses
      ensures Did(out, ReorderStatusesBody(old(Contents()), actor, r), Contents())
    {
      var active := ActiveStatuses(Contents(), r.org);
      var problem := CheckItems(active, r.items);
      if problem.Some? {
        return Refuse(problem.value);
      }
      NamedRowsExist(active, r.items);
      statuses := MoveRows(statuses, r.items, MovedStatus);
      var rows := LoadRows(statuses, InOrder(r.items));
      out := Ok((StatusesReply(rows), TeamRow(r, actor, StatusCatalog, r.org, None)));
    }

    /** Attaches the Teams one by one; a Team that is missing or already attached violates a constraint. */
    method AttachTeams(org: Id, teamIds: seq<Id>) returns (attached: Option<set<Id>>)
      ensures attached.Some? <==> Attachable(Contents(), org, teamIds)
      ensures attached.Some? ==> attached.value == set t | t in teamIds
    {
      var rows: set<Id> := {};
      for k := 0 to |teamIds|
        invariant rows == set t | t in teamIds[..k]
        invariant Attachable(Contents(), org, teamIds[..k])
      {
        if teamIds[k] in rows || !TeamExists(Contents(), org, teamIds[k]) {
          NotAttachable(Contents(), org, teamIds, k);
          return None;
        }
        rows := rows + {teamIds[k]};
        assert teamIds[..k + 1] == teamIds[..k] + [teamIds[k]];
      }
      assert teamIds[..|teamIds|] == teamIds;
      attached := Some(rows);
    }

    method ResolveProjectStatus(org: Id, choice: Option<Id>) returns (status: Result<Id, StorageError>)
      requires org in workspaces
      ensures status == ResolveStatus(Contents(), org, choice)
    {
      var id := workspaces[org];
      if choice.Some? {
        id := choice.value;
      }
      if id in statuses && statuses[id].org == org && !statuses[id].archived {
        status := Ok(id);
      } else {
        status := Refuse(ProjectStatusNotFound);
      }
    }

    method CreateProject(actor: Id, now: int, r: Request) returns (out: Answer)
      requires r.CreateProject? && r.org in workspaces
      modifies this`projects
      ensures Did(out, CreateProjectBody(old(Contents()), actor, now, r), Contents())
    {
      var status := ResolveProjectStatus(r.org, r.statusChoice);
      if status.Err? {
        return Err(status.error);
      }
      if r.project in projects {
        return Refuse(IdentifierConflict);
      }
      if !TeamExists(Contents(), r.org, r.lead) {
        return Err(Runtime);
      }
      var attached := AttachTeams(r.org, r.teamIds);
      if attached.None? {
        return Err(Runtime);
      }
      EmptyTeams(attached.value, r.teamIds);
      if attached.value == {} {
        return Err(Runtime);
      }
      var category := statuses[status.value].category;
      projects := projects[r.project :=
        Project(r.org, r.name, r.lead, attached.value, status.value, Stamp(category == ProjectCompleted, None, now),
                Stamp(category == ProjectCanceled, None, now), false, 1)];
      out := Ok((ProjectReply(r.project, projects[r.project]),
                 ActivityRow(r.org, Some(r.project), None, actor, ProjectEntity, r.project, Some(1))));
    }

    method UpdateProject(actor: Id, now: int, r: Request) returns (out: Answer)
      requires r.UpdateProject? && r.org in workspaces
      modifies this`projects
      ensures Did(out, UpdateProjectBody(old(Contents()), actor, now, r), Contents())
    {
      if !IssueTeamsCovered(issues, r.org, r.project, r.teamIds) {
        return Refuse(ActiveReference);
      }
      var status := ResolveProjectStatus(r.org, Some(r.status));
      if status.Err? {
        return Err(status.error);
      }
      if !(r.project in projects && projects[r.project].org == r.org) {
        return Refuse(NotFound);
      }
      if ParseRevision(r.revision) != Some(projects[r.project].revision) {
        return Refuse(RevisionConflict);
      }
      if !TeamExists(Contents(), r.org, r.lead) {
        return Err(Runtime);
      }
      var attached := AttachTeams(r.org, r.teamIds);
      if attached.None? {
        return Err(Runtime);
      }
      EmptyTeams(attached.value, r.teamIds);
      if attached.value == {} {
        return Err(Runtime);
      }
      var category := statuses[status.value].category;
      var earlier := projects[r.project];
      projects := projects[r.project := earlier.(name := r.name, lead := r.lead, teams := attached.value,
        status := status.value, completedAt := Stamp(category == ProjectCompleted, earlier.completedAt, now),
        canceledAt := Stamp(category == ProjectCanceled, earlier.canceledAt, now), revision := earlier.revision + 1)];
      out := Ok((ProjectReply(r.project, projects[r.project]),
                 ActivityRow(r.org, Some(r.project), None, actor, ProjectEntity, r.project,
                             Some(projects[r.project].revision))));
    }

    method ArchiveProject(actor: Id, r: Request) returns (out: Answer)
      requires r.ArchiveProject?
      modifies this`projects
      ensures Did(out, ArchiveProjectBody(old(Contents()), actor, r), Contents())
    {
      if !(r.project in projects && projects[r.project].org == r.org) {
        return Refuse(NotFound);
      }
      if ParseRevision(r.revision) != Some(projects[r.project].revision) {
        return Refuse(RevisionConflict);
      }
      projects := projects[r.project := projects[r.project].(archived := r.archived,
                                                             revision := projects[r.project].revision + 1)];
      out := Ok((ProjectReply(r.project, projects[r.project]),
                 ActivityRow(r.org, Some(r.project), None, actor, ProjectEntity, r.project,
                             Some(projects[r.project].revision))));
    }

    // ---- Issues

    method ResolveIssueWorkflowState(org: Id, team: Id, choice: Option<Id>) returns (state: Result<Id, StorageError>)
      ensures state == ResolveState(Contents(), org, team, choice)
    {
      if !TeamExists(Contents(), org, team) {
        return Refuse(WorkflowStateNotFound);
      }
      var id := teams[team].defaultState;
      if choice.Some? {
        id := choice.value;
      }
      if StateExists(Contents(), org, team, id) && !states[id].archived {
        state := Ok(id);
      } else {
        state := Refuse(WorkflowStateNotFound);
      }
    }

    method CreateIssue(actor: Id, now: int, r: Request) returns (out: Answer)
      requires r.CreateIssue?
      modifies this`teams, this`issues, this`aliases
      ensures Did(out, CreateIssueBody(old(Contents()), actor, now, r), Contents())
    {
      var state := ResolveIssueWorkflowState(r.org, r.team, r.stateChoice);
      if state.Err? {
        return Err(state.error);
      }
      teams := TakeNumber(teams, r.team);
      var identifier := Identifier(teams[r.team].key, teams[r.team].nextNumber - 1);
      if r.parent == Some(r.issue) {
        return Err(Runtime);
      }
      if r.issue in issues || IdentifierShown(issues, r.org, identifier, r.issue) {
        return Refuse(IdentifierConflict);
      }
      if !TeamAttached(Contents(), r.org, r.project, r.team) || !ParentExists(issues, r.org, r.parent) {
        return Err(Runtime);
      }
      issues := issues[r.issue :=
        Issue(r.org, r.project, r.team, identifier, r.title, state.value, r.parent, None, false, 1)];
      if (r.org, identifier) in aliases {
        return Err(Runtime);
      }
      aliases := aliases[(r.org, identifier) := Alias(r.issue, now)];
      out := Ok((LoadIssue(Contents(), r.issue),
                 ActivityRow(r.org, Some(r.project), Some(r.issue), actor, IssueEntity, r.issue, Some(1))));
    }

    method UpdateIssue(actor: Id, r: Request, cap: Captured) returns (out: Answer)
      requires r.UpdateIssue? && QueryEnds(r)
      modifies this`issues
      ensures Did(out, UpdateIssueBody(old(Contents()), actor, r, Seeing(cap, old(Contents()))), Contents())
    {
      if r.parent.Some? {
        var cycle := Parents.WouldCreateCycle(LinksOf(issues), r.issue, r.parent.value);
        if cycle {
          return Refuse(InvalidRequest);
        }
      }
      var state := ResolveIssueWorkflowState(r.org, cap.team, Some(r.state));
      if state.Err? {
        return Err(state.error);
      }
      if !(r.issue in issues && issues[r.issue].org == r.org
           && ParseRevision(r.revision) == Some(issues[r.issue].revision)) {
        return Refuse(RevisionConflict);
      }
      if r.parent == Some(r.issue) || !ParentExists(issues, r.org, r.parent) || issues[r.issue].team != cap.team {
        return Err(Runtime);
      }
      issues := issues[r.issue := issues[r.issue].(title := r.title, state := state.value, parent := r.parent,
                                                   revision := issues[r.issue].revision + 1)];
      out := Ok((LoadIssue(Contents(), r.issue),
                 ActivityRow(r.org, Some(cap.project), Some(r.issue), actor, IssueEntity, r.issue,
                             Some(issues[r.issue].revision))));
    }

    method MoveIssue(actor: Id, now: int, r: Request, cap: Captured) returns (out: Answer)
      requires r.MoveIssue?
      modifies this`teams, this`issues, this`aliases
      ensures Did(out, MoveIssueBody(old(Contents()), actor, now, r, Seeing(cap, old(Contents()))), Contents())
    {
      var state := ResolveIssueWorkflowState(r.org, r.team, Some(r.state));
      if state.Err? {
        return Err(state.error);
      }
      teams := TakeNumber(teams, r.team);
      var identifier := Identifier(teams[r.team].key, teams[r.team].nextNumber - 1);
      if !(r.issue in issues && issues[r.issue].org == r.org
           && ParseRevision(r.revision) == Some(issues[r.issue].revision)) {
        return Refuse(RevisionConflict);
      }
      if IdentifierShown(issues, r.org, identifier, r.issue)
         || !TeamAttached(Contents(), r.org, issues[r.issue].project, r.team) {
        return Err(Runtime);
      }
      issues := issues[r.issue := issues[r.issue].(team := r.team, identifier := identifier, state := state.value,
                                                   revision := issues[r.issue].revision + 1)];
      if (r.org, identifier) in aliases {
        return Err(Runtime);
      }
      aliases := aliases[(r.org, identifier) := Alias(r.issue, now)];
      out := Ok((LoadIssue(Contents(), r.issue),
                 ActivityRow(r.org, Some(cap.project), Some(r.issue), actor, IssueEntity, r.issue,
                             Some(issues[r.issue].revision))));
    }

    method ArchiveIssue(actor: Id, r: Request) returns (out: Answer)
      requires r.ArchiveIssue?
      modifies this`issues
      ensures Did(out, ArchiveIssueBody(old(Contents()), actor, r), Contents())
    {
      if !(r.issue in issues && issues[r.issue].org == r.org
           && ParseRevision(r.revision) == Some(issues[r.issue].revision)) {
        return Refuse(RevisionConflict);
      }
      issues := issues[r.issue := issues[r.issue].(archived := r.archived, revision := issues[r.issue].revision + 1)];
      out := Ok((LoadIssue(Contents(), r.issue),
                 ActivityRow(r.org, Some(issues[r.issue].project), Some(r.issue), actor, IssueEntity, r.issue,
                             Some(issues[r.issue].revision))));
    }

    method SetIssueAssignee(actor: Id, r: Request) returns (out: Answer)
      requires r.SetAssignee?
      modifies this`issues
      ensures Did(out, SetAssigneeBody(old(Contents()), actor, r), Contents())
    {
      if ParseRevision(r.revision).None? {
        return Refuse(InvalidRequest);
      }
      if !(r.issue in issues && issues[r.issue].org == r.org
           && ParseRevision(r.revision) == Some(issues[r.issue].revision)) {
        return Refuse(RevisionConflict);
      }
      issues := issues[r.issue := issues[r.issue].(assignee := r.assignee, revision := issues[r.issue].revision + 1)];
      out := Ok((AssigneeReply(r.issue, r.assignee, issues[r.issue].revision),
                 ActivityRow(r.org, Some(issues[r.issue].project), Some(r.issue), actor, IssueEntity, r.issue,
                             Some(issues[r.issue].revision))));
    }

    // ---- One transaction

    method Dispatch(c: Command, now: int, ids: FreshIds, cap: Captured) returns (out: Answer)
      requires Shaped(c.request) && QueryEnds(c.request)
      requires NeedsCatalog(c.request) ==> c.request.org in workspaces
      modifies this`teams, this`members, this`states, this`workspaces, this`statuses, this`projects, this`issues,
          this`aliases
      ensures Did(out, Body(old(Contents()), c.actor, now, ids, c.request, Seeing(cap, old(Contents()))), Contents())
    {
      hide Did, ItemsOk;
      hide PutTeamBody, SetMemberBody, PutStateBody, ReorderStatesBody, ArchiveStateBody, DeleteStateBody;
      hide PutStatusBody, ReorderStatusesBody, ArchiveStatusBody, DeleteStatusBody;
      hide CreateProjectBody, UpdateProjectBody, ArchiveProjectBody;
      hide CreateIssueBody, UpdateIssueBody, MoveIssueBody, ArchiveIssueBody, SetAssigneeBody;
      match c.request {
        case PutTeam(_, _, _, _, _, _, _) => out := PutTeam(c.actor, c.request, ids);
        case SetMember(_, _, _, _) => out := SetTeamMember(c.actor, c.request);
        case PutState(_, _, _, _, _, _, _) => out := PutWorkflowState(c.actor, c.request);
        case ReorderStates(_, _, _) => out := ReorderWorkflowStates(c.actor, c.request);
        case ArchiveState(_, _, _, _) => out := ArchiveWorkflowState(c.actor, c.request);
        case DeleteState(_, _, _, _) => out := DeleteWorkflowState(c.actor, c.request);
        case PutStatus(_, _, _, _, _, _) => out := PutProjectStatus(c.actor, c.request);
        case ReorderStatuses(_, _) => out := ReorderProjectStatuses(c.actor, c.request);
        case ArchiveStatus(_, _, _, _) => out := ArchiveProjectStatus(c.actor, c.request);
        case DeleteStatus(_, _, _) => out := DeleteProjectStatus(c.actor, c.request);
        case CreateProject(_, _, _, _, _, _) => out := CreateProject(c.actor, now, c.request);
        case UpdateProject(_, _, _, _, _, _, _) => out := UpdateProject(c.actor, now, c.request);
        case ArchiveProject(_, _, _, _) => out := ArchiveProject(c.actor, c.request);
        case CreateIssue(_, _, _, _, _, _, _) => out := CreateIssue(c.actor, now, c.request);
        case UpdateIssue(_, _, _, _, _, _) => out := UpdateIssue(c.actor, c.request, cap);
        case MoveIssue(_, _, _, _, _) => out := MoveIssue(c.actor, now, c.request, cap);
        case ArchiveIssue(_, _, _, _) => out := ArchiveIssue(c.actor, c.request);
        case SetAssignee(_, _, _, _) => out := SetIssueAssignee(c.actor, c.request);
      }
    }

    method Statements(c: Command, now: int, ids: FreshIds, cap: Captured) returns (out: Answer)
      requires Shaped(c.request) && QueryEnds(c.request)
      modifies this`teams, this`members, this`states, this`workspaces, this`statuses, this`projects, this`issues,
          this`aliases
      ensures Did(out, Perform(old(Contents()), c, now, ids, Seeing(cap, old(Contents()))), Contents())
    {
      hide Body, Shaped;
      if NeedsCatalog(c.request) {
        var done := EnsureProjectStatusCatalog(c.request.org, ids);
        if done.Err? {
          return Err(done.error);
        }
      }
      out := Dispatch(c, now, ids, cap);
    }

    /** What dropping an uncommitted transaction leaves. */
    method Rollback(saved: Db, reservations: map<CommandKey, Reservation>)
      modifies this
      ensures commands == reservations
      ensures Contents() == saved.(commands := Receipts(reservations))
    {
      hide Receipts;
      teams, members, states := saved.teams, saved.members, saved.states;
      workspaces, statuses, projects := saved.workspaces, saved.statuses, saved.projects;
      issues, aliases, activity := saved.issues, saved.aliases, saved.activity;
      commands, retentions := reservations, saved.retentions;
    }

    /** Records the change and completes its reservation. */
    method Finish(c: Command, reply: Reply, row: ActivityRow)
      requires KeyOf(c) in commands && commands[KeyOf(c)] == Reservation(c.request, None)
      requires forall k :: k in commands && k != KeyOf(c) ==> commands[k].response.Some?
      modifies this`commands, this`activity
      ensures Settled()
      ensures Contents() == Committed(Change(old(Contents()), reply, row), c)
    {
      AppendActivity(row);
      var done := CompleteCommand(KeyOf(c), reply);
      assert done.Ok?;
      assert Receipts(commands) == Receipts(old(commands))[KeyOf(c) := Receipt(c.request, reply)];
    }

    /** From the reservation on; an error rolls everything back to `saved`. */
    method Proceed(saved: Db, reservations: map<CommandKey, Reservation>, c: Command, now: int, ids: FreshIds,
                   cap: Captured)
      returns (result: Result<Reply, StorageError>)
      requires Settled() && commands == reservations && saved.commands == Receipts(reservations)
      requires Shaped(c.request) && QueryEnds(c.request)
      modifies this
      ensures Outcome(Contents(), result) == Reserved(saved, old(Contents()), c, now, ids, Seeing(cap, old(Contents())))
      ensures Settled()
    {
      hide Perform;
      var start := ReserveCommand(c);
      match start.value {
        case Conflict =>
          Rollback(saved, reservations);
          result := Refuse(IdempotencyConflict);
        case Replay(reply) =>
          result := Ok(reply);
        case New =>
          var out := Statements(c, now, ids, cap);
          if out.Err? {
            Rollback(saved, reservations);
            return Err(out.error);
          }
          Finish(c, out.value.0, out.value.1);
          result := Ok(out.value.0);
      }
    }

    /** The transaction of an admitted command: reserve, change, record, complete; any error rolls all of it back. */
    method Execute(c: Command, now: int, ids: FreshIds, cap: Captured) returns (result: Result<Reply, StorageError>)
      requires Settled() && Invariant(Contents()) && Shaped(c.request) && QueryEnds(c.request)
      modifies this
      ensures Outcome(Contents(), result) == Transact(old(Contents()), c, now, ids, Seeing(cap, old(Contents())))
      ensures Settled() && Invariant(Contents())
    {
      hide Reserved, Receipts, EnsureCatalog, Invariant, Shaped;
      TransactKeeps(Contents(), c, now, ids, Seeing(cap, Contents()));
      var saved, reservations := Contents(), commands;
      if CatalogFirst(c.request) {
        var done := EnsureProjectStatusCatalog(c.request.org, ids);
        if done.Err? {
          Rollback(saved, reservations);
          return Err(done.error);
        }
      }
      result := Proceed(saved, reservations, c, now, ids, cap);
    }

    /** A command from its checks, whose statements saw `seen` some time ago, to its answer. */
    method Serve(seen: Db, c: Command, now: int, ids: FreshIds) returns (result: Result<Reply, StorageError>)
      requires Settled() && Invariant(Contents()) && QueryEnds(c.request)
      modifies this
      ensures result == Served(seen, old(Contents()), c, now, ids)
      ensures result.Err? ==> Contents() == old(Contents())
      ensures Settled() && Invariant(Contents())
    {
      match Admit(seen, c.actor, c.request) {
        case Err(e) => result := Err(e);
        case Ok(cap) =>
          AdmittedIsShaped(seen, c.actor, c.request);
          TransactFacts(Contents(), c, now, ids, Seeing(cap, Contents()));
          result := Execute(c, now, ids, cap);
      }
    }

    /** Retention is a transaction without a command key; its receipt is a row of its own table. */
    method ApplyRetention(action: Id, r: Retention) returns (result: Result<string, StorageError>)
      modifies this`issues, this`activity, this`retentions
      ensures result == Applied(old(Contents()), action, r)
      ensures Contents() == Apply(old(Contents()), action, r)
    {
      if action in retentions {
        if retentions[action] != r {
          return Refuse(IdempotencyConflict);
        }
        return Ok("projects-retention:" + action);
      }
      activity := Renamed(activity, r.org, r.subject, "privacy:" + action);
      issues := Unassigned(issues, r.org, r.subject);
      retentions := retentions[action := r];
      result := Ok("projects-retention:" + action);
    }
  }

  lemma {:induction false} NoLaterStatuses(statuses: map<Id, Status>, org: Id, ids: FreshIds, m: nat, n: nat)
    requires m <= n <= 6 && InsertStatuses(statuses, org, ids, m).None?
    ensures InsertStatuses(statuses, org, ids, n).None?
    decreases n
  {
    if m < n {
      NoLaterStatuses(statuses, org, ids, m, n - 1);
    }
  }

  lemma {:induction false} NoLaterStates(states: map<Id, WorkflowState>, org: Id, team: Id, ids: FreshIds, m: nat,
                                         n: nat)
    requires m <= n <= 5 && InsertStates(states, org, team, ids, m).None?
    ensures InsertStates(states, org, team, ids, n).None?
    decreases n
  {
    if m < n {
      NoLaterStates(states, org, team, ids, m, n - 1);
    }
  }

  /** The locked rows in id order, each compared with the item that names it. */
  method CheckItems(active: map<Id, nat>, items: seq<Item>) returns (problem: Option<DomainFailure>)
    ensures problem == Problem(active, items)
  {
    if |active| != |items| {
      return Some(InvalidRequest);
    }
    var rows := OrderById(active.Keys);
    hide Find, ParseRevision;
    while rows != []
      invariant forall id :: id in rows ==> id in active
      invariant FirstProblem(rows, active, items) == Problem(active, items)
    {
      var id := rows[0];
      var item := Find(items, id);
      if item.None? {
        return Some(InvalidRequest);
      }
      var expected := ParseRevision(item.value.revision);
      if expected.None? {
        return Some(InvalidRequest);
      }
      if expected.value != active[id] {
        return Some(RevisionConflict);
      }
      rows := rows[1..];
    }
    problem := None;
  }

  lemma NotAttachable(db: Db, org: Id, teamIds: seq<Id>, k: nat)
    requires k < |teamIds| && (teamIds[k] in teamIds[..k] || !TeamExists(db, org, teamIds[k]))
    ensures !Attachable(db, org, teamIds)
  {
    if teamIds[k] in teamIds[..k] {
      var i :| 0 <= i < k && teamIds[..k][i] == teamIds[k];
      assert teamIds[i] == teamIds[k];
    }
  }

  lemma EmptyTeams(rows: set<Id>, teamIds: seq<Id>)
    requires rows == set t | t in teamIds
    ensures rows == {} <==> teamIds == []
  {
    if teamIds != [] {
      assert teamIds[0] in rows;
    }
  }
}
