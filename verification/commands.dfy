/**
 What each command of the provider does to the tables. A command first reads the
 tables outside any transaction (`Admit`); its transaction (`Transact`) runs later
 and re-checks only what its own statements and the table constraints re-check.
 */
module Commands {
  import opened Prelude
  import opened Text
  import opened Tables
  import opened Sorting
  import opened Reorder
  import Parents

  /** What a transaction that goes through changes, answers and records. */
  datatype Change = Change(db: Db, reply: Reply, row: ActivityRow)

  /**
   Values that a command read before it writes, and that may be stale when it does: those of
   its admission, and the parent links as the recursive query of `update_issue` saw them.
   */
  datatype Captured = Captured(project: Id, team: Id, links: Parents.Links)

  const NOTHING := Captured("", "", map[])

  /** The query saw the links of this state. */
  function Seeing(cap: Captured, db: Db): Captured {
    cap.(links := LinksOf(db.issues))
  }

  function Refuse<T>(failure: DomainFailure): Result<T, StorageError> {
    Err(Domain(failure))
  }

  /** A reason not to go on, if there is one. */
  type Refusal = Option<StorageError>

  function Because(failure: DomainFailure): Refusal {
    Some(Domain(failure))
  }

  // ---- Visibility

  predicate TeamOpen(db: Db, team: Id, actor: Id) {
    team in db.teams &&
    (!db.teams[team].private || ((team, actor) in db.members && db.members[(team, actor)].active))
  }

  /** No private Team attached to the Project shuts the actor out. */
  predicate ProjectVisible(db: Db, project: Id, actor: Id)
    requires project in db.projects
  {
    forall t :: t in db.projects[project].teams && t in db.teams ==> TeamOpen(db, t, actor)
  }

  predicate IssueVisible(db: Db, issue: Id, actor: Id)
    requires issue in db.issues
  {
    && TeamOpen(db, db.issues[issue].team, actor)
    && (db.issues[issue].project in db.projects ==> ProjectVisible(db, db.issues[issue].project, actor))
  }

  function CheckProject(db: Db, org: Id, project: Id, actor: Id): Result<(), StorageError> {
    if !(project in db.projects && db.projects[project].org == org) then Refuse(NotFound)
    else if !ProjectVisible(db, project, actor) then Refuse(PrivateTeam)
    else Ok(())
  }

  function CheckIssue(db: Db, org: Id, issue: Id, actor: Id): Result<(), StorageError> {
    if !(issue in db.issues && db.issues[issue].org == org && db.issues[issue].team in db.teams) then Refuse(NotFound)
    else if !IssueVisible(db, issue, actor) then Refuse(PrivateTeam)
    else Ok(())
  }

  /** A count of matching rows equals the length of the list exactly when the ids are distinct and all match. */
  function CheckTeams(db: Db, org: Id, teamIds: seq<Id>, actor: Id): Result<(), StorageError> {
    if |set t | t in teamIds && t in db.teams && db.teams[t].org == org| != |teamIds| then Refuse(TeamNotFound)
    else if exists t :: t in teamIds && t in db.teams && db.teams[t].org == org && !TeamOpen(db, t, actor) then
      Refuse(PrivateTeam)
    else Ok(())
  }

  function CheckIssueLinks(db: Db, org: Id, project: Id, team: Id, parent: Option<Id>): Result<(), StorageError> {
    if !(project in db.projects && db.projects[project].org == org && team in db.projects[project].teams) then
      Refuse(TeamNotFound)
    else if parent.Some? && !(parent.value in db.issues && db.issues[parent.value].org == org
                              && db.issues[parent.value].project == project) then
      Refuse(ParentNotFound)
    else Ok(())
  }

  function Then<T>(first: Result<(), StorageError>, second: Result<T, StorageError>): Result<T, StorageError> {
    if first.Err? then Err(first.error) else second
  }

  function CheckRevision(text: string): Result<(), StorageError> {
    if ParseRevision(text).None? then Refuse(InvalidRequest) else Ok(())
  }

  predicate TeamExists(db: Db, org: Id, team: Id) {
    team in db.teams && db.teams[team].org == org
  }

  predicate KeyOwned(teams: map<Id, Team>, org: Id, key: string, team: Id) {
    exists t :: t in teams && t != team && teams[t].org == org && teams[t].key == key
  }

  /** The statements a command runs on the pool before its transaction begins. */
  function Admit(db: Db, actor: Id, request: Request): Result<Captured, StorageError> {
    match request
    case PutTeam(org, team, key, _, _, _, _) =>
      if KeyOwned(db.teams, org, key, team) then Refuse(KeyConflict) else Ok(NOTHING)
    case SetMember(org, team, _, _) =>
      if TeamExists(db, org, team) then Ok(NOTHING) else Refuse(NotFound)
    case PutState(org, _, team, _, _, _, _) =>
      if TeamExists(db, org, team) then Ok(NOTHING) else Refuse(NotFound)
    case ReorderStates(_, _, items) =>
      if ItemsOk(items) then Ok(NOTHING) else Refuse(InvalidRequest)
    case ReorderStatuses(_, items) =>
      if ItemsOk(items) then Ok(NOTHING) else Refuse(InvalidRequest)
    case ArchiveState(_, _, revision, _) => Then(CheckRevision(revision), Ok(NOTHING))
    case DeleteState(_, _, _, revision) => Then(CheckRevision(revision), Ok(NOTHING))
    case ArchiveStatus(_, _, revision, _) => Then(CheckRevision(revision), Ok(NOTHING))
    case DeleteStatus(_, _, revision) => Then(CheckRevision(revision), Ok(NOTHING))
    case PutStatus(_, _, _, _, _, _) => Ok(NOTHING)
    case CreateProject(org, _, _, _, teamIds, _) => Then(CheckTeams(db, org, teamIds, actor), Ok(NOTHING))
    case UpdateProject(org, project, revision, _, _, teamIds, _) =>
      Then(CheckProject(db, org, project, actor),
        Then(CheckTeams(db, org, teamIds, actor), Then(CheckRevision(revision), Ok(NOTHING))))
    case ArchiveProject(org, project, revision, _) =>
      Then(CheckProject(db, org, project, actor), Then(CheckRevision(revision), Ok(NOTHING)))
    case CreateIssue(org, _, project, team, _, _, parent) =>
      Then(CheckProject(db, org, project, actor),
        Then(CheckIssueLinks(db, org, project, team, parent), Ok(Captured(project, team, map[]))))
    case UpdateIssue(org, issue, revision, _, _, parent) =>
      if !(issue in db.issues && db.issues[issue].org == org) then Refuse(NotFound)
      else
        var row := db.issues[issue];
        Then(CheckIssue(db, org, issue, actor),
          Then(CheckIssueLinks(db, org, row.project, row.team, parent),
            Then(CheckRevision(revision), Ok(Captured(row.project, row.team, map[])))))
    case MoveIssue(org, issue, revision, team, _) =>
      if !(issue in db.issues && db.issues[issue].org == org) then Refuse(NotFound)
      else
        var row := db.issues[issue];
        Then(CheckIssue(db, org, issue, actor),
          Then(CheckTeams(db, org, [team], actor),
            Then(CheckIssueLinks(db, org, row.project, team, None),
              Then(CheckRevision(revision), Ok(Captured(row.project, row.team, map[]))))))
    case ArchiveIssue(org, issue, revision, _) =>
      Then(CheckIssue(db, org, issue, actor), Then(CheckRevision(revision), Ok(NOTHING)))
    case SetAssignee(org, issue, _, assignee) =>
      Then(CheckIssue(db, org, issue, actor),
        if assignee.Some? then Then(CheckIssue(db, org, issue, assignee.value), Ok(NOTHING)) else Ok(NOTHING))
  }

  // ---- Default catalogs

  /** Name and category of the statuses that every Organization starts with; the first is the default. */
  const STATUS_DEFAULTS: seq<(string, StatusCategory)> :=
    [("Backlog", ProjectBacklog), ("Planned", ProjectPlanned), ("In Progress", ProjectStarted),
     ("Paused", ProjectPaused), ("Completed", ProjectCompleted), ("Canceled", ProjectCanceled)]

  /** Name and category of the workflow states that every Team starts with; `Todo` is the default. */
  const STATE_DEFAULTS: seq<(string, WorkflowCategory)> :=
    [("Backlog", Backlog), ("Todo", Unstarted), ("In Progress", Started), ("Done", Completed), ("Canceled", Canceled)]

  const TODO := 1

  /** Fresh row ids, drawn by the database session; the first six are for statuses, the next five for states. */
  type FreshIds = ids: seq<Id> | |ids| == 11
    witness ["a", "b", "c", "d", "e", "f", "g", "h", "i", "j", "k"]

  predicate StatusNameTaken(statuses: map<Id, Status>, org: Id, name: string, except: Id) {
    exists s :: s in statuses && s != except && statuses[s].org == org && statuses[s].name == name
  }

  predicate StateNameTaken(states: map<Id, WorkflowState>, team: Id, name: string, except: Id) {
    exists s :: s in states && s != except && states[s].team == team && states[s].name == name
  }

  /** The first `n` inserts of the default statuses; a unique violation aborts. */
  function InsertStatuses(statuses: map<Id, Status>, org: Id, ids: FreshIds, n: nat): Option<map<Id, Status>>
    requires n <= 6
  {
    if n == 0 then Some(statuses)
    else
      match InsertStatuses(statuses, org, ids, n - 1)
      case None => None
      case Some(m) =>
        var (name, category) := STATUS_DEFAULTS[n - 1];
        if ids[n - 1] in m || StatusNameTaken(m, org, name, ids[n - 1]) then None
        else Some(m[ids[n - 1] := Status(org, name, category, n - 1, n == 1, false, 1)])
  }

  function InsertStates(states: map<Id, WorkflowState>, org: Id, team: Id, ids: FreshIds, n: nat)
    : Option<map<Id, WorkflowState>>
    requires n <= 5
  {
    if n == 0 then Some(states)
    else
      match InsertStates(states, org, team, ids, n - 1)
      case None => None
      case Some(m) =>
        var (name, category) := STATE_DEFAULTS[n - 1];
        var id := ids[6 + n - 1];
        if id in m || StateNameTaken(m, team, name, id) then None
        else Some(m[id := WorkflowState(org, team, name, category, n - 1, false, 1)])
  }

  /** Creates the Organization's status catalog the first time it is needed. */
  function EnsureCatalog(db: Db, org: Id, ids: FreshIds): Result<Db, StorageError> {
    if org in db.workspaces then Ok(db)
    else
      match InsertStatuses(db.statuses, org, ids, 6)
      case None => Err(Runtime)
      case Some(m) => Ok(db.(workspaces := db.workspaces[org := ids[0]], statuses := m))
  }

  // ---- Resolving references inside a transaction

  function ResolveStatus(db: Db, org: Id, choice: Option<Id>): Result<Id, StorageError>
    requires org in db.workspaces
  {
    var id := if choice.Some? then choice.value else db.workspaces[org];
    if id in db.statuses && db.statuses[id].org == org && !db.statuses[id].archived then Ok(id)
    else Refuse(ProjectStatusNotFound)
  }

  function ResolveState(db: Db, org: Id, team: Id, choice: Option<Id>): Result<Id, StorageError> {
    if !TeamExists(db, org, team) then Refuse(WorkflowStateNotFound)
    else
      var id := if choice.Some? then choice.value else db.teams[team].defaultState;
      if id in db.states && db.states[id].org == org && db.states[id].team == team && !db.states[id].archived then
        Ok(id)
      else Refuse(WorkflowStateNotFound)
  }

  /** `UPDATE teams SET next_issue_number=next_issue_number+1 ... RETURNING team_key, next_issue_number-1` */
  function TakeNumber(teams: map<Id, Team>, team: Id): map<Id, Team>
    requires team in teams
  {
    teams[team := teams[team].(nextNumber := teams[team].nextNumber + 1)]
  }

  function NextIdentifier(teams: map<Id, Team>, team: Id): string
    requires team in teams
  {
    Identifier(teams[team].key, teams[team].nextNumber)
  }

  /** The other identifiers an Issue has had. */
  function Previous(db: Db, issue: Id): set<string>
    requires issue in db.issues
  {
    set a | a in db.aliases.Keys && a.0 == db.issues[issue].org && db.aliases[a].issue == issue
            && a.1 != db.issues[issue].identifier :: a.1
  }

  function LoadIssue(db: Db, issue: Id): Reply
    requires issue in db.issues
  {
    IssueReply(issue, db.issues[issue], Previous(db, issue))
  }

  function TeamRow(request: Request, actor: Id, kind: EntityKind, entity: Id, revision: Option<nat>): ActivityRow {
    ActivityRow(request.org, None, None, actor, kind, entity, revision)
  }

  // ---- The transactions

  ghost function PutTeamBody(db: Db, actor: Id, r: Request, ids: FreshIds): (out: Result<Change, StorageError>)
    requires r.PutTeam?
    ensures out.Ok? ==> out.value.db == db.(teams := out.value.db.teams, states := out.value.db.states)
  {
    if r.expected.Some? then
      if r.defaultState.None? then Refuse(DefaultStateInvalid)
      else
        var d := r.defaultState.value;
        if !(d in db.states && db.states[d].org == r.org && db.states[d].team == r.team
             && db.states[d].category == Unstarted && !db.states[d].archived) then Refuse(DefaultStateInvalid)
        else if ParseRevision(r.expected.value).None? then Refuse(InvalidRequest)
        else if !(TeamExists(db, r.org, r.team)
                  && db.teams[r.team].revision == ParseRevision(r.expected.value).value) then Refuse(RevisionConflict)
        else if !ValidKey(r.key) || KeyOwned(db.teams, r.org, r.key, r.team) then Err(Runtime)
        else
          var t := db.teams[r.team].(key := r.key, name := r.name, private := r.private, defaultState := d,
                                     revision := db.teams[r.team].revision + 1);
          Ok(Change(db.(teams := db.teams[r.team := t]), TeamReply(r.team, t),
                    TeamRow(r, actor, TeamEntity, r.team, Some(t.revision))))
    else if r.defaultState.Some? then Refuse(DefaultStateInvalid)
    else if !ValidKey(r.key) then Err(Runtime)
    else if r.team in db.teams || KeyOwned(db.teams, r.org, r.key, r.team) then Refuse(KeyConflict)
    else
      var t := Team(r.org, r.key, r.name, r.private, ids[6 + TODO], 1, 1);
      match InsertStates(db.states, r.org, r.team, ids, 5)
      case None => Err(Runtime)
      case Some(m) =>
        Ok(Change(db.(teams := db.teams[r.team := t], states := m), TeamReply(r.team, t),
                  TeamRow(r, actor, TeamEntity, r.team, Some(1))))
  }

  ghost function SetMemberBody(db: Db, actor: Id, r: Request): (out: Result<Change, StorageError>)
    requires r.SetMember?
    ensures out.Ok? ==> out.value.db == db.(members := out.value.db.members)
  {
    var k := (r.team, r.subject);
    if k in db.members && db.members[k].active == r.active then
      Ok(Change(db, MemberReply(r.team, r.subject, r.active, false, db.members[k].revision),
                TeamRow(r, actor, MemberEntity, r.subject, Some(db.members[k].revision))))
    else
      var revision := if k in db.members then db.members[k].revision + 1 else 1;
      if k !in db.members && !TeamExists(db, r.org, r.team) then Err(Runtime)
      else
        Ok(Change(db.(members := db.members[k := Member(r.active, revision)]),
                  MemberReply(r.team, r.subject, r.active, true, revision),
                  TeamRow(r, actor, MemberEntity, r.subject, Some(revision))))
  }

  predicate StateExists(db: Db, org: Id, team: Id, state: Id) {
    state in db.states && db.states[state].org == org && db.states[state].team == team
  }

  function PutStateRefusal(db: Db, r: Request): Refusal
    requires r.PutState?
  {
    if r.expected.Some? then
      if !StateExists(db, r.org, r.team, r.state) then Because(NotFound)
      else if db.states[r.state].category != r.category || ParseRevision(r.expected.value).None? then
        Because(InvalidRequest)
      else if db.states[r.state].revision != ParseRevision(r.expected.value).value then Because(RevisionConflict)
      else if StateNameTaken(db.states, r.team, r.name, r.state) then Some(Runtime)
      else None
    else if r.state in db.states || StateNameTaken(db.states, r.team, r.name, r.state) then Because(KeyConflict)
    else if !TeamExists(db, r.org, r.team) then Some(Runtime)
    else None
  }

  ghost function PutStateBody(db: Db, actor: Id, r: Request): (out: Result<Change, StorageError>)
    requires r.PutState?
    ensures out.Ok? ==> out.value.db == db.(states := out.value.db.states)
  {
    match PutStateRefusal(db, r)
    case Some(e) => Err(e)
    case None =>
      var s :=
        if r.expected.Some? then
          db.states[r.state].(name := r.name, position := r.position, revision := db.states[r.state].revision + 1)
        else WorkflowState(r.org, r.team, r.name, r.category, r.position, false, 1);
      Ok(Change(db.(states := db.states[r.state := s]), StateReply(r.state, s),
                TeamRow(r, actor, StateEntity, r.state, Some(s.revision))))
  }

  predicate IsDefaultState(db: Db, org: Id, team: Id, state: Id) {
    TeamExists(db, org, team) && db.teams[team].defaultState == state
  }

  predicate StateReferenced(issues: map<Id, Issue>, org: Id, state: Id) {
    exists i :: i in issues && issues[i].org == org && issues[i].state == state
  }

  function ArchiveStateRefusal(db: Db, r: Request): Refusal
    requires r.ArchiveState?
  {
    if !(r.state in db.states && db.states[r.state].org == r.org) then Because(NotFound)
    else if r.archived && IsDefaultState(db, r.org, db.states[r.state].team, r.state) then Because(DefaultStateInvalid)
    else if r.archived && StateReferenced(db.issues, r.org, r.state) then Because(ActiveReference)
    else if ParseRevision(r.revision) != Some(db.states[r.state].revision) then Because(RevisionConflict)
    else None
  }

  ghost function ArchiveStateBody(db: Db, actor: Id, r: Request): (out: Result<Change, StorageError>)
    requires r.ArchiveState?
    ensures out.Ok? ==> out.value.db == db.(states := out.value.db.states)
  {
    match ArchiveStateRefusal(db, r)
    case Some(e) => Err(e)
    case None =>
      var s := db.states[r.state].(archived := r.archived, revision := db.states[r.state].revision + 1);
      Ok(Change(db.(states := db.states[r.state := s]), StateReply(r.state, s),
                TeamRow(r, actor, StateEntity, r.state, Some(s.revision))))
  }

  function DeleteStateRefusal(db: Db, r: Request): Refusal
    requires r.DeleteState?
  {
    if !StateExists(db, r.org, r.team, r.state) then Because(NotFound)
    else if ParseRevision(r.revision) != Some(db.states[r.state].revision) then Because(RevisionConflict)
    else if IsDefaultState(db, r.org, r.team, r.state) then Because(DefaultStateInvalid)
    else if exists i :: i in db.issues && db.issues[i].org == r.org && db.issues[i].team == r.team
                        && db.issues[i].state == r.state then Because(ActiveReference)
    else if !db.states[r.state].archived then Because(InvalidRequest)
    else None
  }

  ghost function DeleteStateBody(db: Db, actor: Id, r: Request): (out: Result<Change, StorageError>)
    requires r.DeleteState?
    ensures out.Ok? ==> out.value.db == db.(states := out.value.db.states)
  {
    match DeleteStateRefusal(db, r)
    case Some(e) => Err(e)
    case None =>
      Ok(Change(db.(states := db.states - {r.state}), DeletedReply(r.state),
                TeamRow(r, actor, StateEntity, r.state, Some(db.states[r.state].revision))))
  }

  function PutStatusRefusal(db: Db, r: Request): Refusal
    requires r.PutStatus?
  {
    if r.expected.Some? then
      if !(r.status in db.statuses && db.statuses[r.status].org == r.org) then Because(NotFound)
      else if db.statuses[r.status].category != r.statusCategory || ParseRevision(r.expected.value).None? then
        Because(InvalidRequest)
      else if db.statuses[r.status].revision != ParseRevision(r.expected.value).value then Because(RevisionConflict)
      else if StatusNameTaken(db.statuses, r.org, r.name, r.status) then Some(Runtime)
      else None
    else if r.status in db.statuses || StatusNameTaken(db.statuses, r.org, r.name, r.status) then Because(KeyConflict)
    else None
  }

  ghost function PutStatusBody(db: Db, actor: Id, r: Request): (out: Result<Change, StorageError>)
    requires r.PutStatus?
    ensures out.Ok? ==> out.value.db == db.(statuses := out.value.db.statuses)
  {
    match PutStatusRefusal(db, r)
    case Some(e) => Err(e)
    case None =>
      var s :=
        if r.expected.Some? then
          db.statuses[r.status].(name := r.name, position := r.position, revision := db.statuses[r.status].revision + 1)
        else Status(r.org, r.name, r.statusCategory, r.position, false, false, 1);
      Ok(Change(db.(statuses := db.statuses[r.status := s]), StatusReply(r.status, s),
                TeamRow(r, actor, StatusEntity, r.status, Some(s.revision))))
  }

  predicate StatusReferenced(projects: map<Id, Project>, org: Id, status: Id) {
    exists p :: p in projects && projects[p].org == org && projects[p].status == status
  }

  function ArchiveStatusRefusal(db: Db, r: Request): Refusal
    requires r.ArchiveStatus?
  {
    if !(r.status in db.statuses && db.statuses[r.status].org == r.org) then Because(NotFound)
    else if r.archived && db.statuses[r.status].isDefault then Because(DefaultStateInvalid)
    else if r.archived && StatusReferenced(db.projects, r.org, r.status) then Because(ActiveReference)
    else if ParseRevision(r.revision) != Some(db.statuses[r.status].revision) then Because(RevisionConflict)
    else None
  }

  ghost function ArchiveStatusBody(db: Db, actor: Id, r: Request): (out: Result<Change, StorageError>)
    requires r.ArchiveStatus?
    ensures out.Ok? ==> out.value.db == db.(statuses := out.value.db.statuses)
  {
    match ArchiveStatusRefusal(db, r)
    case Some(e) => Err(e)
    case None =>
      var s := db.statuses[r.status].(archived := r.archived, revision := db.statuses[r.status].revision + 1);
      Ok(Change(db.(statuses := db.statuses[r.status := s]), StatusReply(r.status, s),
                TeamRow(r, actor, StatusEntity, r.status, Some(s.revision))))
  }

  function DeleteStatusRefusal(db: Db, r: Request): Refusal
    requires r.DeleteStatus?
  {
    if !(r.status in db.statuses && db.statuses[r.status].org == r.org) then Because(NotFound)
    else if ParseRevision(r.revision) != Some(db.statuses[r.status].revision) then Because(RevisionConflict)
    else if db.statuses[r.status].isDefault then Because(DefaultStateInvalid)
    else if StatusReferenced(db.projects, r.org, r.status) then Because(ActiveReference)
    else if !db.statuses[r.status].archived then Because(InvalidRequest)
    else None
  }

  ghost function DeleteStatusBody(db: Db, actor: Id, r: Request): (out: Result<Change, StorageError>)
    requires r.DeleteStatus?
    ensures out.Ok? ==> out.value.db == db.(statuses := out.value.db.statuses)
  {
    match DeleteStatusRefusal(db, r)
    case Some(e) => Err(e)
    case None =>
      Ok(Change(db.(statuses := db.statuses - {r.status}), DeletedReply(r.status),
                TeamRow(r, actor, StatusEntity, r.status, Some(db.statuses[r.status].revision))))
  }

  /** Foreign keys and the primary key of `project_teams`. */
  predicate Attachable(db: Db, org: Id, teamIds: seq<Id>) {
    NoDup(teamIds) && forall t :: t in teamIds ==> TeamExists(db, org, t)
  }

  predicate TeamsAttachable(db: Db, org: Id, lead: Id, teamIds: seq<Id>) {
    TeamExists(db, org, lead) && Attachable(db, org, teamIds)
  }

  function Stamp(entered: bool, stamped: Option<int>, now: int): Option<int> {
    if !entered then None else if stamped.Some? then stamped else Some(now)
  }

  ghost function CreateProjectBody(db: Db, actor: Id, now: int, r: Request): (out: Result<Change, StorageError>)
    requires r.CreateProject? && r.org in db.workspaces
    ensures out.Ok? ==> out.value.db == db.(projects := out.value.db.projects)
  {
    match ResolveStatus(db, r.org, r.statusChoice)
    case Err(e) => Err(e)
    case Ok(status) =>
      if r.project in db.projects then Refuse(IdentifierConflict)
      else if !TeamsAttachable(db, r.org, r.lead, r.teamIds) then Err(Runtime)
      else if r.teamIds == [] then Err(Runtime)
      else
        var category := db.statuses[status].category;
        var p := Project(r.org, r.name, r.lead, (set t | t in r.teamIds), status,
                         Stamp(category == ProjectCompleted, None, now), Stamp(category == ProjectCanceled, None, now),
                         false, 1);
        Ok(Change(db.(projects := db.projects[r.project := p]), ProjectReply(r.project, p),
                  ActivityRow(r.org, Some(r.project), None, actor, ProjectEntity, r.project, Some(1))))
  }

  predicate IssueTeamsCovered(issues: map<Id, Issue>, org: Id, project: Id, teamIds: seq<Id>) {
    forall i :: i in issues && issues[i].org == org && issues[i].project == project ==> issues[i].team in teamIds
  }

  ghost function UpdateProjectBody(db: Db, actor: Id, now: int, r: Request): (out: Result<Change, StorageError>)
    requires r.UpdateProject? && r.org in db.workspaces
    ensures out.Ok? ==> out.value.db == db.(projects := out.value.db.projects)
  {
    if !IssueTeamsCovered(db.issues, r.org, r.project, r.teamIds) then Refuse(ActiveReference)
    else
      match ResolveStatus(db, r.org, Some(r.status))
      case Err(e) => Err(e)
      case Ok(status) =>
        if !(r.project in db.projects && db.projects[r.project].org == r.org) then Refuse(NotFound)
        else if ParseRevision(r.revision) != Some(db.projects[r.project].revision) then Refuse(RevisionConflict)
        else if !TeamsAttachable(db, r.org, r.lead, r.teamIds) then Err(Runtime)
        else if r.teamIds == [] then Err(Runtime)
        else
          var earlier := db.projects[r.project];
          var category := db.statuses[status].category;
          var p := earlier.(name := r.name, lead := r.lead, teams := (set t | t in r.teamIds), status := status,
                         completedAt := Stamp(category == ProjectCompleted, earlier.completedAt, now),
                         canceledAt := Stamp(category == ProjectCanceled, earlier.canceledAt, now),
                         revision := earlier.revision + 1);
          Ok(Change(db.(projects := db.projects[r.project := p]), ProjectReply(r.project, p),
                    ActivityRow(r.org, Some(r.project), None, actor, ProjectEntity, r.project, Some(p.revision))))
  }

  ghost function ArchiveProjectBody(db: Db, actor: Id, r: Request): (out: Result<Change, StorageError>)
    requires r.ArchiveProject?
    ensures out.Ok? ==> out.value.db == db.(projects := out.value.db.projects)
  {
    if !(r.project in db.projects && db.projects[r.project].org == r.org) then Refuse(NotFound)
    else if ParseRevision(r.revision) != Some(db.projects[r.project].revision) then Refuse(RevisionConflict)
    else
      var p := db.projects[r.project].(archived := r.archived, revision := db.projects[r.project].revision + 1);
      Ok(Change(db.(projects := db.projects[r.project := p]), ProjectReply(r.project, p),
                ActivityRow(r.org, Some(r.project), None, actor, ProjectEntity, r.project, Some(p.revision))))
  }

  /** Another Issue of the Organization currently shows this identifier. */
  predicate IdentifierShown(issues: map<Id, Issue>, org: Id, identifier: string, except: Id) {
    exists i :: i in issues && i != except && issues[i].org == org && issues[i].identifier == identifier
  }

  predicate TeamAttached(db: Db, org: Id, project: Id, team: Id) {
    project in db.projects && db.projects[project].org == org && team in db.projects[project].teams
  }

  predicate ParentExists(issues: map<Id, Issue>, org: Id, parent: Option<Id>) {
    parent.Some? ==> parent.value in issues && issues[parent.value].org == org
  }

  ghost function CreateIssueBody(db: Db, actor: Id, now: int, r: Request): (out: Result<Change, StorageError>)
    requires r.CreateIssue?
    ensures out.Ok? ==>
              var after := out.value.db;
              after == db.(teams := after.teams, issues := after.issues, aliases := after.aliases)
  {
    match ResolveState(db, r.org, r.team, r.stateChoice)
    case Err(e) => Err(e)
    case Ok(state) =>
      var identifier := NextIdentifier(db.teams, r.team);
      if r.parent == Some(r.issue) then Err(Runtime)
      else if r.issue in db.issues || IdentifierShown(db.issues, r.org, identifier, r.issue) then
        Refuse(IdentifierConflict)
      else if !TeamAttached(db, r.org, r.project, r.team) || !ParentExists(db.issues, r.org, r.parent) then
        Err(Runtime)
      else if (r.org, identifier) in db.aliases then Err(Runtime)
      else
        var row := Issue(r.org, r.project, r.team, identifier, r.title, state, r.parent, None, false, 1);
        var db1 := db.(teams := TakeNumber(db.teams, r.team), issues := db.issues[r.issue := row],
                       aliases := db.aliases[(r.org, identifier) := Alias(r.issue, now)]);
        Ok(Change(db1, LoadIssue(db1, r.issue),
                  ActivityRow(r.org, Some(r.project), Some(r.issue), actor, IssueEntity, r.issue, Some(1))))
  }

  ghost function UpdateIssueBody(db: Db, actor: Id, r: Request, cap: Captured): (out: Result<Change, StorageError>)
    requires r.UpdateIssue?
    ensures out.Ok? ==> out.value.db == db.(issues := out.value.db.issues)
  {
    if r.parent.Some? && Parents.Below(cap.links, r.issue, r.parent.value) then Refuse(InvalidRequest)
    else
      match ResolveState(db, r.org, cap.team, Some(r.state))
      case Err(e) => Err(e)
      case Ok(state) =>
        if !(r.issue in db.issues && db.issues[r.issue].org == r.org
             && ParseRevision(r.revision) == Some(db.issues[r.issue].revision)) then Refuse(RevisionConflict)
        else if r.parent == Some(r.issue) || !ParentExists(db.issues, r.org, r.parent)
                || db.issues[r.issue].team != cap.team then Err(Runtime)
        else
          var row := db.issues[r.issue].(title := r.title, state := state, parent := r.parent,
                                         revision := db.issues[r.issue].revision + 1);
          var db1 := db.(issues := db.issues[r.issue := row]);
          Ok(Change(db1, LoadIssue(db1, r.issue),
                    ActivityRow(r.org, Some(cap.project), Some(r.issue), actor, IssueEntity, r.issue,
                                Some(row.revision))))
  }

  ghost function MoveIssueBody(db: Db, actor: Id, now: int, r: Request, cap: Captured)
    : (out: Result<Change, StorageError>)
    requires r.MoveIssue?
    ensures out.Ok? ==>
              var after := out.value.db;
              after == db.(teams := after.teams, issues := after.issues, aliases := after.aliases)
  {
    match ResolveState(db, r.org, r.team, Some(r.state))
    case Err(e) => Err(e)
    case Ok(state) =>
      var identifier := NextIdentifier(db.teams, r.team);
      if !(r.issue in db.issues && db.issues[r.issue].org == r.org
           && ParseRevision(r.revision) == Some(db.issues[r.issue].revision)) then Refuse(RevisionConflict)
      else if IdentifierShown(db.issues, r.org, identifier, r.issue)
              || !TeamAttached(db, r.org, db.issues[r.issue].project, r.team) then Err(Runtime)
      else if (r.org, identifier) in db.aliases then Err(Runtime)
      else
        var row := db.issues[r.issue].(team := r.team, identifier := identifier, state := state,
                                       revision := db.issues[r.issue].revision + 1);
        var db1 := db.(teams := TakeNumber(db.teams, r.team), issues := db.issues[r.issue := row],
                       aliases := db.aliases[(r.org, identifier) := Alias(r.issue, now)]);
        Ok(Change(db1, LoadIssue(db1, r.issue),
                  ActivityRow(r.org, Some(cap.project), Some(r.issue), actor, IssueEntity, r.issue,
                              Some(row.revision))))
  }

  ghost function ArchiveIssueBody(db: Db, actor: Id, r: Request): (out: Result<Change, StorageError>)
    requires r.ArchiveIssue?
    ensures out.Ok? ==> out.value.db == db.(issues := out.value.db.issues)
  {
    if !(r.issue in db.issues && db.issues[r.issue].org == r.org
         && ParseRevision(r.revision) == Some(db.issues[r.issue].revision)) then Refuse(RevisionConflict)
    else
      var row := db.issues[r.issue].(archived := r.archived, revision := db.issues[r.issue].revision + 1);
      var db1 := db.(issues := db.issues[r.issue := row]);
      Ok(Change(db1, LoadIssue(db1, r.issue),
                ActivityRow(r.org, Some(row.project), Some(r.issue), actor, IssueEntity, r.issue, Some(row.revision))))
  }

  ghost function SetAssigneeBody(db: Db, actor: Id, r: Request): (out: Result<Change, StorageError>)
    requires r.SetAssignee?
    ensures out.Ok? ==> out.value.db == db.(issues := out.value.db.issues)
  {
    if ParseRevision(r.revision).None? then Refuse(InvalidRequest)
    else if !(r.issue in db.issues && db.issues[r.issue].org == r.org
              && ParseRevision(r.revision) == Some(db.issues[r.issue].revision)) then Refuse(RevisionConflict)
    else
      var row := db.issues[r.issue].(assignee := r.assignee, revision := db.issues[r.issue].revision + 1);
      Ok(Change(db.(issues := db.issues[r.issue := row]), AssigneeReply(r.issue, r.assignee, row.revision),
                ActivityRow(r.org, Some(row.project), Some(r.issue), actor, IssueEntity, r.issue, Some(row.revision))))
  }

  /** The unarchived states of a Team with their revisions. */
  function ActiveStates(db: Db, org: Id, team: Id): map<Id, nat> {
    map s | s in db.states && db.states[s].org == org && db.states[s].team == team && !db.states[s].archived
      :: db.states[s].revision
  }

  function ActiveStatuses(db: Db, org: Id): map<Id, nat> {
    map s | s in db.statuses && db.statuses[s].org == org && !db.statuses[s].archived :: db.statuses[s].revision
  }

  function MovedState(s: WorkflowState, position: int): WorkflowState {
    s.(position := position, revision := s.revision + 1)
  }

  function MovedStatus(s: Status, position: int): Status {
    s.(position := position, revision := s.revision + 1)
  }

  /** Rows named by an accepted reorder exist, in the order of the reply too. */
  lemma NamedRowsExist(active: map<Id, nat>, items: seq<Item>)
    requires ItemsOk(items) && Problem(active, items).None?
    ensures forall it :: it in items ==> it.id in active
    ensures forall it :: it in InOrder(items) ==> it.id in active
  {
    ReorderAcceptedExactly(active, items);
    InOrderAscends(items);
    forall it | it in items ensures it.id in active {
      assert it.id in Named(items);
    }
  }

  ghost function ReorderStatesBody(db: Db, actor: Id, r: Request): (out: Result<Change, StorageError>)
    requires r.ReorderStates? && ItemsOk(r.items)
    ensures out.Ok? ==> out.value.db == db.(states := out.value.db.states)
  {
    var active := ActiveStates(db, r.org, r.team);
    if Problem(active, r.items).Some? then Refuse(Problem(active, r.items).value)
    else
      NamedRowsExist(active, r.items);
      var states := Reordered(db.states, r.items, MovedState);
      Ok(Change(db.(states := states), StatesReply(Rows(states, InOrder(r.items))),
                TeamRow(r, actor, StateCatalog, r.team, None)))
  }

  ghost function ReorderStatusesBody(db: Db, actor: Id, r: Request): (out: Result<Change, StorageError>)
    requires r.ReorderStatuses? && ItemsOk(r.items)
    ensures out.Ok? ==> out.value.db == db.(statuses := out.value.db.statuses)
  {
    var active := ActiveStatuses(db, r.org);
    if Problem(active, r.items).Some? then Refuse(Problem(active, r.items).value)
    else
      NamedRowsExist(active, r.items);
      var statuses := Reordered(db.statuses, r.items, MovedStatus);
      Ok(Change(db.(statuses := statuses), StatusesReply(Rows(statuses, InOrder(r.items))),
                TeamRow(r, actor, StatusCatalog, r.org, None)))
  }

  // ---- One command, from reservation to receipt

  /** Requests whose transaction initializes the status catalog after reserving the command. */
  predicate NeedsCatalog(request: Request) {
    request.PutTeam? || request.PutStatus? || request.ArchiveStatus? || request.CreateProject? || request.UpdateProject?
  }

  /** Requests whose transaction initializes the status catalog even before that. */
  predicate CatalogFirst(request: Request) {
    request.ReorderStatuses? || request.DeleteStatus?
  }

  /** The checks made on the request alone; admission makes them before every transaction. */
  predicate Shaped(request: Request) {
    (request.ReorderStates? || request.ReorderStatuses?) ==> ItemsOk(request.items)
  }

  ghost function Body(db: Db, actor: Id, now: int, ids: FreshIds, r: Request, cap: Captured)
    : Result<Change, StorageError>
    requires Shaped(r)
    requires NeedsCatalog(r) ==> r.org in db.workspaces
  {
    match r
    case PutTeam(_, _, _, _, _, _, _) => PutTeamBody(db, actor, r, ids)
    case SetMember(_, _, _, _) => SetMemberBody(db, actor, r)
    case PutState(_, _, _, _, _, _, _) => PutStateBody(db, actor, r)
    case ReorderStates(_, _, _) => ReorderStatesBody(db, actor, r)
    case ArchiveState(_, _, _, _) => ArchiveStateBody(db, actor, r)
    case DeleteState(_, _, _, _) => DeleteStateBody(db, actor, r)
    case PutStatus(_, _, _, _, _, _) => PutStatusBody(db, actor, r)
    case ReorderStatuses(_, _) => ReorderStatusesBody(db, actor, r)
    case ArchiveStatus(_, _, _, _) => ArchiveStatusBody(db, actor, r)
    case DeleteStatus(_, _, _) => DeleteStatusBody(db, actor, r)
    case CreateProject(_, _, _, _, _, _) => CreateProjectBody(db, actor, now, r)
    case UpdateProject(_, _, _, _, _, _, _) => UpdateProjectBody(db, actor, now, r)
    case ArchiveProject(_, _, _, _) => ArchiveProjectBody(db, actor, r)
    case CreateIssue(_, _, _, _, _, _, _) => CreateIssueBody(db, actor, now, r)
    case UpdateIssue(_, _, _, _, _, _) => UpdateIssueBody(db, actor, r, cap)
    case MoveIssue(_, _, _, _, _) => MoveIssueBody(db, actor, now, r, cap)
    case ArchiveIssue(_, _, _, _) => ArchiveIssueBody(db, actor, r)
    case SetAssignee(_, _, _, _) => SetAssigneeBody(db, actor, r)
  }

  datatype Command = Command(caller: Id, actor: Id, idempotencyKey: string, request: Request)

  function KeyOf(c: Command): CommandKey {
    CommandKey(c.caller, c.actor, OperationOf(c.request), c.idempotencyKey)
  }

  /** The part of a transaction that runs when its command key is new. */
  ghost function Perform(db: Db, c: Command, now: int, ids: FreshIds, cap: Captured): Result<Change, StorageError>
    requires Shaped(c.request)
  {
    if NeedsCatalog(c.request) then
      match EnsureCatalog(db, c.request.org, ids)
      case Err(e) => Err(e)
      case Ok(ready) => Body(ready, c.actor, now, ids, c.request, cap)
    else Body(db, c.actor, now, ids, c.request, cap)
  }

  /** The activity record and the receipt are written in the same transaction as the change. */
  function Committed(change: Change, c: Command): Db {
    change.db.(activity := change.db.activity + [change.row],
               commands := change.db.commands[KeyOf(c) := Receipt(c.request, change.reply)])
  }

  datatype Outcome = Outcome(db: Db, result: Result<Reply, StorageError>)

  /** Reserve, perform, record, complete and commit; any error rolls everything back. */
  ghost function Reserved(before: Db, db: Db, c: Command, now: int, ids: FreshIds, cap: Captured): Outcome
    requires Shaped(c.request)
  {
    if KeyOf(c) in db.commands then
      if db.commands[KeyOf(c)].request != c.request then Outcome(before, Refuse(IdempotencyConflict))
      else Outcome(db, Ok(db.commands[KeyOf(c)].reply))
    else
      match Perform(db, c, now, ids, cap)
      case Err(e) => Outcome(before, Err(e))
      case Ok(change) => Outcome(Committed(change, c), Ok(change.reply))
  }

  ghost function Transact(db: Db, c: Command, now: int, ids: FreshIds, cap: Captured): Outcome
    requires Shaped(c.request)
  {
    if CatalogFirst(c.request) then
      match EnsureCatalog(db, c.request.org, ids)
      case Err(e) => Outcome(db, Err(e))
      case Ok(ready) => Reserved(db, ready, c, now, ids, cap)
    else Reserved(db, db, c, now, ids, cap)
  }
}
