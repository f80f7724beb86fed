/**
 The provider's tables, one map per table keyed by primary key, and what every
 reachable database satisfies.
 */
module Tables {
  import opened Prelude
  import opened Text
  import Parents

  type Id = string

  datatype DomainFailure =
    | InvalidRequest | IdempotencyConflict | NotFound | RevisionConflict
    | TeamNotFound | WorkflowStateNotFound | ProjectStatusNotFound | ParentNotFound
    | PrivateTeam | IdentifierConflict | KeyConflict | DefaultStateInvalid | ActiveReference

  /** A refusal that the contract names, or a database error that the provider reports as a plugin failure. */
  datatype StorageError = Domain(failure: DomainFailure) | Runtime

  datatype WorkflowCategory = Backlog | Unstarted | Started | Completed | Canceled

  datatype StatusCategory =
    | ProjectBacklog | ProjectPlanned | ProjectStarted | ProjectPaused | ProjectCompleted | ProjectCanceled

  datatype Team = Team(org: Id, key: string, name: string, private: bool, defaultState: Id,
                       nextNumber: nat, revision: nat)

  datatype Member = Member(active: bool, revision: nat)

  datatype WorkflowState = WorkflowState(org: Id, team: Id, name: string, category: WorkflowCategory,
                                         position: int, archived: bool, revision: nat)

  datatype Status = Status(org: Id, name: string, category: StatusCategory, position: int,
                           isDefault: bool, archived: bool, revision: nat)

  /** `teams` is the project's rows of `project_teams`. */
  datatype Project = Project(org: Id, name: string, lead: Id, teams: set<Id>, status: Id,
                             completedAt: Option<int>, canceledAt: Option<int>, archived: bool, revision: nat)

  datatype Issue = Issue(org: Id, project: Id, team: Id, identifier: string, title: string, state: Id,
                         parent: Option<Id>, assignee: Option<Id>, archived: bool, revision: nat)

  /** A row of `issue_identifier_aliases`, keyed by organization and identifier. */
  datatype Alias = Alias(issue: Id, createdAt: int)

  datatype EntityKind =
    | TeamEntity | MemberEntity | StateEntity | StateCatalog | StatusEntity | StatusCatalog
    | ProjectEntity | IssueEntity

  datatype ActivityRow = ActivityRow(org: Id, project: Option<Id>, issue: Option<Id>, actor: Id,
                                     kind: EntityKind, entity: Id, revision: Option<nat>)

  datatype Item = Item(id: Id, revision: string, position: int)

  datatype Request =
    | PutTeam(org: Id, team: Id, key: string, name: string, private: bool,
              defaultState: Option<Id>, expected: Option<string>)
    | SetMember(org: Id, team: Id, subject: Id, active: bool)
    | PutState(org: Id, state: Id, team: Id, name: string, category: WorkflowCategory, position: int,
               expected: Option<string>)
    | ReorderStates(org: Id, team: Id, items: seq<Item>)
    | ArchiveState(org: Id, state: Id, revision: string, archived: bool)
    | DeleteState(org: Id, team: Id, state: Id, revision: string)
    | PutStatus(org: Id, status: Id, name: string, statusCategory: StatusCategory, position: int,
                expected: Option<string>)
    | ReorderStatuses(org: Id, items: seq<Item>)
    | ArchiveStatus(org: Id, status: Id, revision: string, archived: bool)
    | DeleteStatus(org: Id, status: Id, revision: string)
    | CreateProject(org: Id, project: Id, name: string, lead: Id, teamIds: seq<Id>, statusChoice: Option<Id>)
    | UpdateProject(org: Id, project: Id, revision: string, name: string, lead: Id, teamIds: seq<Id>, status: Id)
    | ArchiveProject(org: Id, project: Id, revision: string, archived: bool)
    | CreateIssue(org: Id, issue: Id, project: Id, team: Id, title: string, stateChoice: Option<Id>,
                  parent: Option<Id>)
    | UpdateIssue(org: Id, issue: Id, revision: string, title: string, state: Id, parent: Option<Id>)
    | MoveIssue(org: Id, issue: Id, revision: string, team: Id, state: Id)
    | ArchiveIssue(org: Id, issue: Id, revision: string, archived: bool)
    | SetAssignee(org: Id, issue: Id, revision: string, assignee: Option<Id>)

  datatype Operation =
    | OpPutTeam | OpSetMember | OpPutState | OpReorderStates | OpArchiveState | OpDeleteState
    | OpPutStatus | OpReorderStatuses | OpArchiveStatus | OpDeleteStatus
    | OpCreateProject | OpUpdateProject | OpArchiveProject
    | OpCreateIssue | OpUpdateIssue | OpMoveIssue | OpArchiveIssue | OpSetAssignee

  function OperationOf(request: Request): Operation {
    match request
    case PutTeam(_, _, _, _, _, _, _) => OpPutTeam
    case SetMember(_, _, _, _) => OpSetMember
    case PutState(_, _, _, _, _, _, _) => OpPutState
    case ReorderStates(_, _, _) => OpReorderStates
    case ArchiveState(_, _, _, _) => OpArchiveState
    case DeleteState(_, _, _, _) => OpDeleteState
    case PutStatus(_, _, _, _, _, _) => OpPutStatus
    case ReorderStatuses(_, _) => OpReorderStatuses
    case ArchiveStatus(_, _, _, _) => OpArchiveStatus
    case DeleteStatus(_, _, _) => OpDeleteStatus
    case CreateProject(_, _, _, _, _, _) => OpCreateProject
    case UpdateProject(_, _, _, _, _, _, _) => OpUpdateProject
    case ArchiveProject(_, _, _, _) => OpArchiveProject
    case CreateIssue(_, _, _, _, _, _, _) => OpCreateIssue
    case UpdateIssue(_, _, _, _, _, _) => OpUpdateIssue
    case MoveIssue(_, _, _, _, _) => OpMoveIssue
    case ArchiveIssue(_, _, _, _) => OpArchiveIssue
    case SetAssignee(_, _, _, _) => OpSetAssignee
  }

  /** What a command answers: the rows as they stand when its transaction commits. */
  datatype Reply =
    | TeamReply(id: Id, team: Team)
    | MemberReply(teamId: Id, subject: Id, active: bool, changed: bool, revision: nat)
    | StateReply(id: Id, state: WorkflowState)
    | StatesReply(states: seq<(Id, WorkflowState)>)
    | StatusReply(id: Id, status: Status)
    | StatusesReply(statuses: seq<(Id, Status)>)
    | DeletedReply(id: Id)
    | ProjectReply(id: Id, project: Project)
    | IssueReply(id: Id, issue: Issue, previous: set<string>)
    | AssigneeReply(id: Id, assignee: Option<Id>, revision: nat)

  /** The primary key of `project_commands`. */
  datatype CommandKey = CommandKey(caller: Id, actor: Id, operation: Operation, idempotencyKey: string)

  /** A row of `project_retention_receipts`, keyed by action. */
  datatype Retention = Retention(org: Id, subject: Id, delete: bool)

  datatype Receipt = Receipt(request: Request, reply: Reply)

  datatype Db = Db(
    teams: map<Id, Team>,
    members: map<(Id, Id), Member>,
    states: map<Id, WorkflowState>,
    workspaces: map<Id, Id>,
    statuses: map<Id, Status>,
    projects: map<Id, Project>,
    issues: map<Id, Issue>,
    aliases: map<(Id, string), Alias>,
    commands: map<CommandKey, Receipt>,
    retentions: map<Id, Retention>,
    activity: seq<ActivityRow>)

  const EmptyDb := Db(map[], map[], map[], map[], map[], map[], map[], map[], map[], map[], [])

  // ---- What holds in every reachable database

  ghost predicate TeamsOk(teams: map<Id, Team>) {
    && (forall t :: t in teams ==> ValidKey(teams[t].key) && teams[t].nextNumber > 0 && teams[t].revision > 0)
    && (forall t, u :: t in teams && u in teams && teams[t].org == teams[u].org && teams[t].key == teams[u].key
          ==> t == u)
  }

  ghost predicate StatesOk(teams: map<Id, Team>, states: map<Id, WorkflowState>) {
    forall s :: s in states ==>
      && states[s].team in teams && teams[states[s].team].org == states[s].org
      && states[s].revision > 0
  }

  /** A Team's default is its own unarchived `unstarted` state. */
  ghost predicate DefaultsOk(teams: map<Id, Team>, states: map<Id, WorkflowState>) {
    forall t :: t in teams ==>
      && teams[t].defaultState in states
      && var s := states[teams[t].defaultState];
         s.org == teams[t].org && s.team == t && s.category == Unstarted && !s.archived
  }

  /** An Organization with a status catalog has exactly one default status, unarchived and in category backlog. */
  ghost predicate StatusesOk(workspaces: map<Id, Id>, statuses: map<Id, Status>) {
    && (forall o :: o in workspaces ==>
          && workspaces[o] in statuses
          && var d := statuses[workspaces[o]];
             d.org == o && d.isDefault && !d.archived && d.category == ProjectBacklog)
    && (forall s :: s in statuses ==>
          && statuses[s].org in workspaces && statuses[s].revision > 0
          && (statuses[s].isDefault <==> workspaces[statuses[s].org] == s))
  }

  ghost predicate ProjectsOk(teams: map<Id, Team>, statuses: map<Id, Status>, projects: map<Id, Project>) {
    forall p :: p in projects ==> ProjectOk(teams, statuses, projects[p])
  }

  /** A Project's status is live and its own Organization's; its timestamps say which final category it is in. */
  ghost predicate ProjectOk(teams: map<Id, Team>, statuses: map<Id, Status>, p: Project) {
    && p.revision > 0
    && p.status in statuses && statuses[p.status].org == p.org && !statuses[p.status].archived
    && (p.completedAt.Some? <==> statuses[p.status].category == ProjectCompleted)
    && (p.canceledAt.Some? <==> statuses[p.status].category == ProjectCanceled)
    && p.lead in teams && teams[p.lead].org == p.org
    && p.teams != {}
    && (forall t :: t in p.teams ==> t in teams && teams[t].org == p.org)
  }

  ghost predicate IssuesOk(projects: map<Id, Project>, states: map<Id, WorkflowState>, issues: map<Id, Issue>) {
    forall i :: i in issues ==> IssueOk(projects, states, issues[i])
  }

  /** An Issue's Team is attached to its Project, and its workflow state is live and that Team's. */
  ghost predicate IssueOk(projects: map<Id, Project>, states: map<Id, WorkflowState>, i: Issue) {
    && i.revision > 0
    && i.project in projects && projects[i.project].org == i.org && i.team in projects[i.project].teams
    && i.state in states
    && var s := states[i.state];
       s.org == i.org && s.team == i.team && !s.archived
  }

  /** Every identifier in use is recorded, and recorded identifiers belong to Issues of the same Organization. */
  ghost predicate AliasesOk(issues: map<Id, Issue>, aliases: map<(Id, string), Alias>) {
    && (forall i :: i in issues ==>
          && (issues[i].org, issues[i].identifier) in aliases
          && aliases[(issues[i].org, issues[i].identifier)].issue == i)
    && (forall a :: a in aliases ==> aliases[a].issue in issues && issues[aliases[a].issue].org == a.0)
  }

  function LinksOf(issues: map<Id, Issue>): Parents.Links {
    map i | i in issues && issues[i].parent.Some? :: issues[i].parent.value
  }

  /** Parents are Issues of the same Organization; that they form a forest is another matter. */
  ghost predicate ParentsOk(issues: map<Id, Issue>) {
    forall i {:trigger issues[i].parent} :: i in issues && issues[i].parent.Some? ==>
      issues[i].parent.value in issues && issues[issues[i].parent.value].org == issues[i].org
  }

  /** Status-catalog commands that answered once have an initialized catalog to answer from. */
  ghost predicate CommandsOk(workspaces: map<Id, Id>, commands: map<CommandKey, Receipt>) {
    forall k :: k in commands ==>
      && k.operation == OperationOf(commands[k].request)
      && (commands[k].request.ReorderStatuses? || commands[k].request.DeleteStatus? ==>
            commands[k].request.org in workspaces)
  }

  // ---- The activity stream as a history of revisions

  /** The revisions that the stream records for one entity, in commit order. */
  ghost function Revisions(activity: seq<ActivityRow>, kind: EntityKind, entity: Id): seq<nat> {
    if activity == [] then []
    else
      var last := activity[|activity| - 1];
      var before := Revisions(activity[..|activity| - 1], kind, entity);
      if last.kind == kind && last.entity == entity && last.revision.Some? then before + [last.revision.value]
      else before
  }

  function UpTo(n: nat): seq<nat> {
    if n == 0 then [] else UpTo(n - 1) + [n]
  }

  lemma {:induction false} UpToIs(n: nat)
    ensures |UpTo(n)| == n && forall k :: 0 <= k < n ==> UpTo(n)[k] == k + 1
  {
    if n > 0 {
      UpToIs(n - 1);
    }
  }

  function TeamRevision(db: Db, t: Id): nat {
    if t in db.teams then db.teams[t].revision else 0
  }

  function ProjectRevision(db: Db, p: Id): nat {
    if p in db.projects then db.projects[p].revision else 0
  }

  function IssueRevision(db: Db, i: Id): nat {
    if i in db.issues then db.issues[i].revision else 0
  }

  /** Ascending revisions between 1 and `n`. */
  predicate Climbs(s: seq<nat>, n: nat) {
    && (forall k :: 0 <= k < |s| ==> 0 < s[k] <= n)
    && (forall j, k :: 0 <= j < k < |s| ==> s[j] < s[k])
  }

  /**
   Each Team and Project has one activity record per revision, numbered 1, 2, 3, ...; the
   records of an Issue ascend too, but retention raises its revision without a record.
   */
  ghost predicate HistoryOk(db: Db) {
    && (forall t :: Revisions(db.activity, TeamEntity, t) == UpTo(TeamRevision(db, t)))
    && (forall p :: Revisions(db.activity, ProjectEntity, p) == UpTo(ProjectRevision(db, p)))
    && (forall i :: Climbs(Revisions(db.activity, IssueEntity, i), IssueRevision(db, i)))
  }

  /** What holds of the tables that commands change. */
  ghost predicate Structural(db: Db) {
    && TeamsOk(db.teams)
    && StatesOk(db.teams, db.states)
    && DefaultsOk(db.teams, db.states)
    && StatusesOk(db.workspaces, db.statuses)
    && ProjectsOk(db.teams, db.statuses, db.projects)
    && IssuesOk(db.projects, db.states, db.issues)
    && AliasesOk(db.issues, db.aliases)
    && ParentsOk(db.issues)
  }

  /** Receipts and activity are written together, so there are as many of one as of the other. */
  ghost predicate Invariant(db: Db) {
    && Structural(db)
    && CommandsOk(db.workspaces, db.commands)
    && HistoryOk(db)
    && |db.activity| == |db.commands|
  }
}
