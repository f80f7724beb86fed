/** Optimistic concurrency over whole runs: no update is lost, except across a deletion. */
module History {
  import opened Prelude
  import opened Text
  import opened Tables
  import opened Reorder
  import opened Commands
  import opened Invariants
  import opened Retentions
  import opened Runs

  /** The revision of an entity that carries one; 0 while it does not exist. */
  function RevisionOf(db: Db, kind: EntityKind, e: Id): nat {
    match kind
    case TeamEntity => TeamRevision(db, e)
    case ProjectEntity => ProjectRevision(db, e)
    case IssueEntity => IssueRevision(db, e)
    case StateEntity => if e in db.states then db.states[e].revision else 0
    case StatusEntity => if e in db.statuses then db.statuses[e].revision else 0
    case _ => 0
  }

  predicate Lists(items: seq<Item>, e: Id, text: string) {
    exists it :: it in items && it.id == e && it.revision == text
  }

  /** The request names this revision as the one it believes the entity to be at. */
  predicate Expects(r: Request, kind: EntityKind, e: Id, text: string) {
    match r
    case PutTeam(_, team, _, _, _, _, expected) => kind == TeamEntity && e == team && expected == Some(text)
    case PutState(_, state, _, _, _, _, expected) => kind == StateEntity && e == state && expected == Some(text)
    case ReorderStates(_, _, items) => kind == StateEntity && Lists(items, e, text)
    case ArchiveState(_, state, revision, _) => kind == StateEntity && e == state && revision == text
    case DeleteState(_, _, state, revision) => kind == StateEntity && e == state && revision == text
    case PutStatus(_, status, _, _, _, expected) => kind == StatusEntity && e == status && expected == Some(text)
    case ReorderStatuses(_, items) => kind == StatusEntity && Lists(items, e, text)
    case ArchiveStatus(_, status, revision, _) => kind == StatusEntity && e == status && revision == text
    case DeleteStatus(_, status, revision) => kind == StatusEntity && e == status && revision == text
    case UpdateProject(_, project, revision, _, _, _, _) => kind == ProjectEntity && e == project && revision == text
    case ArchiveProject(_, project, revision, _) => kind == ProjectEntity && e == project && revision == text
    case UpdateIssue(_, issue, revision, _, _, _) => kind == IssueEntity && e == issue && revision == text
    case MoveIssue(_, issue, revision, _, _) => kind == IssueEntity && e == issue && revision == text
    case ArchiveIssue(_, issue, revision, _) => kind == IssueEntity && e == issue && revision == text
    case SetAssignee(_, issue, revision, _) => kind == IssueEntity && e == issue && revision == text
    case _ => false
  }

  predicate Deletes(r: Request, kind: EntityKind, e: Id) {
    (r.DeleteState? && kind == StateEntity && e == r.state)
        || (r.DeleteStatus? && kind == StatusEntity && e == r.status)
  }

  predicate Numbered(kind: EntityKind) {
    kind.TeamEntity? || kind.ProjectEntity? || kind.IssueEntity? || kind.StateEntity? || kind.StatusEntity?
  }

  // ---- What a step creates or changes

  /** The request, when it takes effect, creates or changes this entity, and does so once. */
  predicate Touches(r: Request, ids: FreshIds, kind: EntityKind, e: Id) {
    match r
    case PutTeam(_, team, _, _, _, _, expected) =>
      (kind == TeamEntity && e == team) || (kind == StateEntity && expected.None? && e in ids[6..])
    case SetMember(_, _, _, _) => false
    case PutState(_, state, _, _, _, _, _) => kind == StateEntity && e == state
    case ReorderStates(_, _, items) => kind == StateEntity && e in Named(items)
    case ArchiveState(_, state, _, _) => kind == StateEntity && e == state
    case DeleteState(_, _, _, _) => false
    case PutStatus(_, status, _, _, _, _) => kind == StatusEntity && e == status
    case ReorderStatuses(_, items) => kind == StatusEntity && e in Named(items)
    case ArchiveStatus(_, status, _, _) => kind == StatusEntity && e == status
    case DeleteStatus(_, _, _) => false
    case CreateProject(_, project, _, _, _, _) => kind == ProjectEntity && e == project
    case UpdateProject(_, project, _, _, _, _, _) => kind == ProjectEntity && e == project
    case ArchiveProject(_, project, _, _) => kind == ProjectEntity && e == project
    case CreateIssue(_, issue, _, _, _, _, _) => kind == IssueEntity && e == issue
    case UpdateIssue(_, issue, _, _, _, _) => kind == IssueEntity && e == issue
    case MoveIssue(_, issue, _, _, _) => kind == IssueEntity && e == issue
    case ArchiveIssue(_, issue, _, _) => kind == IssueEntity && e == issue
    case SetAssignee(_, issue, _, _) => kind == IssueEntity && e == issue
  }

  /** The first use of an Organization's status catalog creates this status. */
  predicate Opens(db: Db, org: Id, ids: FreshIds, kind: EntityKind, e: Id) {
    kind == StatusEntity && org !in db.workspaces && e in ids[..6]
  }

  function One(condition: bool): nat {
    if condition then 1 else 0
  }

  /** How often an effective step creates or changes the entity: a catalog may be created and used in one. */
  function Mutations(db: Db, step: Step, kind: EntityKind, e: Id): nat {
    match step
    case Execute(c, _, ids, _) =>
      One((CatalogFirst(c.request) || NeedsCatalog(c.request)) && Opens(db, c.request.org, ids, kind, e))
      + One(Touches(c.request, ids, kind, e))
    case Initialize(org, ids) => One(Opens(db, org, ids, kind, e))
    case Retain(_, r) => One(Clears(db, r, kind, e))
  }

  predicate Clears(db: Db, r: Retention, kind: EntityKind, e: Id) {
    kind == IssueEntity && e in db.issues && Assigned(db.issues[e], r.org, r.subject)
  }

  // ---- Compare and set, command by command

  /** A command raises the revision of what it touches by one, from the one it expects, and of nothing else. */
  ghost predicate Careful(db: Db, db': Db, r: Request, ids: FreshIds, kind: EntityKind, e: Id, text: string) {
    && RevisionOf(db', kind, e)
       == (if Deletes(r, kind, e) then 0 else RevisionOf(db, kind, e) + One(Touches(r, ids, kind, e)))
    && (Expects(r, kind, e, text) ==>
          ParseRevision(text) == Some(RevisionOf(db, kind, e)) && (Touches(r, ids, kind, e) || Deletes(r, kind, e)))
  }

  lemma NewStates(states: map<Id, WorkflowState>, org: Id, team: Id, ids: FreshIds, e: Id)
    requires InsertStates(states, org, team, ids, 5).Some?
    ensures var m := InsertStates(states, org, team, ids, 5).value;
            (if e in m then m[e].revision else 0)
            == (if e in states then states[e].revision else 0) + One(e in ids[6..])
  {
    InsertStatesFacts(states, org, team, ids, 5);
    assert ids[6..][..5] == ids[6..];
    if e in ids[6..] {
      var k :| 0 <= k < 5 && ids[6..][k] == e;
    }
  }

  lemma PutTeamCareful(db: Db, actor: Id, r: Request, ids: FreshIds, kind: EntityKind, e: Id, text: string)
    requires r.PutTeam? && PutTeamBody(db, actor, r, ids).Ok? && Numbered(kind)
    ensures Careful(db, PutTeamBody(db, actor, r, ids).value.db, r, ids, kind, e, text)
  {
    PutTeamShape(db, actor, r, ids);
    if r.expected.None? {
      NewStates(db.states, r.org, r.team, ids, e);
    }
  }

  lemma PutStateCareful(db: Db, actor: Id, r: Request, ids: FreshIds, kind: EntityKind, e: Id, text: string)
    requires r.PutState? && PutStateBody(db, actor, r).Ok? && Numbered(kind)
    ensures Careful(db, PutStateBody(db, actor, r).value.db, r, ids, kind, e, text)
  {
  }

  lemma ArchiveStateCareful(db: Db, actor: Id, r: Request, ids: FreshIds, kind: EntityKind, e: Id, text: string)
    requires r.ArchiveState? && ArchiveStateBody(db, actor, r).Ok? && Numbered(kind)
    ensures Careful(db, ArchiveStateBody(db, actor, r).value.db, r, ids, kind, e, text)
  {
  }

  lemma DeleteStateCareful(db: Db, actor: Id, r: Request, ids: FreshIds, kind: EntityKind, e: Id, text: string)
    requires r.DeleteState? && DeleteStateBody(db, actor, r).Ok? && Numbered(kind)
    ensures Careful(db, DeleteStateBody(db, actor, r).value.db, r, ids, kind, e, text)
  {
  }

  lemma PutStatusCareful(db: Db, actor: Id, r: Request, ids: FreshIds, kind: EntityKind, e: Id, text: string)
    requires r.PutStatus? && PutStatusBody(db, actor, r).Ok? && Numbered(kind)
    ensures Careful(db, PutStatusBody(db, actor, r).value.db, r, ids, kind, e, text)
  {
  }

  lemma ArchiveStatusCareful(db: Db, actor: Id, r: Request, ids: FreshIds, kind: EntityKind, e: Id, text: string)
    requires r.ArchiveStatus? && ArchiveStatusBody(db, actor, r).Ok? && Numbered(kind)
    ensures Careful(db, ArchiveStatusBody(db, actor, r).value.db, r, ids, kind, e, text)
  {
  }

  lemma DeleteStatusCareful(db: Db, actor: Id, r: Request, ids: FreshIds, kind: EntityKind, e: Id, text: string)
    requires r.DeleteStatus? && DeleteStatusBody(db, actor, r).Ok? && Numbered(kind)
    ensures Careful(db, DeleteStatusBody(db, actor, r).value.db, r, ids, kind, e, text)
  {
  }

  /** An accepted reorder lists each entry with its current revision. */
  lemma ListedIsCurrent(active: map<Id, nat>, items: seq<Item>, e: Id, text: string)
    requires ItemsOk(items) && Problem(active, items).None? && Lists(items, e, text)
    ensures e in active && ParseRevision(text) == Some(active[e]) && Find(items, e).Some?
  {
    ReorderAcceptedExactly(active, items);
    var it :| it in items && it.id == e && it.revision == text;
    assert e in Named(items);
    FindDistinct(items, it);
  }

  lemma ReorderConcerns(r: Request, ids: FreshIds, kind: EntityKind, e: Id, text: string)
    requires r.ReorderStates? || r.ReorderStatuses?
    ensures var own := kind == if r.ReorderStates? then StateEntity else StatusEntity;
            && (Touches(r, ids, kind, e) <==> own && e in Named(r.items))
            && (Expects(r, kind, e, text) <==> own && Lists(r.items, e, text))
            && !Deletes(r, kind, e)
  {
  }

  lemma ReorderStatesWrites(db: Db, actor: Id, r: Request)
    requires r.ReorderStates? && Shaped(r) && ReorderStatesBody(db, actor, r).Ok?
    ensures ReorderStatesBody(db, actor, r).value.db == db.(states := Reordered(db.states, r.items, MovedState))
    ensures Problem(ActiveStates(db, r.org, r.team), r.items).None?
    ensures forall it :: it in r.items ==> it.id in db.states
  {
    NamedRowsExist(ActiveStates(db, r.org, r.team), r.items);
  }

  lemma StatesMoveByOne(states: map<Id, WorkflowState>, items: seq<Item>, e: Id)
    requires ItemsOk(items) && forall it :: it in items ==> it.id in states
    ensures Reordered(states, items, MovedState).Keys == states.Keys && (e in Named(items) ==> e in states)
    ensures e in states ==>
            Reordered(states, items, MovedState)[e].revision == states[e].revision + One(e in Named(items))
  {
    MovesNamed(states, items, MovedState);
  }

  lemma StatesListed(db: Db, r: Request, e: Id, text: string)
    requires r.ReorderStates? && Shaped(r) && Problem(ActiveStates(db, r.org, r.team), r.items).None?
             && Lists(r.items, e, text)
    ensures e in db.states && ParseRevision(text) == Some(db.states[e].revision) && e in Named(r.items)
  {
    ListedIsCurrent(ActiveStates(db, r.org, r.team), r.items, e, text);
    ReorderAcceptedExactly(ActiveStates(db, r.org, r.team), r.items);
  }

  lemma StatesMovedCareful(db: Db, db': Db, r: Request, ids: FreshIds, kind: EntityKind, e: Id, text: string)
    requires r.ReorderStates? && ItemsOk(r.items) && Numbered(kind)
    requires Problem(ActiveStates(db, r.org, r.team), r.items).None?
    requires forall it :: it in r.items ==> it.id in db.states
    requires db' == db.(states := Reordered(db.states, r.items, MovedState))
    ensures Careful(db, db', r, ids, kind, e, text)
  {
    hide Reordered, ActiveStates, Lists, ItemsOk, Problem, ParseRevision, Numbered;
    ReorderConcerns(r, ids, kind, e, text);
    hide Touches, Expects, Deletes;
    if kind == StateEntity {
      StatesMoveByOne(db.states, r.items, e);
      if Lists(r.items, e, text) {
        StatesListed(db, r, e, text);
      }
    }
  }

  lemma ReorderStatesCareful(db: Db, actor: Id, r: Request, ids: FreshIds, kind: EntityKind, e: Id, text: string)
    requires r.ReorderStates? && Shaped(r) && ReorderStatesBody(db, actor, r).Ok? && Numbered(kind)
    ensures Careful(db, ReorderStatesBody(db, actor, r).value.db, r, ids, kind, e, text)
  {
    hide Careful, ReorderStatesBody;
    ReorderStatesWrites(db, actor, r);
    StatesMovedCareful(db, ReorderStatesBody(db, actor, r).value.db, r, ids, kind, e, text);
  }

  lemma ReorderStatusesWrites(db: Db, actor: Id, r: Request)
    requires r.ReorderStatuses? && Shaped(r) && ReorderStatusesBody(db, actor, r).Ok?
    ensures ReorderStatusesBody(db, actor, r).value.db == db.(statuses := Reordered(db.statuses, r.items, MovedStatus))
    ensures Problem(ActiveStatuses(db, r.org), r.items).None?
    ensures forall it :: it in r.items ==> it.id in db.statuses
  {
    NamedRowsExist(ActiveStatuses(db, r.org), r.items);
  }

  lemma StatusesMoveByOne(statuses: map<Id, Status>, items: seq<Item>, e: Id)
    requires ItemsOk(items) && forall it :: it in items ==> it.id in statuses
    ensures Reordered(statuses, items, MovedStatus).Keys == statuses.Keys && (e in Named(items) ==> e in statuses)
    ensures e in statuses ==>
            Reordered(statuses, items, MovedStatus)[e].revision == statuses[e].revision + One(e in Named(items))
  {
    MovesNamed(statuses, items, MovedStatus);
  }

  lemma StatusesListed(db: Db, r: Request, e: Id, text: string)
    requires r.ReorderStatuses? && Shaped(r) && Problem(ActiveStatuses(db, r.org), r.items).None?
             && Lists(r.items, e, text)
    ensures e in db.statuses && ParseRevision(text) == Some(db.statuses[e].revision) && e in Named(r.items)
  {
    ListedIsCurrent(ActiveStatuses(db, r.org), r.items, e, text);
    ReorderAcceptedExactly(ActiveStatuses(db, r.org), r.items);
  }

  lemma StatusesMovedCareful(db: Db, db': Db, r: Request, ids: FreshIds, kind: EntityKind, e: Id, text: string)
    requires r.ReorderStatuses? && ItemsOk(r.items) && Numbered(kind)
    requires Problem(ActiveStatuses(db, r.org), r.items).None? && forall it :: it in r.items ==> it.id in db.statuses
    requires db' == db.(statuses := Reordered(db.statuses, r.items, MovedStatus))
    ensures Careful(db, db', r, ids, kind, e, text)
  {
    hide Reordered, ActiveStatuses, Lists, ItemsOk, Problem, ParseRevision, Numbered;
    ReorderConcerns(r, ids, kind, e, text);
    hide Touches, Expects, Deletes;
    if kind == StatusEntity {
      StatusesMoveByOne(db.statuses, r.items, e);
      if Lists(r.items, e, text) {
        StatusesListed(db, r, e, text);
      }
    }
  }

  lemma ReorderStatusesCareful(db: Db, actor: Id, r: Request, ids: FreshIds, kind: EntityKind, e: Id, text: string)
    requires r.ReorderStatuses? && Shaped(r) && ReorderStatusesBody(db, actor, r).Ok? && Numbered(kind)
    ensures Careful(db, ReorderStatusesBody(db, actor, r).value.db, r, ids, kind, e, text)
  {
    hide Careful, ReorderStatusesBody;
    ReorderStatusesWrites(db, actor, r);
    StatusesMovedCareful(db, ReorderStatusesBody(db, actor, r).value.db, r, ids, kind, e, text);
  }

  lemma CreateProjectCareful(db: Db, actor: Id, now: int, r: Request, ids: FreshIds, kind: EntityKind, e: Id,
                             text: string)
    requires r.CreateProject? && r.org in db.workspaces && CreateProjectBody(db, actor, now, r).Ok? && Numbered(kind)
    ensures Careful(db, CreateProjectBody(db, actor, now, r).value.db, r, ids, kind, e, text)
  {
  }

  lemma UpdateProjectCareful(db: Db, actor: Id, now: int, r: Request, ids: FreshIds, kind: EntityKind, e: Id,
                             text: string)
    requires r.UpdateProject? && r.org in db.workspaces && UpdateProjectBody(db, actor, now, r).Ok? && Numbered(kind)
    ensures Careful(db, UpdateProjectBody(db, actor, now, r).value.db, r, ids, kind, e, text)
  {
  }

  lemma ArchiveProjectCareful(db: Db, actor: Id, r: Request, ids: FreshIds, kind: EntityKind, e: Id, text: string)
    requires r.ArchiveProject? && ArchiveProjectBody(db, actor, r).Ok? && Numbered(kind)
    ensures Careful(db, ArchiveProjectBody(db, actor, r).value.db, r, ids, kind, e, text)
  {
  }

  lemma CreateIssueCareful(db: Db, actor: Id, now: int, r: Request, ids: FreshIds, kind: EntityKind, e: Id,
                           text: string)
    requires r.CreateIssue? && CreateIssueBody(db, actor, now, r).Ok? && Numbered(kind)
    ensures Careful(db, CreateIssueBody(db, actor, now, r).value.db, r, ids, kind, e, text)
  {
  }

  lemma UpdateIssueCareful(db: Db, actor: Id, r: Request, cap: Captured, ids: FreshIds, kind: EntityKind, e: Id,
                           text: string)
    requires r.UpdateIssue? && UpdateIssueBody(db, actor, r, cap).Ok? && Numbered(kind)
    ensures Careful(db, UpdateIssueBody(db, actor, r, cap).value.db, r, ids, kind, e, text)
  {
  }

  lemma MoveIssueCareful(db: Db, actor: Id, now: int, r: Request, cap: Captured, ids: FreshIds, kind: EntityKind,
                         e: Id, text: string)
    requires r.MoveIssue? && MoveIssueBody(db, actor, now, r, cap).Ok? && Numbered(kind)
    ensures Careful(db, MoveIssueBody(db, actor, now, r, cap).value.db, r, ids, kind, e, text)
  {
  }

  lemma ArchiveIssueCareful(db: Db, actor: Id, r: Request, ids: FreshIds, kind: EntityKind, e: Id, text: string)
    requires r.ArchiveIssue? && ArchiveIssueBody(db, actor, r).Ok? && Numbered(kind)
    ensures Careful(db, ArchiveIssueBody(db, actor, r).value.db, r, ids, kind, e, text)
  {
  }

  lemma SetAssigneeCareful(db: Db, actor: Id, r: Request, ids: FreshIds, kind: EntityKind, e: Id, text: string)
    requires r.SetAssignee? && SetAssigneeBody(db, actor, r).Ok? && Numbered(kind)
    ensures Careful(db, SetAssigneeBody(db, actor, r).value.db, r, ids, kind, e, text)
  {
  }

  lemma SetMemberCareful(db: Db, actor: Id, r: Request, ids: FreshIds, kind: EntityKind, e: Id, text: string)
    requires r.SetMember? && SetMemberBody(db, actor, r).Ok? && Numbered(kind)
    ensures Careful(db, SetMemberBody(db, actor, r).value.db, r, ids, kind, e, text)
  {
  }

  lemma BodyCareful(db: Db, actor: Id, now: int, ids: FreshIds, r: Request, cap: Captured, kind: EntityKind, e: Id,
                    text: string)
    requires Shaped(r) && (NeedsCatalog(r) ==> r.org in db.workspaces)
    requires Body(db, actor, now, ids, r, cap).Ok? && Numbered(kind)
    ensures Careful(db, Body(db, actor, now, ids, r, cap).value.db, r, ids, kind, e, text)
  {
    hide Careful;
    hide PutTeamBody, SetMemberBody, PutStateBody, ReorderStatesBody, ArchiveStateBody, DeleteStateBody;
    hide PutStatusBody, ReorderStatusesBody, ArchiveStatusBody, DeleteStatusBody;
    hide CreateProjectBody, UpdateProjectBody, ArchiveProjectBody;
    hide CreateIssueBody, UpdateIssueBody, MoveIssueBody, ArchiveIssueBody, SetAssigneeBody;
    match r
    case PutTeam(_, _, _, _, _, _, _) => PutTeamCareful(db, actor, r, ids, kind, e, text);
    case SetMember(_, _, _, _) => SetMemberCareful(db, actor, r, ids, kind, e, text);
    case PutState(_, _, _, _, _, _, _) => PutStateCareful(db, actor, r, ids, kind, e, text);
    case ReorderStates(_, _, _) => ReorderStatesCareful(db, actor, r, ids, kind, e, text);
    case ArchiveState(_, _, _, _) => ArchiveStateCareful(db, actor, r, ids, kind, e, text);
    case DeleteState(_, _, _, _) => DeleteStateCareful(db, actor, r, ids, kind, e, text);
    case PutStatus(_, _, _, _, _, _) => PutStatusCareful(db, actor, r, ids, kind, e, text);
    case ReorderStatuses(_, _) => ReorderStatusesCareful(db, actor, r, ids, kind, e, text);
    case ArchiveStatus(_, _, _, _) => ArchiveStatusCareful(db, actor, r, ids, kind, e, text);
    case DeleteStatus(_, _, _) => DeleteStatusCareful(db, actor, r, ids, kind, e, text);
    case CreateProject(_, _, _, _, _, _) => CreateProjectCareful(db, actor, now, r, ids, kind, e, text);
    case UpdateProject(_, _, _, _, _, _, _) => UpdateProjectCareful(db, actor, now, r, ids, kind, e, text);
    case ArchiveProject(_, _, _, _) => ArchiveProjectCareful(db, actor, r, ids, kind, e, text);
    case CreateIssue(_, _, _, _, _, _, _) => CreateIssueCareful(db, actor, now, r, ids, kind, e, text);
    case UpdateIssue(_, _, _, _, _, _) => UpdateIssueCareful(db, actor, r, cap, ids, kind, e, text);
    case MoveIssue(_, _, _, _, _) => MoveIssueCareful(db, actor, now, r, cap, ids, kind, e, text);
    case ArchiveIssue(_, _, _, _) => ArchiveIssueCareful(db, actor, r, ids, kind, e, text);
    case SetAssignee(_, _, _, _) => SetAssigneeCareful(db, actor, r, ids, kind, e, text);
  }

  lemma CatalogRevisions(db: Db, org: Id, ids: FreshIds, kind: EntityKind, e: Id)
    requires EnsureCatalog(db, org, ids).Ok?
    ensures RevisionOf(EnsureCatalog(db, org, ids).value, kind, e)
         == RevisionOf(db, kind, e) + One(Opens(db, org, ids, kind, e))
  {
    if org !in db.workspaces {
      InsertStatusesFacts(db.statuses, org, ids, 6);
      if e in ids[..6] {
        var k :| 0 <= k < 6 && ids[..6][k] == e;
        assert ids[k] == e;
      }
    }
  }

  /** As `Careful`, for a transaction that may first create the status catalog. */
  ghost predicate Exact(db: Db, db': Db, r: Request, ids: FreshIds, kind: EntityKind, e: Id, text: string) {
    var base := RevisionOf(db, kind, e)
                  + One((CatalogFirst(r) || NeedsCatalog(r)) && Opens(db, r.org, ids, kind, e));
    && RevisionOf(db', kind, e) == (if Deletes(r, kind, e) then 0 else base + One(Touches(r, ids, kind, e)))
    && (Expects(r, kind, e, text) ==>
          ParseRevision(text) == Some(base) && (Touches(r, ids, kind, e) || Deletes(r, kind, e)))
  }

  lemma CommittedCareful(db: Db, change: Change, c: Command, ids: FreshIds, kind: EntityKind, e: Id, text: string)
    requires Careful(db, change.db, c.request, ids, kind, e, text)
    ensures Careful(db, Committed(change, c), c.request, ids, kind, e, text)
  {
    hide Touches, Expects, Deletes, ParseRevision;
  }

  lemma PlainBody(db: Db, db': Db, r: Request, ids: FreshIds, kind: EntityKind, e: Id, text: string)
    requires !CatalogFirst(r) && !NeedsCatalog(r) && Careful(db, db', r, ids, kind, e, text)
    ensures Exact(db, db', r, ids, kind, e, text)
  {
    hide RevisionOf, Touches, Expects, Deletes, ParseRevision;
  }

  lemma PlainExact(db: Db, c: Command, now: int, ids: FreshIds, cap: Captured, kind: EntityKind, e: Id, text: string)
    requires Shaped(c.request) && Numbered(kind) && !CatalogFirst(c.request) && !NeedsCatalog(c.request)
    requires KeyOf(c) !in db.commands && Transact(db, c, now, ids, cap).result.Ok?
    ensures Exact(db, Transact(db, c, now, ids, cap).db, c.request, ids, kind, e, text)
  {
    hide Body, EnsureCatalog, Careful, Exact, Numbered, Committed, Shaped;
    BodyCareful(db, c.actor, now, ids, c.request, cap, kind, e, text);
    CommittedCareful(db, Body(db, c.actor, now, ids, c.request, cap).value, c, ids, kind, e, text);
    PlainBody(db, Transact(db, c, now, ids, cap).db, c.request, ids, kind, e, text);
  }

  lemma CatalogThenBody(db: Db, ready: Db, db': Db, r: Request, ids: FreshIds, kind: EntityKind, e: Id, text: string)
    requires CatalogFirst(r) || NeedsCatalog(r)
    requires RevisionOf(ready, kind, e) == RevisionOf(db, kind, e) + One(Opens(db, r.org, ids, kind, e))
    requires Careful(ready, db', r, ids, kind, e, text)
    ensures Exact(db, db', r, ids, kind, e, text)
  {
    hide RevisionOf, Touches, Expects, Deletes, ParseRevision, Opens;
  }

  lemma CatalogExact(db: Db, c: Command, now: int, ids: FreshIds, cap: Captured, kind: EntityKind, e: Id, text: string)
    requires Shaped(c.request) && Numbered(kind) && (CatalogFirst(c.request) || NeedsCatalog(c.request))
    requires KeyOf(c) !in db.commands && Transact(db, c, now, ids, cap).result.Ok?
    ensures Exact(db, Transact(db, c, now, ids, cap).db, c.request, ids, kind, e, text)
  {
    hide Body, EnsureCatalog, Careful, Exact, Opens, Numbered, Committed, Shaped;
    CatalogRevisions(db, c.request.org, ids, kind, e);
    EnsureCatalogShape(db, c.request.org, ids);
    var ready := EnsureCatalog(db, c.request.org, ids).value;
    BodyCareful(ready, c.actor, now, ids, c.request, cap, kind, e, text);
    CommittedCareful(ready, Body(ready, c.actor, now, ids, c.request, cap).value, c, ids, kind, e, text);
    CatalogThenBody(db, ready, Transact(db, c, now, ids, cap).db, c.request, ids, kind, e, text);
  }

  lemma TransactExact(db: Db, c: Command, now: int, ids: FreshIds, cap: Captured, kind: EntityKind, e: Id, text: string)
    requires Shaped(c.request) && Numbered(kind) && KeyOf(c) !in db.commands
    requires Transact(db, c, now, ids, cap).result.Ok?
    ensures Exact(db, Transact(db, c, now, ids, cap).db, c.request, ids, kind, e, text)
  {
    hide Transact, Exact;
    if CatalogFirst(c.request) || NeedsCatalog(c.request) {
      CatalogExact(db, c, now, ids, cap, kind, e, text);
    } else {
      PlainExact(db, c, now, ids, cap, kind, e, text);
    }
  }

  // ---- Steps of a run

  ghost predicate DeletesAt(steps: seq<Step>, n: nat, kind: EntityKind, e: Id)
    requires Legal(steps) && n < |steps|
  {
    EffectiveAt(steps, n) && steps[n].Execute? && Deletes(steps[n].c.request, kind, e)
  }

  lemma RetainExact(db: Db, action: Id, r: Retention, kind: EntityKind, e: Id)
    requires action !in db.retentions && Numbered(kind)
    ensures RevisionOf(Apply(db, action, r), kind, e) == RevisionOf(db, kind, e) + One(Clears(db, r, kind, e))
  {
  }

  lemma StepExact(db: Db, step: Step, kind: EntityKind, e: Id)
    requires Legal([step]) && Numbered(kind) && Effective(db, step)
    ensures RevisionOf(After(db, step), kind, e)
         == if step.Execute? && Deletes(step.c.request, kind, e) then 0
            else RevisionOf(db, kind, e) + Mutations(db, step, kind, e)
  {
    hide Transact, Apply, RevisionOf, Clears, Touches, Opens, Deletes, EnsureCatalog;
    assert step in [step];
    match step
    case Execute(c, now, ids, cap) => TransactExact(db, c, now, ids, cap, kind, e, "");
    case Initialize(org, ids) => CatalogRevisions(db, org, ids, kind, e);
    case Retain(action, r) => RetainExact(db, action, r, kind, e);
  }

  lemma StepExactAt(steps: seq<Step>, n: nat, kind: EntityKind, e: Id)
    requires Legal(steps) && n < |steps| && Numbered(kind)
    ensures RevisionOf(At(steps, n + 1), kind, e)
         == if !EffectiveAt(steps, n) then RevisionOf(At(steps, n), kind, e)
            else if DeletesAt(steps, n, kind, e) then 0
            else RevisionOf(At(steps, n), kind, e) + Mutations(At(steps, n), steps[n], kind, e)
  {
    hide Transact, After, Effective, RevisionOf, Mutations, Deletes;
    AtNext(steps, n);
    StepFactsAt(steps, n);
    if EffectiveAt(steps, n) {
      StepExact(At(steps, n), steps[n], kind, e);
    }
  }

  // ---- A revision is a number of mutations

  /** How often the first `n` steps created or changed the entity since it was last deleted, if ever. */
  ghost function MutationCount(steps: seq<Step>, n: nat, kind: EntityKind, e: Id): nat
    requires Legal(steps) && n <= |steps|
  {
    if n == 0 then 0
    else if !EffectiveAt(steps, n - 1) then MutationCount(steps, n - 1, kind, e)
    else if DeletesAt(steps, n - 1, kind, e) then 0
    else MutationCount(steps, n - 1, kind, e) + Mutations(At(steps, n - 1), steps[n - 1], kind, e)
  }

  predicate Present(db: Db, kind: EntityKind, e: Id) {
    match kind
    case TeamEntity => e in db.teams
    case ProjectEntity => e in db.projects
    case IssueEntity => e in db.issues
    case StateEntity => e in db.states
    case StatusEntity => e in db.statuses
    case _ => false
  }

  lemma CatalogAboveZero(db: Db, e: Id)
    requires Structural(db)
    ensures e in db.teams ==> db.teams[e].revision > 0
    ensures e in db.states ==> db.states[e].revision > 0
    ensures e in db.statuses ==> db.statuses[e].revision > 0
  {
    hide ProjectsOk, IssuesOk, AliasesOk, DefaultsOk, ParentsOk;
  }

  lemma WorkAboveZero(db: Db, e: Id)
    requires Structural(db)
    ensures e in db.projects ==> db.projects[e].revision > 0
    ensures e in db.issues ==> db.issues[e].revision > 0
  {
    hide TeamsOk, StatesOk, StatusesOk, AliasesOk, DefaultsOk, ParentsOk;
    if e in db.projects {
      assert ProjectOk(db.teams, db.statuses, db.projects[e]);
    }
    if e in db.issues {
      assert IssueOk(db.projects, db.states, db.issues[e]);
    }
  }

  lemma PresentAboveZero(steps: seq<Step>, n: nat, kind: EntityKind, e: Id)
    requires Legal(steps) && n <= |steps|
    ensures Present(At(steps, n), kind, e) <==> RevisionOf(At(steps, n), kind, e) > 0
  {
    ReachableInvariant(steps, n);
    hide Structural;
    CatalogAboveZero(At(steps, n), e);
    WorkAboveZero(At(steps, n), e);
  }

  /**
   Whatever a run did, the revision of a Team, Project, Issue, workflow state or project
   status is the number of its mutations that took effect since it was created, itself included.
   */
  lemma {:induction false} RevisionCountsMutations(steps: seq<Step>, n: nat, kind: EntityKind, e: Id)
    requires Legal(steps) && n <= |steps| && Numbered(kind)
    ensures RevisionOf(At(steps, n), kind, e) == MutationCount(steps, n, kind, e)
    ensures Present(At(steps, n), kind, e) <==> MutationCount(steps, n, kind, e) > 0
  {
    hide Transact, EffectiveAt, DeletesAt, Mutations, RevisionOf, Present, At;
    if n > 0 {
      RevisionCountsMutations(steps, n - 1, kind, e);
      StepExactAt(steps, n - 1, kind, e);
    } else {
      NothingPresent(steps, kind, e);
    }
    PresentAboveZero(steps, n, kind, e);
  }

  lemma NothingPresent(steps: seq<Step>, kind: EntityKind, e: Id)
    requires Legal(steps)
    ensures RevisionOf(At(steps, 0), kind, e) == 0
  {
  }

  /** Revisions never go back while the entity exists. */
  lemma {:induction false} RevisionsGrow(steps: seq<Step>, i: nat, j: nat, kind: EntityKind, e: Id)
    requires Legal(steps) && i <= j <= |steps| && Numbered(kind)
    requires forall n :: i <= n < j ==> !DeletesAt(steps, n, kind, e)
    ensures RevisionOf(At(steps, j), kind, e) >= RevisionOf(At(steps, i), kind, e)
    decreases j
  {
    hide Transact, EffectiveAt, DeletesAt, Mutations, RevisionOf;
    if i < j {
      RevisionsGrow(steps, i, j - 1, kind, e);
      StepExactAt(steps, j - 1, kind, e);
    }
  }

  // ---- No lost update

  /** The entity is not deleted by steps `i` to `j`. */
  ghost predicate Lives(steps: seq<Step>, i: nat, j: nat, kind: EntityKind, e: Id)
    requires Legal(steps) && i <= j <= |steps|
  {
    forall n :: i <= n < j ==> !DeletesAt(steps, n, kind, e)
  }

  lemma ExpectedRevision(db: Db, db': Db, r: Request, ids: FreshIds, kind: EntityKind, e: Id, text: string)
    requires Exact(db, db', r, ids, kind, e, text) && Expects(r, kind, e, text)
    ensures ParseRevision(text).Some? && ParseRevision(text).value >= RevisionOf(db, kind, e)
    ensures !Deletes(r, kind, e) ==> RevisionOf(db', kind, e) == ParseRevision(text).value + 1
  {
    hide RevisionOf, Touches, Deletes, Opens, Expects, ParseRevision;
  }

  lemma Expected(steps: seq<Step>, n: nat, kind: EntityKind, e: Id, text: string)
    requires Legal(steps) && n < |steps| && Numbered(kind) && EffectiveAt(steps, n)
    requires steps[n].Execute? && Expects(steps[n].c.request, kind, e, text)
    ensures ParseRevision(text).Some? && ParseRevision(text).value >= RevisionOf(At(steps, n), kind, e)
    ensures !DeletesAt(steps, n, kind, e) ==> RevisionOf(At(steps, n + 1), kind, e) == ParseRevision(text).value + 1
  {
    hide Transact, Exact, RevisionOf, Expects, Deletes, ParseRevision;
    AtNext(steps, n);
    var db, step := At(steps, n), steps[n];
    assert step in [step];
    TransactExact(db, step.c, step.now, step.ids, step.cap, kind, e, text);
    ExpectedRevision(db, At(steps, n + 1), step.c.request, step.ids, kind, e, text);
  }

  /**
   Two commands that expect the same revision of the same entity never both take effect,
   unless the entity is a workflow state or a project status and was deleted meanwhile.
   */
  lemma NoLostUpdate(steps: seq<Step>, i: nat, j: nat, kind: EntityKind, e: Id, text: string, again: string)
    requires Legal(steps) && i < j < |steps| && Numbered(kind)
    requires kind == StateEntity || kind == StatusEntity ==> Lives(steps, i, j, kind, e)
    requires steps[i].Execute? && Expects(steps[i].c.request, kind, e, text)
    requires steps[j].Execute? && Expects(steps[j].c.request, kind, e, again)
    requires ParseRevision(text) == ParseRevision(again)
    ensures !EffectiveAt(steps, i) || !EffectiveAt(steps, j)
  {
    hide Transact, RevisionOf, Expects, ParseRevision, EffectiveAt;
    if EffectiveAt(steps, i) && EffectiveAt(steps, j) {
      Expected(steps, i, kind, e, text);
      LivesOn(steps, i, j, kind, e);
      Expected(steps, j, kind, e, again);
    }
  }

  lemma LivesOn(steps: seq<Step>, i: nat, j: nat, kind: EntityKind, e: Id)
    requires Legal(steps) && i < j <= |steps| && Numbered(kind) && Lives(steps, i, j, kind, e)
    ensures RevisionOf(At(steps, j), kind, e) >= RevisionOf(At(steps, i + 1), kind, e)
    ensures !DeletesAt(steps, i, kind, e)
  {
    hide Transact, At, EffectiveAt, DeletesAt, RevisionOf;
    RevisionsGrow(steps, i + 1, j, kind, e);
  }

  // ---- Which revisions of an Issue the stream records

  /** The revisions that retention gave the Issue in the first `n` steps. */
  ghost function Unrecorded(steps: seq<Step>, n: nat, e: Id): set<nat>
    requires Legal(steps) && n <= |steps|
  {
    if n == 0 then {}
    else if EffectiveAt(steps, n - 1) && steps[n - 1].Retain?
            && Clears(At(steps, n - 1), steps[n - 1].retention, IssueEntity, e) then
      Unrecorded(steps, n - 1, e) + {IssueRevision(At(steps, n), e)}
    else Unrecorded(steps, n - 1, e)
  }

  /** The Issue is at the same revision with the same records, or at the next one with one record more. */
  ghost predicate Recorded(db: Db, db': Db, e: Id) {
    var before, after := Revisions(db.activity, IssueEntity, e), Revisions(db'.activity, IssueEntity, e);
    || (IssueRevision(db', e) == IssueRevision(db, e) && after == before)
    || (IssueRevision(db', e) == IssueRevision(db, e) + 1 && after == before + [IssueRevision(db', e)])
  }

  lemma CommitRecords(db: Db, change: Change, c: Command, e: Id)
    requires Advances(db, change)
    ensures Recorded(db, Committed(change, c), e)
  {
    RevisionsAppend(db.activity, change.row, IssueEntity, e);
    assert Moves(IssueRevision(db, e), IssueRevision(change.db, e),
                 change.row.kind == IssueEntity && change.row.entity == e, change.row.revision);
  }

  lemma PerformRecords(db: Db, c: Command, now: int, ids: FreshIds, cap: Captured, e: Id)
    requires Structural(db) && Shaped(c.request) && (CatalogFirst(c.request) ==> c.request.org in db.workspaces)
    requires Perform(db, c, now, ids, cap).Ok?
    ensures Recorded(db, Committed(Perform(db, c, now, ids, cap).value, c), e)
  {
    hide Structural, Advances, Body, Committed;
    if NeedsCatalog(c.request) {
      CatalogKeeps(db, c.request.org, ids);
      EnsureCatalogShape(db, c.request.org, ids);
      var ready := EnsureCatalog(db, c.request.org, ids).value;
      BodyKeeps(ready, c.actor, now, ids, c.request, cap);
      CommitRecords(ready, Perform(db, c, now, ids, cap).value, c, e);
    } else {
      BodyKeeps(db, c.actor, now, ids, c.request, cap);
      CommitRecords(db, Perform(db, c, now, ids, cap).value, c, e);
    }
  }

  lemma TransactRecords(db: Db, c: Command, now: int, ids: FreshIds, cap: Captured, e: Id)
    requires Invariant(db) && Shaped(c.request)
    ensures Recorded(db, Transact(db, c, now, ids, cap).db, e)
  {
    hide Perform, Structural, HistoryOk;
    if CatalogFirst(c.request) {
      if EnsureCatalog(db, c.request.org, ids).Ok? {
        var ready := EnsureCatalog(db, c.request.org, ids).value;
        InitializeKeeps(db, c.request.org, ids);
        EnsureCatalogShape(db, c.request.org, ids);
        if KeyOf(c) !in ready.commands && Perform(ready, c, now, ids, cap).Ok? {
          PerformRecords(ready, c, now, ids, cap, e);
        }
      }
    } else if KeyOf(c) !in db.commands && Perform(db, c, now, ids, cap).Ok? {
      PerformRecords(db, c, now, ids, cap, e);
    }
  }

  lemma RetainRecords(db: Db, action: Id, r: Retention, e: Id)
    ensures Revisions(Apply(db, action, r).activity, IssueEntity, e) == Revisions(db.activity, IssueEntity, e)
    ensures IssueRevision(Apply(db, action, r), e)
         == IssueRevision(db, e) + One(action !in db.retentions && Clears(db, r, IssueEntity, e))
    ensures action in db.retentions || !Clears(db, r, IssueEntity, e) ==> Recorded(db, Apply(db, action, r), e)
  {
    ApplyKeepsRecords(db, action, r, IssueEntity, e);
  }

  lemma StepRecords(db: Db, step: Step, e: Id)
    requires Invariant(db) && Legal([step]) && !step.Retain?
    ensures Recorded(db, After(db, step), e)
  {
    hide Transact, Invariant, Revisions;
    assert step in [step];
    match step
    case Execute(c, now, ids, cap) => TransactRecords(db, c, now, ids, cap, e);
    case Initialize(org, ids) =>
      if EnsureCatalog(db, org, ids).Ok? {
        EnsureCatalogShape(db, org, ids);
      }
  }

  /** What is recorded and what retention left out make up the revisions of the Issue. */
  ghost predicate Accounted(db: Db, e: Id, gaps: set<nat>) {
    var recorded := Revisions(db.activity, IssueEntity, e);
    && |recorded| + |gaps| == IssueRevision(db, e)
    && (forall v :: v in recorded || v in gaps ==> 0 < v <= IssueRevision(db, e))
    && (forall v :: 0 < v <= IssueRevision(db, e) ==> (v in recorded <==> v !in gaps))
  }

  lemma RecordedAccounts(db: Db, db': Db, e: Id, gaps: set<nat>)
    requires Accounted(db, e, gaps) && Recorded(db, db', e)
    ensures Accounted(db', e, gaps)
  {
    var recorded := Revisions(db.activity, IssueEntity, e);
    assert forall v :: v in recorded + [IssueRevision(db', e)] <==> v in recorded || v == IssueRevision(db', e);
  }

  lemma ClearAccounts(db: Db, db': Db, e: Id, gaps: set<nat>)
    requires Accounted(db, e, gaps) && IssueRevision(db', e) == IssueRevision(db, e) + 1
    requires Revisions(db'.activity, IssueEntity, e) == Revisions(db.activity, IssueEntity, e)
    ensures Accounted(db', e, gaps + {IssueRevision(db', e)})
  {
    assert IssueRevision(db', e) !in gaps;
  }

  lemma StepAccounts(steps: seq<Step>, n: nat, e: Id)
    requires Legal(steps) && n < |steps| && Accounted(At(steps, n), e, Unrecorded(steps, n, e))
    ensures Accounted(At(steps, n + 1), e, Unrecorded(steps, n + 1, e))
  {
    hide Transact, Accounted, Recorded, Revisions, Apply, Clears, IssueRevision;
    AtNext(steps, n);
    var db, db', step := At(steps, n), At(steps, n + 1), steps[n];
    var gaps := Unrecorded(steps, n, e);
    if !step.Retain? {
      ReachableInvariant(steps, n);
      StepRecords(db, step, e);
      RecordedAccounts(db, db', e, gaps);
    } else {
      RetainRecords(db, step.action, step.retention, e);
      if step.action !in db.retentions && Clears(db, step.retention, IssueEntity, e) {
        ClearAccounts(db, db', e, gaps);
      } else {
        RecordedAccounts(db, db', e, gaps);
      }
    }
  }

  /**
   The stream records exactly the revisions of an Issue that no retention gave it: their
   number is its revision minus the number of times retention ended its assignment.
   */
  lemma {:induction false} StreamMissesRetention(steps: seq<Step>, n: nat, e: Id)
    requires Legal(steps) && n <= |steps|
    ensures Accounted(At(steps, n), e, Unrecorded(steps, n, e))
  {
    hide Transact, Unrecorded;
    if n > 0 {
      StreamMissesRetention(steps, n - 1, e);
      StepAccounts(steps, n - 1, e);
    } else {
      NothingAccounted(steps, e);
    }
  }

  lemma NothingAccounted(steps: seq<Step>, e: Id)
    requires Legal(steps)
    ensures Accounted(At(steps, 0), e, Unrecorded(steps, 0, e))
  {
    assert At(steps, 0) == EmptyDb;
  }

  lemma {:induction false} ClimbsAtLeast(s: seq<nat>, n: nat, k: nat)
    requires Climbs(s, n) && k < |s|
    ensures s[k] >= k + 1
  {
    if k > 0 {
      ClimbsAtLeast(s, n, k - 1);
    }
  }

  lemma {:induction false} ClimbsAtMost(s: seq<nat>, n: nat, k: nat)
    requires Climbs(s, n) && k < |s|
    ensures s[k] + (|s| - 1 - k) <= n
    decreases |s| - k
  {
    if k + 1 < |s| {
      ClimbsAtMost(s, n, k + 1);
    }
  }

  /** An Issue that retention never touched has the records 1, 2, 3, ... up to its revision. */
  lemma StreamNumbersRevisions(steps: seq<Step>, n: nat, e: Id)
    requires Legal(steps) && n <= |steps| && Unrecorded(steps, n, e) == {}
    ensures var db := At(steps, n);
            var recorded := Revisions(db.activity, IssueEntity, e);
            |recorded| == IssueRevision(db, e) && forall k :: 0 <= k < |recorded| ==> recorded[k] == k + 1
  {
    hide Transact, Revisions, IssueRevision, Unrecorded;
    StreamMissesRetention(steps, n, e);
    ReachableInvariant(steps, n);
    var recorded := Revisions(At(steps, n).activity, IssueEntity, e);
    assert Climbs(recorded, IssueRevision(At(steps, n), e));
    forall k | 0 <= k < |recorded| ensures recorded[k] == k + 1 {
      ClimbsAtLeast(recorded, |recorded|, k);
      ClimbsAtMost(recorded, |recorded|, k);
    }
  }
}
