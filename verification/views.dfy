/**
 What the rows of a run hold, told from the requests alone: an Issue is what the requests that
 took effect last asked for, a Project's times are those of its last entry into their category.
 */
module Views {
  import opened Prelude
  import opened Text
  import opened Tables
  import opened Commands
  import opened Sorting
  import opened Reorder
  import opened Invariants
  import opened Retentions
  import opened Runs
  import opened Effects
  import Parents
  import Retries

  predicate IssueCommand(r: Request) {
    r.CreateIssue? || r.UpdateIssue? || r.MoveIssue? || r.ArchiveIssue? || r.SetAssignee?
  }

  predicate ProjectCommand(r: Request) {
    r.CreateProject? || r.UpdateProject? || r.ArchiveProject?
  }

  predicate StatusCommand(r: Request) {
    r.PutStatus? || r.ReorderStatuses? || r.ArchiveStatus? || r.DeleteStatus?
  }

  /** Commands write the tables they are about. */
  lemma OwnTablesOnly(db: Db, actor: Id, now: int, ids: FreshIds, r: Request, cap: Captured)
    requires Shaped(r) && (NeedsCatalog(r) || CatalogFirst(r) ==> r.org in db.workspaces)
    requires Body(db, actor, now, ids, r, cap).Ok?
    ensures var after := Body(db, actor, now, ids, r, cap).value.db;
            && (!IssueCommand(r) ==> after.issues == db.issues)
            && (!r.CreateIssue? && !r.MoveIssue? ==> after.aliases == db.aliases)
            && (!ProjectCommand(r) ==> after.projects == db.projects)
            && (!StatusCommand(r) ==> after.statuses == db.statuses)
  {
    hide PutTeamBody, SetMemberBody, PutStateBody, ReorderStatesBody, ArchiveStateBody, DeleteStateBody;
    hide PutStatusBody, ReorderStatusesBody, ArchiveStatusBody, DeleteStatusBody;
    hide CreateProjectBody, UpdateProjectBody, ArchiveProjectBody;
    hide CreateIssueBody, UpdateIssueBody, MoveIssueBody, ArchiveIssueBody, SetAssigneeBody;
  }

  lemma TransactFrame(db: Db, c: Command, now: int, ids: FreshIds, cap: Captured)
    requires Shaped(c.request) && KeyOf(c) !in db.commands && Transact(db, c, now, ids, cap).result.Ok?
    ensures var after := Transact(db, c, now, ids, cap).db;
            && (!IssueCommand(c.request) ==> after.issues == db.issues)
            && (!c.request.CreateIssue? && !c.request.MoveIssue? ==> after.aliases == db.aliases)
            && (!ProjectCommand(c.request) ==> after.projects == db.projects)
            && (!StatusCommand(c.request) && !NeedsCatalog(c.request) ==> after.statuses == db.statuses)
  {
    hide Body, EnsureCatalog;
    if CatalogFirst(c.request) || NeedsCatalog(c.request) {
      EnsureCatalogShape(db, c.request.org, ids);
      OwnTablesOnly(EnsureCatalog(db, c.request.org, ids).value, c.actor, now, ids, c.request, cap);
    } else {
      OwnTablesOnly(db, c.actor, now, ids, c.request, cap);
    }
  }

  // ---- Issues

  /** The columns of an Issue that requests decide. */
  datatype IssueView = IssueView(org: Id, project: Id, team: Id, title: string, state: Id, parent: Option<Id>,
                                 assignee: Option<Id>, archived: bool)

  function Seen(db: Db, i: Id): Option<IssueView> {
    if i !in db.issues then None
    else
      var row := db.issues[i];
      Some(IssueView(row.org, row.project, row.team, row.title, row.state, row.parent, row.assignee, row.archived))
  }

  /** The state that a Team starts an Issue in when the request chooses none. */
  function StartState(db: Db, team: Id, choice: Option<Id>): Id {
    if choice.Some? then choice.value else if team in db.teams then db.teams[team].defaultState else ""
  }

  /** What an effective step makes of the view of an Issue. */
  function Revised(db: Db, view: Option<IssueView>, step: Step, i: Id): Option<IssueView> {
    match step
    case Initialize(_, _) => view
    case Retain(_, r) =>
      if view.Some? && view.value.org == r.org && view.value.assignee == Some(r.subject) then
        Some(view.value.(assignee := None))
      else view
    case Execute(c, _, _, _) =>
      match c.request
      case CreateIssue(org, issue, project, team, title, choice, parent) =>
        if issue != i then view
        else Some(IssueView(org, project, team, title, StartState(db, team, choice), parent, None, false))
      case UpdateIssue(_, issue, _, title, state, parent) =>
        if issue != i || view.None? then view
        else Some(view.value.(title := title, state := state, parent := parent))
      case MoveIssue(_, issue, _, team, state) =>
        if issue != i || view.None? then view else Some(view.value.(team := team, state := state))
      case ArchiveIssue(_, issue, _, archived) =>
        if issue != i || view.None? then view else Some(view.value.(archived := archived))
      case SetAssignee(_, issue, _, assignee) =>
        if issue != i || view.None? then view else Some(view.value.(assignee := assignee))
      case _ => view
  }

  lemma CreateIssueRevises(db: Db, c: Command, now: int, ids: FreshIds, cap: Captured, i: Id)
    requires c.request.CreateIssue? && KeyOf(c) !in db.commands && Transact(db, c, now, ids, cap).result.Ok?
    ensures Seen(Transact(db, c, now, ids, cap).db, i) == Revised(db, Seen(db, i), Execute(c, now, ids, cap), i)
  {
    CreateIssueEffect(db, c, now, ids, cap);
    hide Transact, Previous, Decimal, ParseRevision, IdentifierShown;
  }

  lemma UpdateIssueRevises(db: Db, c: Command, now: int, ids: FreshIds, cap: Captured, i: Id)
    requires c.request.UpdateIssue? && KeyOf(c) !in db.commands && Transact(db, c, now, ids, cap).result.Ok?
    ensures Seen(Transact(db, c, now, ids, cap).db, i) == Revised(db, Seen(db, i), Execute(c, now, ids, cap), i)
  {
    UpdateIssueEffect(db, c, now, ids, cap);
    hide Transact, Previous, Decimal, ParseRevision, IdentifierShown;
  }

  lemma MoveIssueRevises(db: Db, c: Command, now: int, ids: FreshIds, cap: Captured, i: Id)
    requires c.request.MoveIssue? && KeyOf(c) !in db.commands && Transact(db, c, now, ids, cap).result.Ok?
    ensures Seen(Transact(db, c, now, ids, cap).db, i) == Revised(db, Seen(db, i), Execute(c, now, ids, cap), i)
  {
    MoveIssueEffect(db, c, now, ids, cap);
    hide Transact, Previous, Decimal, ParseRevision, IdentifierShown;
  }

  lemma ArchiveIssueRevises(db: Db, c: Command, now: int, ids: FreshIds, cap: Captured, i: Id)
    requires c.request.ArchiveIssue? && KeyOf(c) !in db.commands && Transact(db, c, now, ids, cap).result.Ok?
    ensures Seen(Transact(db, c, now, ids, cap).db, i) == Revised(db, Seen(db, i), Execute(c, now, ids, cap), i)
  {
    ArchiveIssueEffect(db, c, now, ids, cap);
    hide Transact, Previous, Decimal, ParseRevision, IdentifierShown;
  }

  lemma SetAssigneeRevises(db: Db, c: Command, now: int, ids: FreshIds, cap: Captured, i: Id)
    requires c.request.SetAssignee? && KeyOf(c) !in db.commands && Transact(db, c, now, ids, cap).result.Ok?
    ensures Seen(Transact(db, c, now, ids, cap).db, i) == Revised(db, Seen(db, i), Execute(c, now, ids, cap), i)
  {
    AssigneeEffect(db, c, now, ids, cap);
    hide Transact, Previous, Decimal, ParseRevision, IdentifierShown;
  }

  lemma CommandRevises(db: Db, c: Command, now: int, ids: FreshIds, cap: Captured, i: Id)
    requires Shaped(c.request) && KeyOf(c) !in db.commands && Transact(db, c, now, ids, cap).result.Ok?
    ensures Seen(Transact(db, c, now, ids, cap).db, i) == Revised(db, Seen(db, i), Execute(c, now, ids, cap), i)
  {
    hide Transact;
    if c.request.CreateIssue? {
      CreateIssueRevises(db, c, now, ids, cap, i);
    } else if c.request.UpdateIssue? {
      UpdateIssueRevises(db, c, now, ids, cap, i);
    } else if c.request.MoveIssue? {
      MoveIssueRevises(db, c, now, ids, cap, i);
    } else if c.request.ArchiveIssue? {
      ArchiveIssueRevises(db, c, now, ids, cap, i);
    } else if c.request.SetAssignee? {
      SetAssigneeRevises(db, c, now, ids, cap, i);
    } else {
      TransactFrame(db, c, now, ids, cap);
    }
  }

  lemma StepRevises(db: Db, step: Step, i: Id)
    requires Legal([step]) && Effective(db, step)
    ensures Seen(After(db, step), i) == Revised(db, Seen(db, i), step, i)
  {
    assert step in [step];
    hide Transact, EnsureCatalog;
    match step
    case Execute(c, now, ids, cap) => CommandRevises(db, c, now, ids, cap, i);
    case Initialize(org, ids) => EnsureCatalogShape(db, org, ids);
    case Retain(_, _) =>
  }

  /** What the effective ones among the first `n` steps last asked for. */
  ghost function Asked(steps: seq<Step>, n: nat, i: Id): Option<IssueView>
    requires Legal(steps) && n <= |steps|
  {
    if n == 0 then None
    else if EffectiveAt(steps, n - 1) then Revised(At(steps, n - 1), Asked(steps, n - 1, i), steps[n - 1], i)
    else Asked(steps, n - 1, i)
  }

  /**
   In every run an Issue is where, what and whose the requests that took effect last asked for,
   column by column; retention only takes the assignee away.
   */
  lemma {:induction false} IssuesAreAsAsked(steps: seq<Step>, n: nat, i: Id)
    requires Legal(steps) && n <= |steps|
    ensures Seen(At(steps, n), i) == Asked(steps, n, i)
  {
    hide Transact, Seen, Revised, Effective;
    if n > 0 {
      IssuesAreAsAsked(steps, n - 1, i);
      AtNext(steps, n - 1);
      StepFactsAt(steps, n - 1);
      if EffectiveAt(steps, n - 1) {
        EffectiveHere(steps, n - 1);
        StepRevises(At(steps, n - 1), steps[n - 1], i);
      }
    } else {
      NoIssueAtFirst(steps, i);
    }
  }

  lemma EffectiveHere(steps: seq<Step>, n: nat)
    requires Legal(steps) && n < |steps|
    ensures Legal([steps[n]]) && (EffectiveAt(steps, n) <==> Effective(At(steps, n), steps[n]))
  {
    LegalAt(steps, n);
  }

  lemma NoIssueAtFirst(steps: seq<Step>, i: Id)
    requires Legal(steps)
    ensures Seen(At(steps, 0), i) == None
  {
  }

  // ---- The state asked for

  /**
   A create, update or move that takes effect leaves the Issue in the state that was asked for,
   the Team's default if none was, and says so; the state is then a live one of the Issue's Team.
   */
  lemma StateIsAsRequested(db: Db, c: Command, now: int, ids: FreshIds, cap: Captured)
    requires KeyOf(c) !in db.commands && (c.request.CreateIssue? || c.request.UpdateIssue? || c.request.MoveIssue?)
    requires Transact(db, c, now, ids, cap).result.Ok?
    ensures var r, out := c.request, Transact(db, c, now, ids, cap);
            && r.issue in out.db.issues && out.result.value.IssueReply?
            && out.result.value.id == r.issue && out.result.value.issue == out.db.issues[r.issue]
            && var row := out.db.issues[r.issue];
               && row.state == (if r.UpdateIssue? || r.MoveIssue? then r.state
                                else if r.stateChoice.Some? then r.stateChoice.value else db.teams[r.team].defaultState)
               && row.state in db.states && !db.states[row.state].archived
               && db.states[row.state].org == r.org && db.states[row.state].team == row.team
  {
    hide Previous, Decimal, ParseRevision, IdentifierShown;
    if c.request.CreateIssue? {
      CreateIssueEffect(db, c, now, ids, cap);
    } else if c.request.UpdateIssue? {
      UpdateIssueEffect(db, c, now, ids, cap);
    } else {
      MoveIssueEffect(db, c, now, ids, cap);
    }
    hide Transact;
  }

  /** A chosen state that is missing, archived, or another Team's or Organization's is not found. */
  lemma WrongStateIsNotFound(db: Db, c: Command, now: int, ids: FreshIds, cap: Captured)
    requires KeyOf(c) !in db.commands && (c.request.CreateIssue? || c.request.UpdateIssue? || c.request.MoveIssue?)
    requires c.request.UpdateIssue? && c.request.parent.Some? ==>
               !Parents.Below(cap.links, c.request.issue, c.request.parent.value)
    requires var team := if c.request.UpdateIssue? then cap.team else c.request.team;
             var state := if c.request.CreateIssue? then c.request.stateChoice else Some(c.request.state);
             && state.Some?
             && !(state.value in db.states && db.states[state.value].org == c.request.org
                  && db.states[state.value].team == team && !db.states[state.value].archived)
    ensures Transact(db, c, now, ids, cap) == Outcome(db, Refuse(WorkflowStateNotFound))
  {
    hide Previous, Decimal, ParseRevision, IdentifierShown;
    if c.request.CreateIssue? {
      CreateIssueEffect(db, c, now, ids, cap);
    } else if c.request.UpdateIssue? {
      UpdateIssueEffect(db, c, now, ids, cap);
    } else {
      MoveIssueEffect(db, c, now, ids, cap);
    }
    hide Transact;
  }

  // ---- The times of a Project

  /** The Project's status is in this category. */
  predicate InCategory(db: Db, p: Id, category: StatusCategory) {
    p in db.projects && db.projects[p].status in db.statuses && db.statuses[db.projects[p].status].category == category
  }

  predicate Final(category: StatusCategory) {
    category.ProjectCompleted? || category.ProjectCanceled?
  }

  function TimeOf(db: Db, p: Id, category: StatusCategory): Option<int>
    requires p in db.projects && Final(category)
  {
    if category.ProjectCompleted? then db.projects[p].completedAt else db.projects[p].canceledAt
  }

  /**
   What one transaction does to a time: it is cleared outside its category, kept when the Project
   was in it before, and set to the transaction's own time on entering.
   */
  ghost predicate Times(before: Db, after: Db, p: Id, category: StatusCategory, now: int)
    requires Final(category)
  {
    p in after.projects ==>
      TimeOf(after, p, category)
      == if !InCategory(after, p, category) then None
         else if InCategory(before, p, category) then TimeOf(before, p, category)
         else Some(now)
  }

  /** No status changes its category. */
  ghost predicate CategoriesStay(before: map<Id, Status>, after: map<Id, Status>) {
    forall s :: s in before && s in after ==> after[s].category == before[s].category
  }

  lemma CatalogAdds(db: Db, org: Id, ids: FreshIds)
    requires EnsureCatalog(db, org, ids).Ok?
    ensures var ready := EnsureCatalog(db, org, ids).value;
            forall s :: s in db.statuses ==> s in ready.statuses && ready.statuses[s] == db.statuses[s]
  {
    if org !in db.workspaces {
      InsertStatusesFacts(db.statuses, org, ids, 6);
    }
  }

  lemma ReorderKeepsCategories(db: Db, actor: Id, r: Request)
    requires r.ReorderStatuses? && Shaped(r) && ReorderStatusesBody(db, actor, r).Ok?
    ensures CategoriesStay(db.statuses, ReorderStatusesBody(db, actor, r).value.db.statuses)
  {
    NamedRowsExist(ActiveStatuses(db, r.org), r.items);
    MovesNamed(db.statuses, r.items, MovedStatus);
  }

  lemma BodyKeepsCategories(db: Db, actor: Id, now: int, ids: FreshIds, r: Request, cap: Captured)
    requires Shaped(r) && (NeedsCatalog(r) || CatalogFirst(r) ==> r.org in db.workspaces)
    requires Body(db, actor, now, ids, r, cap).Ok?
    ensures CategoriesStay(db.statuses, Body(db, actor, now, ids, r, cap).value.db.statuses)
  {
    if r.ReorderStatuses? {
      ReorderKeepsCategories(db, actor, r);
    } else if !StatusCommand(r) {
      OwnTablesOnly(db, actor, now, ids, r, cap);
    }
    hide ReorderStatusesBody, ReorderStatesBody, PutTeamBody, CreateProjectBody, UpdateProjectBody, CreateIssueBody;
    hide UpdateIssueBody, MoveIssueBody;
  }

  lemma TransactKeepsCategories(db: Db, c: Command, now: int, ids: FreshIds, cap: Captured)
    requires Shaped(c.request) && KeyOf(c) !in db.commands && Transact(db, c, now, ids, cap).result.Ok?
    ensures CategoriesStay(db.statuses, Transact(db, c, now, ids, cap).db.statuses)
  {
    hide Body, EnsureCatalog;
    if CatalogFirst(c.request) || NeedsCatalog(c.request) {
      EnsureCatalogShape(db, c.request.org, ids);
      CatalogAdds(db, c.request.org, ids);
      BodyKeepsCategories(EnsureCatalog(db, c.request.org, ids).value, c.actor, now, ids, c.request, cap);
    } else {
      BodyKeepsCategories(db, c.actor, now, ids, c.request, cap);
    }
  }

  /** A time is there exactly in its category. */
  lemma TimePresent(db: Db, p: Id, category: StatusCategory)
    requires Structural(db) && p in db.projects && Final(category)
    ensures db.projects[p].status in db.statuses
    ensures TimeOf(db, p, category).Some? <==> InCategory(db, p, category)
  {
    hide TeamsOk, StatesOk, DefaultsOk, StatusesOk, IssuesOk, AliasesOk, ParentsOk;
    assert ProjectOk(db.teams, db.statuses, db.projects[p]);
  }

  /** A row whose status and times stay keeps its times in or out of their category. */
  lemma UntouchedTimes(before: Db, after: Db, p: Id, category: StatusCategory, now: int)
    requires Structural(before) && Structural(after) && Final(category)
    requires CategoriesStay(before.statuses, after.statuses) && p in before.projects && p in after.projects
    requires after.projects[p].status == before.projects[p].status
    requires TimeOf(after, p, category) == TimeOf(before, p, category)
    ensures Times(before, after, p, category, now)
  {
    hide Structural;
    TimePresent(before, p, category);
    TimePresent(after, p, category);
  }

  lemma CreateTimes(db: Db, c: Command, now: int, ids: FreshIds, cap: Captured, category: StatusCategory)
    requires c.request.CreateProject? && KeyOf(c) !in db.commands && Transact(db, c, now, ids, cap).result.Ok?
    requires Structural(db) && Structural(Transact(db, c, now, ids, cap).db) && Final(category)
    ensures Times(db, Transact(db, c, now, ids, cap).db, c.request.project, category, now)
  {
    hide Structural;
    CreateProjectEffect(db, c, now, ids, cap);
    EnsureCatalogShape(db, c.request.org, ids);
    hide Transact, EnsureCatalog, NoDup;
  }

  lemma UpdateTimes(db: Db, c: Command, now: int, ids: FreshIds, cap: Captured, category: StatusCategory)
    requires c.request.UpdateProject? && KeyOf(c) !in db.commands && Transact(db, c, now, ids, cap).result.Ok?
    requires Structural(db) && Structural(Transact(db, c, now, ids, cap).db) && Final(category)
    ensures Times(db, Transact(db, c, now, ids, cap).db, c.request.project, category, now)
  {
    hide Structural;
    UpdateProjectEffect(db, c, now, ids, cap);
    TransactKeepsCategories(db, c, now, ids, cap);
    EnsureCatalogShape(db, c.request.org, ids);
    hide Transact, EnsureCatalog, NoDup, ParseRevision, TeamStillUsed;
    TimePresent(db, c.request.project, category);
  }

  /** A command that is not about the Project's own columns leaves its status and times. */
  lemma OtherTimes(db: Db, c: Command, now: int, ids: FreshIds, cap: Captured, p: Id, category: StatusCategory)
    requires Shaped(c.request) && KeyOf(c) !in db.commands && Transact(db, c, now, ids, cap).result.Ok?
    requires Structural(db) && Structural(Transact(db, c, now, ids, cap).db) && Final(category)
    requires (c.request.CreateProject? || c.request.UpdateProject?) ==> c.request.project != p
    ensures Times(db, Transact(db, c, now, ids, cap).db, p, category, now)
  {
    hide Structural;
    TransactKeepsCategories(db, c, now, ids, cap);
    OtherProjects(db, c, now, ids, cap, p);
    hide Transact;
    var after := Transact(db, c, now, ids, cap).db;
    if p in after.projects {
      UntouchedTimes(db, after, p, category, now);
    }
  }

  lemma OtherProjects(db: Db, c: Command, now: int, ids: FreshIds, cap: Captured, p: Id)
    requires Shaped(c.request) && KeyOf(c) !in db.commands && Transact(db, c, now, ids, cap).result.Ok?
    requires (c.request.CreateProject? || c.request.UpdateProject?) ==> c.request.project != p
    ensures var after := Transact(db, c, now, ids, cap).db;
            && (p in after.projects <==> p in db.projects)
            && (p in after.projects ==>
                  && after.projects[p].status == db.projects[p].status
                  && after.projects[p].completedAt == db.projects[p].completedAt
                  && after.projects[p].canceledAt == db.projects[p].canceledAt)
  {
    if c.request.CreateProject? {
      CreateProjectEffect(db, c, now, ids, cap);
      EnsureCatalogShape(db, c.request.org, ids);
    } else if c.request.UpdateProject? {
      UpdateProjectEffect(db, c, now, ids, cap);
    } else if c.request.ArchiveProject? {
      ArchiveProjectEffect(db, c, now, ids, cap);
    } else {
      TransactFrame(db, c, now, ids, cap);
    }
    hide Transact, EnsureCatalog, NoDup, ParseRevision, TeamStillUsed;
  }

  function TimeOfStep(step: Step): int {
    if step.Execute? then step.now else 0
  }

  lemma QuietTimes(db: Db, step: Step, p: Id, category: StatusCategory)
    requires Legal([step]) && Effective(db, step) && !step.Execute? && Final(category)
    requires Structural(db) && Structural(After(db, step))
    ensures Times(db, After(db, step), p, category, 0)
  {
    hide Structural, Times, EnsureCatalog;
    var after := After(db, step);
    match step {
      case Initialize(org, ids) =>
        EnsureCatalogShape(db, org, ids);
        CatalogAdds(db, org, ids);
      case Retain(_, _) =>
    }
    if p in db.projects {
      UntouchedTimes(db, after, p, category, 0);
    } else {
      NoTimes(db, after, p, category);
    }
  }

  /**
   An update that stays in the completed (or canceled) category leaves that time as it was,
   entering it sets the time of the transaction, leaving it clears it; no other step touches it.
   */
  lemma StepTimes(db: Db, step: Step, p: Id, category: StatusCategory)
    requires Invariant(db) && Legal([step]) && Effective(db, step) && Final(category)
    ensures Times(db, After(db, step), p, category, TimeOfStep(step))
  {
    StepKeeps(db, step);
    BothStructural(db, After(db, step));
    hide Transact, Structural, Invariant, Times;
    assert step in [step];
    if !step.Execute? {
      QuietTimes(db, step, p, category);
    } else if (step.c.request.CreateProject? || step.c.request.UpdateProject?) && step.c.request.project == p {
      if step.c.request.CreateProject? {
        CreateTimes(db, step.c, step.now, step.ids, step.cap, category);
      } else {
        UpdateTimes(db, step.c, step.now, step.ids, step.cap, category);
      }
    } else {
      OtherTimes(db, step.c, step.now, step.ids, step.cap, p, category);
    }
  }

  lemma NoTimes(before: Db, after: Db, p: Id, category: StatusCategory)
    requires p !in after.projects && Final(category)
    ensures Times(before, after, p, category, 0)
  {
  }

  lemma BothStructural(a: Db, b: Db)
    requires Invariant(a) && Invariant(b)
    ensures Structural(a) && Structural(b)
  {
  }

  /** The time of the step with which the Project last came into the category, if it is in it. */
  ghost function LastEntry(steps: seq<Step>, n: nat, p: Id, category: StatusCategory): Option<int>
    requires Legal(steps) && n <= |steps|
  {
    if n == 0 || !InCategory(At(steps, n), p, category) then None
    else if InCategory(At(steps, n - 1), p, category) then LastEntry(steps, n - 1, p, category)
    else Some(TimeOfStep(steps[n - 1]))
  }

  /** In every run a Project is completed (or canceled) at the time of its last entry into that category. */
  lemma {:induction false} TimesAreLastEntries(steps: seq<Step>, n: nat, p: Id, category: StatusCategory)
    requires Legal(steps) && n <= |steps| && Final(category) && p in At(steps, n).projects
    ensures TimeOf(At(steps, n), p, category) == LastEntry(steps, n, p, category)
  {
    hide Transact, Effective, Invariant, InCategory, TimeOf;
    if n == 0 {
      NoProjectAtFirst(steps, p);
    } else {
      AtNext(steps, n - 1);
      StepFactsAt(steps, n - 1);
      ReachableInvariant(steps, n - 1);
      EffectiveHere(steps, n - 1);
      if EffectiveAt(steps, n - 1) {
        StepTimes(At(steps, n - 1), steps[n - 1], p, category);
      } else {
        ReachableTime(steps, n, p, category);
      }
      if InCategory(At(steps, n - 1), p, category) {
        InProjects(At(steps, n - 1), p, category);
        TimesAreLastEntries(steps, n - 1, p, category);
      }
    }
  }

  lemma InProjects(db: Db, p: Id, category: StatusCategory)
    requires InCategory(db, p, category)
    ensures p in db.projects
  {
  }

  lemma NoProjectAtFirst(steps: seq<Step>, p: Id)
    requires Legal(steps)
    ensures p !in At(steps, 0).projects
  {
  }

  lemma ReachableTime(steps: seq<Step>, n: nat, p: Id, category: StatusCategory)
    requires Legal(steps) && n <= |steps| && Final(category) && p in At(steps, n).projects
    ensures TimeOf(At(steps, n), p, category).Some? <==> InCategory(At(steps, n), p, category)
  {
    ReachableInvariant(steps, n);
    BothStructural(At(steps, n), At(steps, n));
    hide Structural;
    TimePresent(At(steps, n), p, category);
  }

  // ---- What the activity record of an Issue says

  /** One record is new: the actor's, about this Issue at its present revision, in this Project. */
  ghost predicate Records(db: Db, after: Db, c: Command, issue: Id, project: Id) {
    && issue in after.issues
    && after.activity == db.activity + [ActivityRow(c.request.org, Some(project), Some(issue), c.actor, IssueEntity,
                                                    issue, Some(after.issues[issue].revision))]
  }

  lemma CreateIssueRecords(db: Db, c: Command, now: int, ids: FreshIds, cap: Captured)
    requires c.request.CreateIssue? && KeyOf(c) !in db.commands && Transact(db, c, now, ids, cap).result.Ok?
    ensures Records(db, Transact(db, c, now, ids, cap).db, c, c.request.issue, c.request.project)
  {
    CreateIssueEffect(db, c, now, ids, cap);
    hide Transact, Previous, Decimal, ParseRevision, IdentifierShown;
  }

  lemma UpdateIssueRecords(db: Db, c: Command, now: int, ids: FreshIds, cap: Captured)
    requires c.request.UpdateIssue? && KeyOf(c) !in db.commands && Transact(db, c, now, ids, cap).result.Ok?
    ensures Records(db, Transact(db, c, now, ids, cap).db, c, c.request.issue, cap.project)
  {
    UpdateIssueEffect(db, c, now, ids, cap);
    hide Transact, Previous, Decimal, ParseRevision, IdentifierShown;
  }

  lemma MoveIssueRecords(db: Db, c: Command, now: int, ids: FreshIds, cap: Captured)
    requires c.request.MoveIssue? && KeyOf(c) !in db.commands && Transact(db, c, now, ids, cap).result.Ok?
    ensures Records(db, Transact(db, c, now, ids, cap).db, c, c.request.issue, cap.project)
  {
    MoveIssueEffect(db, c, now, ids, cap);
    hide Transact, Previous, Decimal, ParseRevision, IdentifierShown;
  }

  lemma ArchiveIssueRecords(db: Db, c: Command, now: int, ids: FreshIds, cap: Captured)
    requires c.request.ArchiveIssue? && KeyOf(c) !in db.commands && Transact(db, c, now, ids, cap).result.Ok?
    ensures c.request.issue in db.issues
    ensures Records(db, Transact(db, c, now, ids, cap).db, c, c.request.issue, db.issues[c.request.issue].project)
  {
    ArchiveIssueEffect(db, c, now, ids, cap);
    hide Transact, Previous, Decimal, ParseRevision, IdentifierShown;
  }

  lemma SetAssigneeRecords(db: Db, c: Command, now: int, ids: FreshIds, cap: Captured)
    requires c.request.SetAssignee? && KeyOf(c) !in db.commands && Transact(db, c, now, ids, cap).result.Ok?
    ensures c.request.issue in db.issues
    ensures Records(db, Transact(db, c, now, ids, cap).db, c, c.request.issue, db.issues[c.request.issue].project)
  {
    AssigneeEffect(db, c, now, ids, cap);
    hide Transact, Previous, Decimal, ParseRevision, IdentifierShown;
  }

  lemma CommandRecord(db: Db, c: Command, now: int, ids: FreshIds, cap: Captured)
    requires IssueCommand(c.request) && KeyOf(c) !in db.commands && Transact(db, c, now, ids, cap).result.Ok?
    ensures var r, after := c.request, Transact(db, c, now, ids, cap).db;
            && r.issue in after.issues
            && Records(db, after, c, r.issue,
                       if r.UpdateIssue? || r.MoveIssue? then cap.project else after.issues[r.issue].project)
  {
    CommandRevises(db, c, now, ids, cap, c.request.issue);
    hide Transact, Records;
    if c.request.CreateIssue? {
      CreateIssueRecords(db, c, now, ids, cap);
    } else if c.request.UpdateIssue? {
      UpdateIssueRecords(db, c, now, ids, cap);
    } else if c.request.MoveIssue? {
      MoveIssueRecords(db, c, now, ids, cap);
    } else if c.request.ArchiveIssue? {
      ArchiveIssueRecords(db, c, now, ids, cap);
    } else {
      SetAssigneeRecords(db, c, now, ids, cap);
    }
  }

  lemma AdmittedWhere(db: Db, actor: Id, r: Request)
    requires (r.UpdateIssue? || r.MoveIssue?) && Admit(db, actor, r).Ok?
    ensures r.issue in db.issues && Admit(db, actor, r).value.project == db.issues[r.issue].project
  {
  }

  /**
   The record of a command about an Issue names the actor, the Issue, its new revision and the
   Project it is in, although the Project was read some time before the transaction.
   */
  lemma RecordTellsIssue(steps: seq<Step>, i: nat, n: nat)
    requires Legal(steps) && i <= n < |steps| && EffectiveAt(steps, n) && steps[n].Execute?
    requires IssueCommand(steps[n].c.request)
    requires Admit(At(steps, i), steps[n].c.actor, steps[n].c.request).Ok?
    requires steps[n].cap.project == Admit(At(steps, i), steps[n].c.actor, steps[n].c.request).value.project
    ensures var c, after := steps[n].c, At(steps, n + 1);
            && c.request.issue in after.issues
            && Records(At(steps, n), after, c, c.request.issue, after.issues[c.request.issue].project)
  {
    var step := steps[n];
    AtNext(steps, n);
    assert step in [step];
    CommandRecord(At(steps, n), step.c, step.now, step.ids, step.cap);
    if step.c.request.UpdateIssue? || step.c.request.MoveIssue? {
      AdmittedWhere(At(steps, i), step.c.actor, step.c.request);
      Retries.StaysAlong(steps, i, n + 1);
    }
    hide Transact, Admit;
  }
}
