/**
 Which retries are answered. The checks before a transaction run again for a retry, so
 what matters is whether anything they read can have been undone since they first passed.
 */
module Retries {
  import opened Prelude
  import opened Tables
  import opened Sorting
  import opened Reorder
  import opened Commands
  import opened Invariants
  import opened Retentions
  import opened Runs
  import Admission

  /** No attached private Team shuts the actor out. */
  predicate ProjectOpen(db: Db, project: Id, actor: Id) {
    project in db.projects && ProjectVisible(db, project, actor)
  }

  predicate IssueOpen(db: Db, issue: Id, actor: Id) {
    issue in db.issues && ProjectOpen(db, db.issues[issue].project, actor)
  }

  predicate AllOpen(db: Db, teamIds: seq<Id>, actor: Id) {
    forall t :: t in teamIds ==> TeamOpen(db, t, actor)
  }

  /** All that later commands can take away from a request that once passed its checks. */
  predicate StillOpen(db: Db, actor: Id, r: Request) {
    match r
    case PutTeam(org, team, key, _, _, _, _) => !KeyOwned(db.teams, org, key, team)
    case CreateProject(_, _, _, _, teamIds, _) => AllOpen(db, teamIds, actor)
    case UpdateProject(_, project, _, _, _, teamIds, _) =>
      ProjectOpen(db, project, actor) && AllOpen(db, teamIds, actor)
    case ArchiveProject(_, project, _, _) => ProjectOpen(db, project, actor)
    case CreateIssue(org, _, project, team, _, _, _) =>
      ProjectOpen(db, project, actor) && TeamAttached(db, org, project, team)
    case UpdateIssue(_, issue, _, _, _, _) => IssueOpen(db, issue, actor)
    case MoveIssue(org, issue, _, team, _) =>
      IssueOpen(db, issue, actor) && TeamOpen(db, team, actor) && TeamAttached(db, org, db.issues[issue].project, team)
    case ArchiveIssue(_, issue, _, _) => IssueOpen(db, issue, actor)
    case SetAssignee(_, issue, _, assignee) =>
      IssueOpen(db, issue, actor) && (assignee.Some? ==> IssueOpen(db, issue, assignee.value))
    case _ => true
  }

  /** Nothing the checks read can be taken away from these. */
  predicate NeverShut(r: Request) {
    || r.SetMember? || r.PutState? || r.ReorderStates? || r.ArchiveState? || r.DeleteState?
    || r.PutStatus? || r.ReorderStatuses? || r.ArchiveStatus? || r.DeleteStatus?
  }

  // ---- What no command undoes

  predicate TeamsStay(a: map<Id, Team>, b: map<Id, Team>) {
    forall t :: t in a ==> t in b && b[t].org == a[t].org
  }

  predicate ProjectsStay(a: map<Id, Project>, b: map<Id, Project>) {
    forall p :: p in a ==> p in b && b[p].org == a[p].org
  }

  predicate IssuesStay(a: map<Id, Issue>, b: map<Id, Issue>) {
    forall i :: i in a ==> i in b && b[i].org == a[i].org && b[i].project == a[i].project
  }

  predicate Stays(a: Db, b: Db) {
    TeamsStay(a.teams, b.teams) && ProjectsStay(a.projects, b.projects) && IssuesStay(a.issues, b.issues)
  }

  predicate TeamsCalm(a: map<Id, Team>, b: map<Id, Team>) {
    && a.Keys == b.Keys
    && forall t :: t in a ==> b[t].org == a[t].org && b[t].key == a[t].key && b[t].private == a[t].private
  }

  predicate MembersCalm(a: map<(Id, Id), Member>, b: map<(Id, Id), Member>) {
    forall k :: k in a && a[k].active ==> k in b && b[k].active
  }

  predicate ProjectsCalm(a: map<Id, Project>, b: map<Id, Project>) {
    forall p :: p in a ==> p in b && b[p].teams == a[p].teams
  }

  /** Nobody is shut out of anything that was open. */
  predicate Calm(a: Db, b: Db) {
    TeamsCalm(a.teams, b.teams) && MembersCalm(a.members, b.members) && ProjectsCalm(a.projects, b.projects)
  }

  /** Commands that can shut an actor out: they change a Team, end a membership or replace a Project's Teams. */
  predicate CanShut(r: Request) {
    r.PutTeam? || (r.SetMember? && !r.active) || r.UpdateProject?
  }

  ghost predicate Harmless(a: Db, b: Db, r: Request) {
    Stays(a, b) && (CanShut(r) || Calm(a, b))
  }

  lemma PutTeamHarmless(db: Db, actor: Id, r: Request, ids: FreshIds)
    requires r.PutTeam? && PutTeamBody(db, actor, r, ids).Ok?
    ensures Harmless(db, PutTeamBody(db, actor, r, ids).value.db, r)
  {
    PutTeamShape(db, actor, r, ids);
    hide PutTeamBody;
  }

  lemma CreateProjectHarmless(db: Db, actor: Id, now: int, r: Request)
    requires r.CreateProject? && r.org in db.workspaces && CreateProjectBody(db, actor, now, r).Ok?
    ensures Harmless(db, CreateProjectBody(db, actor, now, r).value.db, r)
  {
  }

  lemma UpdateProjectHarmless(db: Db, actor: Id, now: int, r: Request)
    requires r.UpdateProject? && r.org in db.workspaces && UpdateProjectBody(db, actor, now, r).Ok?
    ensures Harmless(db, UpdateProjectBody(db, actor, now, r).value.db, r)
  {
  }

  lemma ArchiveProjectHarmless(db: Db, actor: Id, r: Request)
    requires r.ArchiveProject? && ArchiveProjectBody(db, actor, r).Ok?
    ensures Harmless(db, ArchiveProjectBody(db, actor, r).value.db, r)
  {
  }

  lemma CreateIssueHarmless(db: Db, actor: Id, now: int, r: Request)
    requires r.CreateIssue? && CreateIssueBody(db, actor, now, r).Ok?
    ensures Harmless(db, CreateIssueBody(db, actor, now, r).value.db, r)
  {
  }

  lemma UpdateIssueHarmless(db: Db, actor: Id, r: Request, cap: Captured)
    requires r.UpdateIssue? && UpdateIssueBody(db, actor, r, cap).Ok?
    ensures Harmless(db, UpdateIssueBody(db, actor, r, cap).value.db, r)
  {
  }

  lemma MoveIssueHarmless(db: Db, actor: Id, now: int, r: Request, cap: Captured)
    requires r.MoveIssue? && MoveIssueBody(db, actor, now, r, cap).Ok?
    ensures Harmless(db, MoveIssueBody(db, actor, now, r, cap).value.db, r)
  {
  }

  lemma IssueFieldHarmless(db: Db, actor: Id, r: Request)
    requires r.ArchiveIssue? || r.SetAssignee?
    ensures var out := if r.ArchiveIssue? then ArchiveIssueBody(db, actor, r) else SetAssigneeBody(db, actor, r);
            out.Ok? ==> Harmless(db, out.value.db, r)
  {
  }

  lemma SetMemberHarmless(db: Db, actor: Id, r: Request)
    requires r.SetMember? && SetMemberBody(db, actor, r).Ok?
    ensures Harmless(db, SetMemberBody(db, actor, r).value.db, r)
  {
  }

  lemma SameIsHarmless(a: Db, b: Db, r: Request)
    requires a.teams == b.teams && a.members == b.members && a.projects == b.projects && a.issues == b.issues
    ensures Harmless(a, b, r)
  {
  }

  lemma BodyHarmless(db: Db, actor: Id, now: int, ids: FreshIds, r: Request, cap: Captured)
    requires Shaped(r) && (NeedsCatalog(r) ==> r.org in db.workspaces) && Body(db, actor, now, ids, r, cap).Ok?
    ensures Harmless(db, Body(db, actor, now, ids, r, cap).value.db, r)
  {
    hide Harmless;
    hide PutTeamBody, SetMemberBody, PutStateBody, ReorderStatesBody, ArchiveStateBody, DeleteStateBody;
    hide PutStatusBody, ReorderStatusesBody, ArchiveStatusBody, DeleteStatusBody;
    hide CreateProjectBody, UpdateProjectBody, ArchiveProjectBody;
    hide CreateIssueBody, UpdateIssueBody, MoveIssueBody, ArchiveIssueBody, SetAssigneeBody;
    match r
    case PutTeam(_, _, _, _, _, _, _) => PutTeamHarmless(db, actor, r, ids);
    case SetMember(_, _, _, _) => SetMemberHarmless(db, actor, r);
    case CreateProject(_, _, _, _, _, _) => CreateProjectHarmless(db, actor, now, r);
    case UpdateProject(_, _, _, _, _, _, _) => UpdateProjectHarmless(db, actor, now, r);
    case ArchiveProject(_, _, _, _) => ArchiveProjectHarmless(db, actor, r);
    case CreateIssue(_, _, _, _, _, _, _) => CreateIssueHarmless(db, actor, now, r);
    case UpdateIssue(_, _, _, _, _, _) => UpdateIssueHarmless(db, actor, r, cap);
    case MoveIssue(_, _, _, _, _) => MoveIssueHarmless(db, actor, now, r, cap);
    case ArchiveIssue(_, _, _, _) => IssueFieldHarmless(db, actor, r);
    case SetAssignee(_, _, _, _) => IssueFieldHarmless(db, actor, r);
    case _ => SameIsHarmless(db, Body(db, actor, now, ids, r, cap).value.db, r);
  }

  lemma TransactHarmless(db: Db, c: Command, now: int, ids: FreshIds, cap: Captured)
    requires Shaped(c.request) && KeyOf(c) !in db.commands && Transact(db, c, now, ids, cap).result.Ok?
    ensures Harmless(db, Transact(db, c, now, ids, cap).db, c.request)
  {
    hide Body, EnsureCatalog;
    if CatalogFirst(c.request) || NeedsCatalog(c.request) {
      EnsureCatalogShape(db, c.request.org, ids);
      BodyHarmless(EnsureCatalog(db, c.request.org, ids).value, c.actor, now, ids, c.request, cap);
    } else {
      BodyHarmless(db, c.actor, now, ids, c.request, cap);
    }
  }

  lemma CatalogHarmless(db: Db, org: Id, ids: FreshIds)
    requires EnsureCatalog(db, org, ids).Ok?
    ensures Stays(db, EnsureCatalog(db, org, ids).value) && Calm(db, EnsureCatalog(db, org, ids).value)
  {
    EnsureCatalogShape(db, org, ids);
    hide EnsureCatalog;
  }

  lemma RetainHarmless(db: Db, action: Id, r: Retention)
    ensures Stays(db, Apply(db, action, r)) && Calm(db, Apply(db, action, r))
  {
  }

  lemma QuietHarmless(db: Db, step: Step)
    requires Legal([step]) && !step.Execute?
    ensures Stays(db, After(db, step)) && Calm(db, After(db, step))
  {
    hide Stays, Calm, Apply, EnsureCatalog;
    match step
    case Initialize(org, ids) =>
      if EnsureCatalog(db, org, ids).Ok? {
        CatalogHarmless(db, org, ids);
      } else {
        SameStays(db);
      }
    case Retain(action, r) => RetainHarmless(db, action, r);
  }

  /** The step takes effect and can shut somebody out. */
  ghost predicate Disturbs(db: Db, step: Step)
    requires Legal([step])
  {
    Effective(db, step) && step.Execute? && CanShut(step.c.request)
  }

  lemma StepHarmless(db: Db, step: Step)
    requires Invariant(db) && Legal([step])
    ensures Stays(db, After(db, step)) && (Disturbs(db, step) || Calm(db, After(db, step)))
  {
    hide Transact, Invariant;
    assert step in [step];
    if !step.Execute? {
      QuietHarmless(db, step);
    } else if Effective(db, step) {
      TransactHarmless(db, step.c, step.now, step.ids, step.cap);
    } else {
      StepFacts(db, step);
    }
  }

  // ---- The checks again

  lemma IssueInProject(db: Db, issue: Id)
    requires Structural(db) && issue in db.issues
    ensures db.issues[issue].project in db.projects && db.issues[issue].team in db.teams
    ensures db.issues[issue].team in db.projects[db.issues[issue].project].teams
    ensures db.projects[db.issues[issue].project].org == db.issues[issue].org
  {
    assert IssueOk(db.projects, db.states, db.issues[issue]);
    assert ProjectOk(db.teams, db.statuses, db.projects[db.issues[issue].project]);
  }

  lemma ProjectCheckedAgain(first: Db, seen: Db, org: Id, project: Id, actor: Id)
    requires Stays(first, seen) && project in first.projects && first.projects[project].org == org
    ensures CheckProject(seen, org, project, actor).Ok? <==> ProjectOpen(seen, project, actor)
  {
  }

  lemma IssueCheckedAgain(first: Db, seen: Db, org: Id, issue: Id, actor: Id)
    requires Structural(seen) && Stays(first, seen) && issue in first.issues && first.issues[issue].org == org
    ensures CheckIssue(seen, org, issue, actor).Ok? <==> IssueOpen(seen, issue, actor)
  {
    IssueInProject(seen, issue);
    hide Structural;
  }

  lemma TeamsCheckedAgain(first: Db, seen: Db, org: Id, teamIds: seq<Id>, actor: Id)
    requires Stays(first, seen) && CheckTeams(first, org, teamIds, actor).Ok?
    ensures CheckTeams(seen, org, teamIds, actor).Ok? <==> AllOpen(seen, teamIds, actor)
  {
    Admission.TeamsCheckedExactly(first, org, teamIds, actor);
    Admission.TeamsCheckedExactly(seen, org, teamIds, actor);
    hide CheckTeams;
  }

  /** A parent stays an Issue of the same Project. */
  lemma LinksCheckedAgain(first: Db, seen: Db, org: Id, project: Id, team: Id, now: Id, parent: Option<Id>)
    requires Stays(first, seen) && CheckIssueLinks(first, org, project, team, parent).Ok?
    ensures CheckIssueLinks(seen, org, project, now, parent).Ok? <==> TeamAttached(seen, org, project, now)
  {
  }

  lemma ProjectReadmitted(first: Db, seen: Db, actor: Id, r: Request)
    requires Stays(first, seen) && (r.CreateProject? || r.UpdateProject? || r.ArchiveProject? || r.CreateIssue?)
    requires Admit(first, actor, r).Ok?
    ensures Admit(seen, actor, r).Ok? <==> StillOpen(seen, actor, r)
  {
    hide CheckTeams, CheckIssueLinks, CheckProject, Stays, ProjectOpen, AllOpen, TeamAttached;
    if !r.CreateProject? {
      ProjectExisted(first, r.org, r.project, actor);
      ProjectCheckedAgain(first, seen, r.org, r.project, actor);
    }
    if r.CreateProject? || r.UpdateProject? {
      TeamsCheckedAgain(first, seen, r.org, r.teamIds, actor);
    }
    if r.CreateIssue? {
      LinksCheckedAgain(first, seen, r.org, r.project, r.team, r.team, r.parent);
    }
  }

  lemma ProjectExisted(db: Db, org: Id, project: Id, actor: Id)
    requires CheckProject(db, org, project, actor).Ok?
    ensures project in db.projects && db.projects[project].org == org
  {
  }

  lemma IssueReadmitted(first: Db, seen: Db, actor: Id, r: Request)
    requires Structural(seen) && Stays(first, seen)
    requires r.UpdateIssue? || r.MoveIssue? || r.ArchiveIssue? || r.SetAssignee?
    requires Admit(first, actor, r).Ok?
    ensures Admit(seen, actor, r).Ok? <==> StillOpen(seen, actor, r)
  {
    hide CheckTeams, CheckIssueLinks, CheckIssue, Structural, IssueOpen, TeamAttached;
    IssueExisted(first, r.org, r.issue, actor);
    IssueCheckedAgain(first, seen, r.org, r.issue, actor);
    IssueInProject(seen, r.issue);
    if r.UpdateIssue? {
      LinksCheckedAgain(first, seen, r.org, first.issues[r.issue].project, first.issues[r.issue].team,
                        seen.issues[r.issue].team, r.parent);
      OwnTeamAttached(seen, r.issue);
    } else if r.MoveIssue? {
      TeamsCheckedAgain(first, seen, r.org, [r.team], actor);
      LinksCheckedAgain(first, seen, r.org, first.issues[r.issue].project, r.team, r.team, None);
    } else if r.SetAssignee? && r.assignee.Some? {
      IssueCheckedAgain(first, seen, r.org, r.issue, r.assignee.value);
    }
  }

  lemma OwnTeamAttached(db: Db, issue: Id)
    requires Structural(db) && issue in db.issues
    ensures TeamAttached(db, db.issues[issue].org, db.issues[issue].project, db.issues[issue].team)
  {
    IssueInProject(db, issue);
  }

  lemma IssueExisted(db: Db, org: Id, issue: Id, actor: Id)
    requires CheckIssue(db, org, issue, actor).Ok?
    ensures issue in db.issues && db.issues[issue].org == org
  {
  }

  /** What passed once passes again exactly when nothing of it was taken away. */
  lemma Readmitted(first: Db, seen: Db, actor: Id, r: Request)
    requires Structural(seen) && Stays(first, seen) && Admit(first, actor, r).Ok?
    ensures Admit(seen, actor, r).Ok? <==> StillOpen(seen, actor, r)
  {
    if r.CreateProject? || r.UpdateProject? || r.ArchiveProject? || r.CreateIssue? {
      ProjectReadmitted(first, seen, actor, r);
    } else if r.UpdateIssue? || r.MoveIssue? || r.ArchiveIssue? || r.SetAssignee? {
      IssueReadmitted(first, seen, actor, r);
    } else {
      hide Structural;
    }
  }

  // ---- Retries in a run

  lemma {:induction false} StaysAlong(steps: seq<Step>, i: nat, j: nat)
    requires Legal(steps) && i <= j <= |steps|
    ensures Stays(At(steps, i), At(steps, j))
    decreases j
  {
    hide Transact, After, Invariant, Calm, Disturbs;
    if i < j {
      StaysAlong(steps, i, j - 1);
      AtNext(steps, j - 1);
      ReachableInvariant(steps, j - 1);
      StepHarmless(At(steps, j - 1), steps[j - 1]);
      StaysAgain(At(steps, i), At(steps, j - 1), At(steps, j));
    }
  }

  lemma StaysAgain(a: Db, b: Db, c: Db)
    requires Stays(a, b) && Stays(b, c)
    ensures Stays(a, c)
  {
  }

  /** Step `n` took effect for this command, which had passed its checks on the state before step `i`. */
  ghost predicate Done(steps: seq<Step>, i: nat, n: nat, c: Command) {
    && Legal(steps) && i <= n < |steps| && EffectiveAt(steps, n) && steps[n].Execute? && steps[n].c == c
    && Admit(At(steps, i), c.actor, c.request).Ok?
  }

  lemma ReceiptOfDone(steps: seq<Step>, i: nat, n: nat, c: Command, k: nat)
    requires Done(steps, i, n, c) && n < k <= |steps|
    ensures KeyOf(c) in At(steps, k).commands && At(steps, k).commands[KeyOf(c)].request == c.request
    ensures AnsweredAt(steps, n) && At(steps, k).commands[KeyOf(c)].reply == ReplyAt(steps, n)
  {
    assert steps[n] in [steps[n]];
    assert AnsweredAt(steps, n);
    hide Transact, AnsweredAt, ReplyAt;
    StepFactsAt(steps, n);
    ReceiptsLast(steps, n + 1, k, KeyOf(c));
  }

  /**
   A retry of a command that took effect, checked on the state before step `j` and reserved
   on the one before step `k`, gets the first reply exactly when nothing it needs was taken
   away; from most catalog commands nothing can be.
   */
  lemma RetryExactly(steps: seq<Step>, i: nat, n: nat, c: Command, j: nat, k: nat, now: int, ids: FreshIds)
    requires Done(steps, i, n, c) && i <= j <= k <= |steps| && n < k
    ensures AnsweredAt(steps, n)
    ensures var again := Served(At(steps, j), At(steps, k), c, now, ids);
            && (again == Ok(ReplyAt(steps, n)) <==> StillOpen(At(steps, j), c.actor, c.request))
            && (NeverShut(c.request) ==> again == Ok(ReplyAt(steps, n)))
  {
    hide Transact, Invariant, AnsweredAt, ReplyAt, Admit, Stays, EffectiveAt;
    ReceiptOfDone(steps, i, n, c, k);
    StaysAlong(steps, i, j);
    ReachableInvariant(steps, j);
    ReachableInvariant(steps, k);
    ReachableStructural(At(steps, j));
    Readmitted(At(steps, i), At(steps, j), c.actor, c.request);
    RetryAnsweredExactly(At(steps, j), At(steps, k), c, now, ids);
  }

  lemma ReachableStructural(db: Db)
    requires Invariant(db)
    ensures Structural(db)
  {
  }

  // ---- What keeps a request open

  lemma CalmKeepsOpen(a: Db, b: Db, actor: Id, r: Request)
    requires Stays(a, b) && Calm(a, b) && StillOpen(a, actor, r)
    ensures StillOpen(b, actor, r)
  {
    CalmKeepsTeams(a, b, actor);
    hide TeamOpen;
  }

  lemma CalmKeepsTeams(a: Db, b: Db, actor: Id)
    requires Calm(a, b)
    ensures forall t :: t in b.teams ==> t in a.teams
    ensures forall t, who :: TeamOpen(a, t, who) ==> TeamOpen(b, t, who)
  {
  }

  lemma MembershipStaysOpen(db: Db, actor: Id, r: Request)
    requires r.SetMember?
    ensures StillOpen(db, actor, r)
  {
  }

  /** Keys are unique in an Organization, so the Team's own key belongs to no other. */
  lemma OwnKey(db: Db, c: Command, now: int, ids: FreshIds, cap: Captured)
    requires Invariant(db) && c.request.PutTeam? && KeyOf(c) !in db.commands
             && Transact(db, c, now, ids, cap).result.Ok?
    ensures StillOpen(Transact(db, c, now, ids, cap).db, c.actor, c.request)
  {
    var ready := EnsureCatalog(db, c.request.org, ids).value;
    EnsureCatalogShape(db, c.request.org, ids);
    hide EnsureCatalog, Invariant;
    PutTeamShape(ready, c.actor, c.request, ids);
    hide PutTeamBody;
  }

  lemma OwnTeams(db: Db, c: Command, now: int, ids: FreshIds, cap: Captured)
    requires c.request.UpdateProject? && KeyOf(c) !in db.commands && Transact(db, c, now, ids, cap).result.Ok?
    requires StillOpen(db, c.actor, c.request)
    ensures StillOpen(Transact(db, c, now, ids, cap).db, c.actor, c.request)
  {
    var ready := EnsureCatalog(db, c.request.org, ids).value;
    EnsureCatalogShape(db, c.request.org, ids);
    hide EnsureCatalog;
    UpdateProjectShape(ready, c.actor, now, c.request);
    hide UpdateProjectBody;
  }

  /** A command does not shut itself out. */
  lemma OwnStepKeepsOpen(db: Db, c: Command, now: int, ids: FreshIds, cap: Captured)
    requires Invariant(db) && Shaped(c.request) && StillOpen(db, c.actor, c.request)
    requires KeyOf(c) !in db.commands && Transact(db, c, now, ids, cap).result.Ok?
    ensures StillOpen(Transact(db, c, now, ids, cap).db, c.actor, c.request)
  {
    hide Transact, Invariant, Calm, Stays, StillOpen;
    if c.request.PutTeam? {
      OwnKey(db, c, now, ids, cap);
    } else if c.request.UpdateProject? {
      OwnTeams(db, c, now, ids, cap);
    } else if c.request.SetMember? {
      MembershipStaysOpen(Transact(db, c, now, ids, cap).db, c.actor, c.request);
    } else {
      TransactHarmless(db, c, now, ids, cap);
      CalmKeepsOpen(db, Transact(db, c, now, ids, cap).db, c.actor, c.request);
    }
  }

  ghost predicate DisturbsAt(steps: seq<Step>, n: nat)
    requires Legal(steps) && n < |steps|
  {
    EffectiveAt(steps, n) && steps[n].Execute? && CanShut(steps[n].c.request)
  }

  lemma StepKeepsOpen(steps: seq<Step>, m: nat, n: nat, i: nat, c: Command)
    requires Done(steps, i, n, c) && m < |steps| && StillOpen(At(steps, m), c.actor, c.request)
    requires m == n || !DisturbsAt(steps, m)
    ensures StillOpen(At(steps, m + 1), c.actor, c.request)
  {
    hide Transact, After, Invariant, StillOpen, Admit;
    AtNext(steps, m);
    ReachableInvariant(steps, m);
    var db, step := At(steps, m), steps[m];
    assert step in [step];
    if m == n {
      OwnStepKeepsOpen(db, c, step.now, step.ids, step.cap);
      OwnAfter(db, step);
    } else {
      StepHarmless(db, step);
      CalmKeepsOpen(db, At(steps, m + 1), c.actor, c.request);
    }
  }

  lemma OwnAfter(db: Db, step: Step)
    requires Legal([step]) && step.Execute?
    ensures Shaped(step.c.request) && After(db, step) == Transact(db, step.c, step.now, step.ids, step.cap).db
  {
    assert step in [step];
  }

  lemma OpenAtFirst(db: Db, actor: Id, r: Request)
    requires Invariant(db) && Admit(db, actor, r).Ok?
    ensures StillOpen(db, actor, r)
  {
    hide Admit, StillOpen, Structural, Stays, Calm;
    SameStays(db);
    Readmitted(db, db, actor, r);
  }

  lemma {:induction false} OpenAlong(steps: seq<Step>, i: nat, n: nat, c: Command, j: nat)
    requires Done(steps, i, n, c) && i <= j <= |steps|
    requires forall m :: i <= m < j && m != n ==> !DisturbsAt(steps, m)
    ensures StillOpen(At(steps, j), c.actor, c.request)
    decreases j
  {
    hide Transact, Invariant, Admit, EffectiveAt, DisturbsAt, StillOpen;
    if i < j {
      OpenAlong(steps, i, n, c, j - 1);
      StepKeepsOpen(steps, j - 1, n, i, c);
    } else {
      ReachableInvariant(steps, i);
      OpenAtFirst(At(steps, i), c.actor, c.request);
    }
  }

  lemma SameStays(db: Db)
    ensures Stays(db, db) && Calm(db, db)
  {
  }

  /**
   A retry is answered unless some other command changed a Team, ended a membership or
   replaced the Teams of a Project since the first checks.
   */
  lemma UndisturbedRetry(steps: seq<Step>, i: nat, n: nat, c: Command, j: nat, k: nat, now: int, ids: FreshIds)
    requires Done(steps, i, n, c) && i <= j <= k <= |steps| && n < k
    requires forall m :: i <= m < j && m != n ==> !DisturbsAt(steps, m)
    ensures AnsweredAt(steps, n) && Served(At(steps, j), At(steps, k), c, now, ids) == Ok(ReplyAt(steps, n))
  {
    hide Transact, Done, StillOpen, DisturbsAt;
    OpenAlong(steps, i, n, c, j);
    RetryExactly(steps, i, n, c, j, k, now, ids);
  }
}
