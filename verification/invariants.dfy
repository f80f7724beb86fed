/** Every transaction keeps the invariant, whatever was read when its command was admitted. */
module Invariants {
  import opened Prelude
  import opened Text
  import opened Tables
  import opened Reorder
  import opened Commands
  import Parents

  /** A revision moves exactly when the change is recorded for it, and then by one. */
  predicate Moves(before: nat, after: nat, recorded: bool, revision: Option<nat>) {
    if recorded then after == before + 1 && revision == Some(after) else after == before
  }

  /** The identifier that a Team gives out next was given out, and is recorded under `a`. */
  predicate Issued(db: Db, db': Db, t: Id, a: (Id, string)) {
    && t in db.teams && t in db'.teams && a == (db.teams[t].org, NextIdentifier(db.teams, t))
    && db'.teams[t].nextNumber == db.teams[t].nextNumber + 1 && db'.teams[t].key == db.teams[t].key
  }

  /** Identifiers are only added, each by the Team whose turn it is, and never one that is already recorded. */
  ghost predicate Names(db: Db, db': Db) {
    && (forall a :: a in db.aliases ==> a in db'.aliases && db'.aliases[a] == db.aliases[a])
    && (forall a :: a in db'.aliases && a !in db.aliases ==> exists t :: Issued(db, db', t, a))
    && (forall t :: t in db.teams ==>
          && t in db'.teams && db'.teams[t].org == db.teams[t].org
          && db'.teams[t].nextNumber >= db.teams[t].nextNumber
          && (db'.teams[t].nextNumber > db.teams[t].nextNumber ==>
                (db.teams[t].org, NextIdentifier(db.teams, t)) !in db.aliases))
  }

  /** The tables after a change differ from those before it only in ways the change's activity record accounts for. */
  ghost predicate Advances(db: Db, change: Change) {
    && change.db.activity == db.activity
    && change.db.commands == db.commands
    && (forall o :: o in db.workspaces ==> o in change.db.workspaces)
    && Names(db, change.db)
    && (forall t :: Moves(TeamRevision(db, t), TeamRevision(change.db, t),
                          change.row.kind == TeamEntity && change.row.entity == t, change.row.revision))
    && (forall p :: Moves(ProjectRevision(db, p), ProjectRevision(change.db, p),
                          change.row.kind == ProjectEntity && change.row.entity == p, change.row.revision))
    && (forall i :: Moves(IssueRevision(db, i), IssueRevision(change.db, i),
                          change.row.kind == IssueEntity && change.row.entity == i, change.row.revision))
  }

  ghost predicate Keeps(db: Db, result: Result<Change, StorageError>) {
    result.Ok? ==> Structural(result.value.db) && Advances(db, result.value)
  }

  /** Kinds of record that do not number the revisions of a Team, Project or Issue. */
  predicate OutsideHistory(kind: EntityKind) {
    kind != TeamEntity && kind != ProjectEntity && kind != IssueEntity
  }

  // ---- Default catalogs

  lemma {:induction false} InsertStatusesFacts(statuses: map<Id, Status>, org: Id, ids: FreshIds, n: nat)
    requires n <= 6 && InsertStatuses(statuses, org, ids, n).Some?
    ensures var m := InsertStatuses(statuses, org, ids, n).value;
            && (forall s :: s in statuses ==> s in m && m[s] == statuses[s])
            && (forall s :: s in m ==> s in statuses || s in ids[..n])
            && (forall k :: 0 <= k < n ==>
                  ids[k] !in statuses && ids[k] in m
                  && m[ids[k]] == Status(org, STATUS_DEFAULTS[k].0, STATUS_DEFAULTS[k].1, k, k == 0, false, 1))
  {
    hide StatusNameTaken;
    if n > 0 {
      InsertStatusesFacts(statuses, org, ids, n - 1);
      assert ids[..n] == ids[..n - 1] + [ids[n - 1]];
      var m := InsertStatuses(statuses, org, ids, n - 1).value;
      forall k | 0 <= k < n - 1 ensures ids[k] != ids[n - 1] {
        assert ids[k] in m;
      }
    }
  }

  lemma {:induction false} InsertStatesFacts(states: map<Id, WorkflowState>, org: Id, team: Id, ids: FreshIds, n: nat)
    requires n <= 5 && InsertStates(states, org, team, ids, n).Some?
    ensures var m := InsertStates(states, org, team, ids, n).value;
            && (forall s :: s in states ==> s in m && m[s] == states[s])
            && (forall s :: s in m && s !in states ==> m[s].org == org && m[s].team == team && m[s].revision == 1)
            && (forall s :: s in m ==> s in states || s in ids[6..][..n])
            && (forall k :: 0 <= k < n ==>
                  var id := ids[6..][k];
                  id !in states && id in m
                  && m[id] == WorkflowState(org, team, STATE_DEFAULTS[k].0, STATE_DEFAULTS[k].1, k, false, 1))
  {
    hide StateNameTaken;
    if n > 0 {
      InsertStatesFacts(states, org, team, ids, n - 1);
      assert ids[6..][..n] == ids[6..][..n - 1] + [ids[6..][n - 1]];
      var m := InsertStates(states, org, team, ids, n - 1).value;
      forall k | 0 <= k < n - 1 ensures ids[6..][k] != ids[6..][n - 1] {
        assert ids[6..][k] in m;
      }
    }
  }

  lemma NewCatalogStatuses(workspaces: map<Id, Id>, statuses: map<Id, Status>, org: Id, ids: FreshIds)
    requires StatusesOk(workspaces, statuses) && org !in workspaces
    requires InsertStatuses(statuses, org, ids, 6).Some?
    ensures StatusesOk(workspaces[org := ids[0]], InsertStatuses(statuses, org, ids, 6).value)
    ensures forall s :: s in statuses ==>
              s in InsertStatuses(statuses, org, ids, 6).value
              && InsertStatuses(statuses, org, ids, 6).value[s] == statuses[s]
  {
    InsertStatusesFacts(statuses, org, ids, 6);
    var w, m := workspaces[org := ids[0]], InsertStatuses(statuses, org, ids, 6).value;
    forall s | s in m
      ensures m[s].org in w && m[s].revision > 0 && (m[s].isDefault <==> w[m[s].org] == s)
    {
      if s !in statuses {
        var k :| 0 <= k < 6 && ids[k] == s;
      }
    }
  }

  lemma MoreStatusesProjects(db: Db, statuses: map<Id, Status>)
    requires ProjectsOk(db.teams, db.statuses, db.projects)
    requires forall s :: s in db.statuses ==> s in statuses && statuses[s] == db.statuses[s]
    ensures ProjectsOk(db.teams, statuses, db.projects)
  {
    forall p | p in db.projects ensures ProjectOk(db.teams, statuses, db.projects[p]) {
      assert ProjectOk(db.teams, db.statuses, db.projects[p]);
    }
  }

  lemma CatalogSwap(db: Db, workspaces: map<Id, Id>, statuses: map<Id, Status>)
    requires Structural(db)
    requires StatusesOk(workspaces, statuses) && ProjectsOk(db.teams, statuses, db.projects)
    ensures Structural(db.(workspaces := workspaces, statuses := statuses))
  {
  }

  lemma EnsureCatalogShape(db: Db, org: Id, ids: FreshIds)
    requires EnsureCatalog(db, org, ids).Ok?
    ensures var ready := EnsureCatalog(db, org, ids).value;
            && org in ready.workspaces
            && (forall o :: o in db.workspaces ==> o in ready.workspaces)
            && ready == db.(workspaces := ready.workspaces, statuses := ready.statuses)
            && (org !in db.workspaces ==>
                  InsertStatuses(db.statuses, org, ids, 6) == Some(ready.statuses)
                  && ready.workspaces == db.workspaces[org := ids[0]])
            && (org in db.workspaces ==> ready == db)
  {
  }

  lemma CatalogKeeps(db: Db, org: Id, ids: FreshIds)
    requires Structural(db) && EnsureCatalog(db, org, ids).Ok?
    ensures var ready := EnsureCatalog(db, org, ids).value;
            && Structural(ready) && org in ready.workspaces
            && (forall o :: o in db.workspaces ==> o in ready.workspaces)
            && ready == db.(workspaces := ready.workspaces, statuses := ready.statuses)
  {
    EnsureCatalogShape(db, org, ids);
    if org !in db.workspaces {
      var ready := EnsureCatalog(db, org, ids).value;
      NewCatalogStatuses(db.workspaces, db.statuses, org, ids);
      MoreStatusesProjects(db, ready.statuses);
      CatalogSwap(db, ready.workspaces, ready.statuses);
    }
  }

  // ---- Workflow states

  /** A state row that may be written: it stays with its Team and category, and is archived only when unused. */
  ghost predicate StateFits(db: Db, s: Id, row: WorkflowState) {
    && row.revision > 0 && TeamExists(db, row.org, row.team)
    && (s in db.states ==>
          row.org == db.states[s].org && row.team == db.states[s].team && row.category == db.states[s].category)
    && (row.archived ==> !IsDefaultState(db, row.org, row.team, s) && !StateReferenced(db.issues, row.org, s))
  }

  lemma StatePutStates(db: Db, s: Id, row: WorkflowState)
    requires StatesOk(db.teams, db.states) && DefaultsOk(db.teams, db.states) && StateFits(db, s, row)
    ensures StatesOk(db.teams, db.states[s := row]) && DefaultsOk(db.teams, db.states[s := row])
  {
  }

  lemma StatePutIssues(db: Db, s: Id, row: WorkflowState)
    requires IssuesOk(db.projects, db.states, db.issues) && StateFits(db, s, row)
    ensures IssuesOk(db.projects, db.states[s := row], db.issues)
  {
    forall i | i in db.issues ensures IssueOk(db.projects, db.states[s := row], db.issues[i]) {
      assert IssueOk(db.projects, db.states, db.issues[i]);
    }
  }

  lemma StatesSwap(db: Db, states: map<Id, WorkflowState>)
    requires Structural(db)
    requires StatesOk(db.teams, states) && DefaultsOk(db.teams, states) && IssuesOk(db.projects, states, db.issues)
    ensures Structural(db.(states := states))
  {
  }

  /** A state write recorded as such advances no Team, Project or Issue. */
  lemma CatalogAdvances(db: Db, change: Change)
    requires change.db == db.(states := change.db.states, statuses := change.db.statuses, members := change.db.members)
    requires OutsideHistory(change.row.kind)
    ensures Advances(db, change)
  {
  }

  lemma PutStateShape(db: Db, actor: Id, r: Request)
    requires r.PutState? && PutStateBody(db, actor, r).Ok?
    requires r.state in db.states ==> TeamExists(db, db.states[r.state].org, db.states[r.state].team)
    requires r.state in db.states && db.states[r.state].archived ==>
               var s := db.states[r.state];
               !IsDefaultState(db, s.org, s.team, r.state) && !StateReferenced(db.issues, s.org, r.state)
    ensures var change := PutStateBody(db, actor, r).value;
            && r.state in change.db.states && StateFits(db, r.state, change.db.states[r.state])
            && change.db == db.(states := db.states[r.state := change.db.states[r.state]])
            && change.row.kind == StateEntity
  {
  }

  /** An archived state is nobody's default and no Issue is in it. */
  lemma ArchivedStateUnused(db: Db, s: Id)
    requires DefaultsOk(db.teams, db.states) && IssuesOk(db.projects, db.states, db.issues)
    requires s in db.states && db.states[s].archived
    ensures !IsDefaultState(db, db.states[s].org, db.states[s].team, s)
    ensures !StateReferenced(db.issues, db.states[s].org, s)
  {
    forall i | i in db.issues ensures db.issues[i].state != s {
      assert IssueOk(db.projects, db.states, db.issues[i]);
    }
  }

  lemma PutStateKeeps(db: Db, actor: Id, r: Request)
    requires Structural(db) && r.PutState?
    ensures Keeps(db, PutStateBody(db, actor, r))
  {
    if PutStateBody(db, actor, r).Ok? {
      if r.state in db.states && db.states[r.state].archived {
        ArchivedStateUnused(db, r.state);
      }
      PutStateShape(db, actor, r);
      StateWriteKeeps(db, r.state, PutStateBody(db, actor, r).value);
    }
  }

  lemma StateWriteKeeps(db: Db, s: Id, change: Change)
    requires Structural(db) && s in change.db.states && StateFits(db, s, change.db.states[s])
    requires change.db == db.(states := db.states[s := change.db.states[s]]) && OutsideHistory(change.row.kind)
    ensures Structural(change.db) && Advances(db, change)
  {
    StatePutStates(db, s, change.db.states[s]);
    StatePutIssues(db, s, change.db.states[s]);
    StatesSwap(db, change.db.states);
    CatalogAdvances(db, change);
  }

  lemma ArchiveStateShape(db: Db, actor: Id, r: Request)
    requires r.ArchiveState? && ArchiveStateBody(db, actor, r).Ok?
    requires TeamExists(db, db.states[r.state].org, db.states[r.state].team)
    ensures var change := ArchiveStateBody(db, actor, r).value;
            && r.state in change.db.states && StateFits(db, r.state, change.db.states[r.state])
            && change.db == db.(states := db.states[r.state := change.db.states[r.state]])
            && change.row.kind == StateEntity
  {
  }

  lemma ArchiveStateKeeps(db: Db, actor: Id, r: Request)
    requires Structural(db) && r.ArchiveState?
    ensures Keeps(db, ArchiveStateBody(db, actor, r))
  {
    if ArchiveStateBody(db, actor, r).Ok? {
      ArchiveStateShape(db, actor, r);
      StateWriteKeeps(db, r.state, ArchiveStateBody(db, actor, r).value);
    }
  }

  lemma StateDeleteStates(db: Db, s: Id)
    requires s in db.states && StatesOk(db.teams, db.states) && DefaultsOk(db.teams, db.states)
    requires !IsDefaultState(db, db.states[s].org, db.states[s].team, s)
    ensures StatesOk(db.teams, db.states - {s}) && DefaultsOk(db.teams, db.states - {s})
  {
  }

  lemma StateDeleteIssues(db: Db, s: Id)
    requires s in db.states && IssuesOk(db.projects, db.states, db.issues)
    requires forall i :: i in db.issues ==> db.issues[i].state != s
    ensures IssuesOk(db.projects, db.states - {s}, db.issues)
  {
    forall i | i in db.issues ensures IssueOk(db.projects, db.states - {s}, db.issues[i]) {
      assert IssueOk(db.projects, db.states, db.issues[i]);
    }
  }

  lemma DeleteStateShape(db: Db, actor: Id, r: Request)
    requires r.DeleteState? && DeleteStateBody(db, actor, r).Ok?
    ensures var change := DeleteStateBody(db, actor, r).value;
            && StateExists(db, r.org, r.team, r.state) && db.states[r.state].archived
            && !IsDefaultState(db, r.org, r.team, r.state)
            && change.db == db.(states := db.states - {r.state}) && change.row.kind == StateEntity
  {
  }

  lemma DeleteStateKeeps(db: Db, actor: Id, r: Request)
    requires Structural(db) && r.DeleteState?
    ensures Keeps(db, DeleteStateBody(db, actor, r))
  {
    if DeleteStateBody(db, actor, r).Ok? {
      DeleteStateShape(db, actor, r);
      forall i | i in db.issues ensures db.issues[i].state != r.state {
        assert IssueOk(db.projects, db.states, db.issues[i]);
      }
      StateDeleteStates(db, r.state);
      StateDeleteIssues(db, r.state);
      StatesSwap(db, db.states - {r.state});
      CatalogAdvances(db, DeleteStateBody(db, actor, r).value);
    }
  }

  /** Two state tables that differ only in names, positions and revisions. */
  ghost predicate SameStates(a: map<Id, WorkflowState>, b: map<Id, WorkflowState>) {
    && (forall s :: s in a <==> s in b)
    && (forall s :: s in a ==>
          && a[s].org == b[s].org && a[s].team == b[s].team && a[s].category == b[s].category
          && a[s].archived == b[s].archived && b[s].revision >= a[s].revision)
  }

  lemma SameStatesStates(teams: map<Id, Team>, a: map<Id, WorkflowState>, b: map<Id, WorkflowState>)
    requires SameStates(a, b) && StatesOk(teams, a) && DefaultsOk(teams, a)
    ensures StatesOk(teams, b) && DefaultsOk(teams, b)
  {
  }

  lemma SameStatesIssues(projects: map<Id, Project>, issues: map<Id, Issue>,
                         a: map<Id, WorkflowState>, b: map<Id, WorkflowState>)
    requires SameStates(a, b) && IssuesOk(projects, a, issues)
    ensures IssuesOk(projects, b, issues)
  {
    forall i | i in issues ensures IssueOk(projects, b, issues[i]) {
      assert IssueOk(projects, a, issues[i]);
    }
  }

  lemma ReorderStatesShape(db: Db, actor: Id, r: Request)
    requires r.ReorderStates? && Shaped(r) && ReorderStatesBody(db, actor, r).Ok?
    ensures var change := ReorderStatesBody(db, actor, r).value;
            && SameStates(db.states, change.db.states)
            && change.db == db.(states := change.db.states) && change.row.kind == StateCatalog
  {
  }

  lemma ReorderStatesKeeps(db: Db, actor: Id, r: Request)
    requires Structural(db) && r.ReorderStates? && Shaped(r)
    ensures Keeps(db, ReorderStatesBody(db, actor, r))
  {
    if ReorderStatesBody(db, actor, r).Ok? {
      var change := ReorderStatesBody(db, actor, r).value;
      ReorderStatesShape(db, actor, r);
      SameStatesStates(db.teams, db.states, change.db.states);
      SameStatesIssues(db.projects, db.issues, db.states, change.db.states);
      StatesSwap(db, change.db.states);
      CatalogAdvances(db, change);
    }
  }

  lemma SetMemberKeeps(db: Db, actor: Id, r: Request)
    requires Structural(db) && r.SetMember?
    ensures Keeps(db, SetMemberBody(db, actor, r))
  {
    if SetMemberBody(db, actor, r).Ok? {
      SetMemberShape(db, actor, r);
      MembersSwap(db, SetMemberBody(db, actor, r).value.db.members);
      CatalogAdvances(db, SetMemberBody(db, actor, r).value);
    }
  }

  lemma SetMemberShape(db: Db, actor: Id, r: Request)
    requires r.SetMember? && SetMemberBody(db, actor, r).Ok?
    ensures var change := SetMemberBody(db, actor, r).value;
            change.db == db.(members := change.db.members) && change.row.kind == MemberEntity
  {
  }

  lemma MembersSwap(db: Db, members: map<(Id, Id), Member>)
    requires Structural(db)
    ensures Structural(db.(members := members))
  {
  }

  // ---- Project statuses

  ghost predicate StatusFits(db: Db, s: Id, row: Status) {
    && row.revision > 0 && row.org in db.workspaces
    && (s in db.statuses ==>
          row.org == db.statuses[s].org && row.category == db.statuses[s].category
          && row.isDefault == db.statuses[s].isDefault)
    && (s !in db.statuses ==> !row.isDefault)
    && (row.archived ==> !row.isDefault && !StatusReferenced(db.projects, row.org, s))
  }

  lemma StatusPutStatuses(db: Db, s: Id, row: Status)
    requires StatusesOk(db.workspaces, db.statuses) && StatusFits(db, s, row)
    ensures StatusesOk(db.workspaces, db.statuses[s := row])
  {
  }

  lemma StatusPutProjects(db: Db, s: Id, row: Status)
    requires ProjectsOk(db.teams, db.statuses, db.projects) && StatusFits(db, s, row)
    ensures ProjectsOk(db.teams, db.statuses[s := row], db.projects)
  {
    forall p | p in db.projects ensures ProjectOk(db.teams, db.statuses[s := row], db.projects[p]) {
      assert ProjectOk(db.teams, db.statuses, db.projects[p]);
    }
  }

  lemma StatusesSwap(db: Db, statuses: map<Id, Status>)
    requires Structural(db)
    requires StatusesOk(db.workspaces, statuses) && ProjectsOk(db.teams, statuses, db.projects)
    ensures Structural(db.(statuses := statuses))
  {
  }

  lemma StatusWriteKeeps(db: Db, s: Id, change: Change)
    requires Structural(db) && s in change.db.statuses && StatusFits(db, s, change.db.statuses[s])
    requires change.db == db.(statuses := db.statuses[s := change.db.statuses[s]]) && OutsideHistory(change.row.kind)
    ensures Structural(change.db) && Advances(db, change)
  {
    StatusPutStatuses(db, s, change.db.statuses[s]);
    StatusPutProjects(db, s, change.db.statuses[s]);
    StatusesSwap(db, change.db.statuses);
    CatalogAdvances(db, change);
  }

  /** An archived status is not the default and no Project is in it. */
  lemma ArchivedStatusUnused(db: Db, s: Id)
    requires StatusesOk(db.workspaces, db.statuses) && ProjectsOk(db.teams, db.statuses, db.projects)
    requires s in db.statuses && db.statuses[s].archived
    ensures !db.statuses[s].isDefault
    ensures !StatusReferenced(db.projects, db.statuses[s].org, s)
  {
    forall p | p in db.projects ensures db.projects[p].status != s {
      assert ProjectOk(db.teams, db.statuses, db.projects[p]);
    }
  }

  lemma PutStatusShape(db: Db, actor: Id, r: Request)
    requires r.PutStatus? && PutStatusBody(db, actor, r).Ok? && r.org in db.workspaces
    requires r.status in db.statuses && db.statuses[r.status].archived ==>
               !db.statuses[r.status].isDefault && !StatusReferenced(db.projects, db.statuses[r.status].org, r.status)
    ensures var change := PutStatusBody(db, actor, r).value;
            && r.status in change.db.statuses && StatusFits(db, r.status, change.db.statuses[r.status])
            && change.db == db.(statuses := db.statuses[r.status := change.db.statuses[r.status]])
            && change.row.kind == StatusEntity
  {
  }

  lemma PutStatusKeeps(db: Db, actor: Id, r: Request)
    requires Structural(db) && r.PutStatus? && r.org in db.workspaces
    ensures Keeps(db, PutStatusBody(db, actor, r))
  {
    if PutStatusBody(db, actor, r).Ok? {
      if r.status in db.statuses && db.statuses[r.status].archived {
        ArchivedStatusUnused(db, r.status);
      }
      PutStatusShape(db, actor, r);
      StatusWriteKeeps(db, r.status, PutStatusBody(db, actor, r).value);
    }
  }

  lemma ArchiveStatusShape(db: Db, actor: Id, r: Request)
    requires r.ArchiveStatus? && ArchiveStatusBody(db, actor, r).Ok? && r.org in db.workspaces
    ensures var change := ArchiveStatusBody(db, actor, r).value;
            && r.status in change.db.statuses && StatusFits(db, r.status, change.db.statuses[r.status])
            && change.db == db.(statuses := db.statuses[r.status := change.db.statuses[r.status]])
            && change.row.kind == StatusEntity
  {
  }

  lemma ArchiveStatusKeeps(db: Db, actor: Id, r: Request)
    requires Structural(db) && r.ArchiveStatus? && r.org in db.workspaces
    ensures Keeps(db, ArchiveStatusBody(db, actor, r))
  {
    if ArchiveStatusBody(db, actor, r).Ok? {
      ArchiveStatusShape(db, actor, r);
      StatusWriteKeeps(db, r.status, ArchiveStatusBody(db, actor, r).value);
    }
  }

  lemma StatusDeleteKeeps(db: Db, s: Id)
    requires s in db.statuses && StatusesOk(db.workspaces, db.statuses) && !db.statuses[s].isDefault
    requires ProjectsOk(db.teams, db.statuses, db.projects)
    requires forall p :: p in db.projects ==> db.projects[p].status != s
    ensures StatusesOk(db.workspaces, db.statuses - {s}) && ProjectsOk(db.teams, db.statuses - {s}, db.projects)
  {
    forall p | p in db.projects ensures ProjectOk(db.teams, db.statuses - {s}, db.projects[p]) {
      assert ProjectOk(db.teams, db.statuses, db.projects[p]);
    }
  }

  lemma DeleteStatusShape(db: Db, actor: Id, r: Request)
    requires r.DeleteStatus? && DeleteStatusBody(db, actor, r).Ok?
    ensures var change := DeleteStatusBody(db, actor, r).value;
            && r.status in db.statuses && db.statuses[r.status].archived && !db.statuses[r.status].isDefault
            && change.db == db.(statuses := db.statuses - {r.status}) && change.row.kind == StatusEntity
  {
  }

  lemma DeleteStatusKeeps(db: Db, actor: Id, r: Request)
    requires Structural(db) && r.DeleteStatus?
    ensures Keeps(db, DeleteStatusBody(db, actor, r))
  {
    if DeleteStatusBody(db, actor, r).Ok? {
      DeleteStatusShape(db, actor, r);
      forall p | p in db.projects ensures db.projects[p].status != r.status {
        assert ProjectOk(db.teams, db.statuses, db.projects[p]);
      }
      StatusDeleteKeeps(db, r.status);
      StatusesSwap(db, db.statuses - {r.status});
      CatalogAdvances(db, DeleteStatusBody(db, actor, r).value);
    }
  }

  ghost predicate SameStatuses(a: map<Id, Status>, b: map<Id, Status>) {
    && (forall s :: s in a <==> s in b)
    && (forall s :: s in a ==>
          && a[s].org == b[s].org && a[s].category == b[s].category && a[s].isDefault == b[s].isDefault
          && a[s].archived == b[s].archived && b[s].revision >= a[s].revision)
  }

  lemma SameStatusesKeep(db: Db, b: map<Id, Status>)
    requires SameStatuses(db.statuses, b)
    requires StatusesOk(db.workspaces, db.statuses) && ProjectsOk(db.teams, db.statuses, db.projects)
    ensures StatusesOk(db.workspaces, b) && ProjectsOk(db.teams, b, db.projects)
  {
    forall p | p in db.projects ensures ProjectOk(db.teams, b, db.projects[p]) {
      assert ProjectOk(db.teams, db.statuses, db.projects[p]);
    }
  }

  lemma ReorderStatusesShape(db: Db, actor: Id, r: Request)
    requires r.ReorderStatuses? && Shaped(r) && ReorderStatusesBody(db, actor, r).Ok?
    ensures var change := ReorderStatusesBody(db, actor, r).value;
            && SameStatuses(db.statuses, change.db.statuses)
            && change.db == db.(statuses := change.db.statuses) && change.row.kind == StatusCatalog
  {
  }

  lemma ReorderStatusesKeeps(db: Db, actor: Id, r: Request)
    requires Structural(db) && r.ReorderStatuses? && Shaped(r)
    ensures Keeps(db, ReorderStatusesBody(db, actor, r))
  {
    if ReorderStatusesBody(db, actor, r).Ok? {
      var change := ReorderStatusesBody(db, actor, r).value;
      ReorderStatusesShape(db, actor, r);
      SameStatusesKeep(db, change.db.statuses);
      StatusesSwap(db, change.db.statuses);
      CatalogAdvances(db, change);
    }
  }

  // ---- Teams

  lemma PutTeamShape(db: Db, actor: Id, r: Request, ids: FreshIds)
    requires r.PutTeam? && PutTeamBody(db, actor, r, ids).Ok?
    ensures var change := PutTeamBody(db, actor, r, ids).value;
            && change.db == db.(teams := change.db.teams, states := change.db.states)
            && r.team in change.db.teams && change.db.teams == db.teams[r.team := change.db.teams[r.team]]
            && change.row.kind == TeamEntity && change.row.entity == r.team
            && change.row.revision == Some(change.db.teams[r.team].revision)
            && var t := change.db.teams[r.team];
               && t.org == r.org && t.key == r.key && ValidKey(t.key)
               && t.nextNumber == (if r.team in db.teams then db.teams[r.team].nextNumber else 1)
               && !KeyOwned(db.teams, r.org, r.key, r.team)
               && (if r.team in db.teams then
                     && db.teams[r.team].org == r.org && t.revision == db.teams[r.team].revision + 1
                     && change.db.states == db.states && t.defaultState in db.states
                     && var d := db.states[t.defaultState];
                        d.org == r.org && d.team == r.team && d.category == Unstarted && !d.archived
                   else
                     && t.revision == 1 && t.defaultState == ids[6 + TODO]
                     && InsertStates(db.states, r.org, r.team, ids, 5) == Some(change.db.states))
  {
  }

  lemma TeamWriteTeams(db: Db, team: Id, t: Team)
    requires TeamsOk(db.teams) && ValidKey(t.key) && t.nextNumber > 0 && t.revision > 0
    requires !KeyOwned(db.teams, t.org, t.key, team)
    ensures TeamsOk(db.teams[team := t])
  {
  }

  lemma NewTeamStates(db: Db, org: Id, team: Id, t: Team, ids: FreshIds, states: map<Id, WorkflowState>)
    requires StatesOk(db.teams, db.states) && DefaultsOk(db.teams, db.states)
    requires team !in db.teams && t.org == org && t.defaultState == ids[6 + TODO]
    requires InsertStates(db.states, org, team, ids, 5) == Some(states)
    ensures StatesOk(db.teams[team := t], states) && DefaultsOk(db.teams[team := t], states)
    ensures forall s :: s in db.states ==> s in states && states[s] == db.states[s]
  {
    InsertStatesFacts(db.states, org, team, ids, 5);
    assert ids[6..][TODO] == ids[6 + TODO];
    assert STATE_DEFAULTS[TODO] == ("Todo", Unstarted);
    assert states[ids[6 + TODO]] == WorkflowState(org, team, "Todo", Unstarted, 1, false, 1);
  }

  lemma ChangedTeamStates(db: Db, team: Id, t: Team)
    requires StatesOk(db.teams, db.states) && DefaultsOk(db.teams, db.states)
    requires team in db.teams && t.org == db.teams[team].org && t.defaultState in db.states
    requires var d := db.states[t.defaultState];
             d.org == t.org && d.team == team && d.category == Unstarted && !d.archived
    ensures StatesOk(db.teams[team := t], db.states) && DefaultsOk(db.teams[team := t], db.states)
  {
  }

  lemma TeamWriteProjects(db: Db, team: Id, t: Team)
    requires ProjectsOk(db.teams, db.statuses, db.projects)
    requires team in db.teams ==> t.org == db.teams[team].org
    ensures ProjectsOk(db.teams[team := t], db.statuses, db.projects)
  {
    forall p | p in db.projects ensures ProjectOk(db.teams[team := t], db.statuses, db.projects[p]) {
      assert ProjectOk(db.teams, db.statuses, db.projects[p]);
    }
  }

  lemma MoreStatesIssues(db: Db, states: map<Id, WorkflowState>)
    requires IssuesOk(db.projects, db.states, db.issues)
    requires forall s :: s in db.states ==> s in states && states[s] == db.states[s]
    ensures IssuesOk(db.projects, states, db.issues)
  {
    forall i | i in db.issues ensures IssueOk(db.projects, states, db.issues[i]) {
      assert IssueOk(db.projects, db.states, db.issues[i]);
    }
  }

  lemma TeamsSwap(db: Db, teams: map<Id, Team>, states: map<Id, WorkflowState>)
    requires Structural(db)
    requires TeamsOk(teams) && StatesOk(teams, states) && DefaultsOk(teams, states)
    requires ProjectsOk(teams, db.statuses, db.projects) && IssuesOk(db.projects, states, db.issues)
    ensures Structural(db.(teams := teams, states := states))
  {
  }

  lemma TeamAdvances(db: Db, team: Id, change: Change)
    requires change.db == db.(teams := change.db.teams, states := change.db.states)
    requires team in change.db.teams && change.db.teams == db.teams[team := change.db.teams[team]]
    requires change.db.teams[team].revision == TeamRevision(db, team) + 1
    requires change.row.kind == TeamEntity && change.row.entity == team
    requires change.row.revision == Some(change.db.teams[team].revision)
    requires team in db.teams ==>
               change.db.teams[team].org == db.teams[team].org
               && change.db.teams[team].nextNumber == db.teams[team].nextNumber
    ensures Advances(db, change)
  {
  }

  lemma PutTeamKeeps(db: Db, actor: Id, r: Request, ids: FreshIds)
    requires Structural(db) && r.PutTeam?
    ensures Keeps(db, PutTeamBody(db, actor, r, ids))
  {
    if PutTeamBody(db, actor, r, ids).Ok? {
      var change := PutTeamBody(db, actor, r, ids).value;
      PutTeamShape(db, actor, r, ids);
      PutTeamTables(db, r, ids, change);
      TeamAdvances(db, r.team, change);
    }
  }

  lemma PutTeamTables(db: Db, r: Request, ids: FreshIds, change: Change)
    requires Structural(db) && r.PutTeam?
    requires change.db == db.(teams := change.db.teams, states := change.db.states)
    requires r.team in change.db.teams && change.db.teams == db.teams[r.team := change.db.teams[r.team]]
    requires var t := change.db.teams[r.team];
             && t.org == r.org && t.key == r.key && ValidKey(t.key) && t.nextNumber > 0 && t.revision > 0
             && !KeyOwned(db.teams, r.org, r.key, r.team)
             && (if r.team in db.teams then
                   && db.teams[r.team].org == r.org
                   && change.db.states == db.states && t.defaultState in db.states
                   && var d := db.states[t.defaultState];
                      d.org == r.org && d.team == r.team && d.category == Unstarted && !d.archived
                 else
                   && t.defaultState == ids[6 + TODO]
                   && InsertStates(db.states, r.org, r.team, ids, 5) == Some(change.db.states))
    ensures Structural(change.db)
  {
    var t := change.db.teams[r.team];
    TeamWriteTeams(db, r.team, t);
    if r.team in db.teams {
      ChangedTeamStates(db, r.team, t);
    } else {
      NewTeamStates(db, r.org, r.team, t, ids, change.db.states);
    }
    TeamWriteProjects(db, r.team, t);
    MoreStatesIssues(db, change.db.states);
    TeamsSwap(db, change.db.teams, change.db.states);
  }

  // ---- Projects

  lemma ProjectsSwap(db: Db, projects: map<Id, Project>)
    requires Structural(db)
    requires ProjectsOk(db.teams, db.statuses, projects) && IssuesOk(projects, db.states, db.issues)
    ensures Structural(db.(projects := projects))
  {
  }

  lemma ProjectWriteIssues(db: Db, project: Id, p: Project)
    requires IssuesOk(db.projects, db.states, db.issues)
    requires project in db.projects ==> p.org == db.projects[project].org
    requires forall i :: i in db.issues && db.issues[i].project == project ==> db.issues[i].team in p.teams
    ensures IssuesOk(db.projects[project := p], db.states, db.issues)
  {
    forall i | i in db.issues ensures IssueOk(db.projects[project := p], db.states, db.issues[i]) {
      assert IssueOk(db.projects, db.states, db.issues[i]);
    }
  }

  lemma ProjectAdvances(db: Db, project: Id, change: Change)
    requires project in change.db.projects
    requires change.db == db.(projects := db.projects[project := change.db.projects[project]])
    requires change.db.projects[project].revision == ProjectRevision(db, project) + 1
    requires change.row.kind == ProjectEntity && change.row.entity == project
    requires change.row.revision == Some(change.db.projects[project].revision)
    ensures Advances(db, change)
  {
  }

  ghost predicate ProjectWrite(db: Db, project: Id, change: Change) {
    && project in change.db.projects
    && change.db == db.(projects := db.projects[project := change.db.projects[project]])
    && change.db.projects[project].revision == ProjectRevision(db, project) + 1
    && change.row.kind == ProjectEntity && change.row.entity == project
    && change.row.revision == Some(change.db.projects[project].revision)
    && (project in db.projects ==> change.db.projects[project].org == db.projects[project].org)
  }

  lemma ProjectWriteKeeps(db: Db, project: Id, change: Change)
    requires Structural(db) && ProjectWrite(db, project, change)
    requires ProjectOk(db.teams, db.statuses, change.db.projects[project])
    requires forall i :: i in db.issues && db.issues[i].project == project ==>
               db.issues[i].team in change.db.projects[project].teams
    ensures Structural(change.db) && Advances(db, change)
  {
    ProjectWriteIssues(db, project, change.db.projects[project]);
    ProjectsSwap(db, change.db.projects);
    ProjectAdvances(db, project, change);
  }

  lemma CreateProjectShape(db: Db, actor: Id, now: int, r: Request)
    requires r.CreateProject? && r.org in db.workspaces && CreateProjectBody(db, actor, now, r).Ok?
    ensures var change := CreateProjectBody(db, actor, now, r).value;
            && ProjectWrite(db, r.project, change) && r.project !in db.projects
            && ProjectOk(db.teams, db.statuses, change.db.projects[r.project])
  {
    assert r.teamIds[0] in CreateProjectBody(db, actor, now, r).value.db.projects[r.project].teams;
  }

  lemma CreateProjectKeeps(db: Db, actor: Id, now: int, r: Request)
    requires Structural(db) && r.CreateProject? && r.org in db.workspaces
    ensures Keeps(db, CreateProjectBody(db, actor, now, r))
  {
    if CreateProjectBody(db, actor, now, r).Ok? {
      CreateProjectShape(db, actor, now, r);
      forall i | i in db.issues ensures db.issues[i].project != r.project {
        assert IssueOk(db.projects, db.states, db.issues[i]);
      }
      ProjectWriteKeeps(db, r.project, CreateProjectBody(db, actor, now, r).value);
    }
  }

  lemma UpdateProjectShape(db: Db, actor: Id, now: int, r: Request)
    requires r.UpdateProject? && r.org in db.workspaces && UpdateProjectBody(db, actor, now, r).Ok?
    ensures var change := UpdateProjectBody(db, actor, now, r).value;
            && ProjectWrite(db, r.project, change)
            && change.db.projects[r.project].org == r.org
            && change.db.projects[r.project].teams == (set t | t in r.teamIds)
            && ProjectOk(db.teams, db.statuses, change.db.projects[r.project])
            && IssueTeamsCovered(db.issues, r.org, r.project, r.teamIds)
  {
    assert r.teamIds[0] in UpdateProjectBody(db, actor, now, r).value.db.projects[r.project].teams;
  }

  lemma UpdateProjectKeeps(db: Db, actor: Id, now: int, r: Request)
    requires Structural(db) && r.UpdateProject? && r.org in db.workspaces
    ensures Keeps(db, UpdateProjectBody(db, actor, now, r))
  {
    if UpdateProjectBody(db, actor, now, r).Ok? {
      UpdateProjectShape(db, actor, now, r);
      var change := UpdateProjectBody(db, actor, now, r).value;
      forall i | i in db.issues && db.issues[i].project == r.project
        ensures db.issues[i].team in change.db.projects[r.project].teams
      {
        assert IssueOk(db.projects, db.states, db.issues[i]);
      }
      ProjectWriteKeeps(db, r.project, change);
    }
  }

  lemma ArchiveProjectShape(db: Db, actor: Id, r: Request)
    requires r.ArchiveProject? && ArchiveProjectBody(db, actor, r).Ok?
    ensures var change := ArchiveProjectBody(db, actor, r).value;
            && r.project in db.projects && ProjectWrite(db, r.project, change)
            && change.db.projects[r.project] == db.projects[r.project].(
                 archived := r.archived, revision := db.projects[r.project].revision + 1)
  {
  }

  lemma ArchiveProjectKeeps(db: Db, actor: Id, r: Request)
    requires Structural(db) && r.ArchiveProject?
    ensures Keeps(db, ArchiveProjectBody(db, actor, r))
  {
    hide ArchiveProjectBody;
    if ArchiveProjectBody(db, actor, r).Ok? {
      ArchiveProjectShape(db, actor, r);
      assert ProjectOk(db.teams, db.statuses, db.projects[r.project]);
      forall i | i in db.issues && db.issues[i].project == r.project
        ensures db.issues[i].team in db.projects[r.project].teams
      {
        assert IssueOk(db.projects, db.states, db.issues[i]);
      }
      ProjectWriteKeeps(db, r.project, ArchiveProjectBody(db, actor, r).value);
    }
  }

  // ---- Issues

  lemma IssueKeepsParents(issues: map<Id, Issue>, issue: Id, row: Issue)
    requires ParentsOk(issues) && (issue in issues ==> row.org == issues[issue].org)
    requires row.parent.Some? ==> row.parent.value in issues && issues[row.parent.value].org == row.org
    ensures ParentsOk(issues[issue := row])
  {
    var after := issues[issue := row];
    forall i | i in after && after[i].parent.Some?
      ensures after[i].parent.value in after && after[after[i].parent.value].org == after[i].org
    {
      if i != issue {
        assert issues[i].parent.value in issues;
      }
    }
  }

  /** A change of one Issue row, recorded with the row's new revision. */
  ghost predicate IssueWrite(db: Db, issue: Id, change: Change) {
    && issue in change.db.issues
    && change.db == db.(teams := change.db.teams, issues := db.issues[issue := change.db.issues[issue]],
                        aliases := change.db.aliases)
    && change.db.issues[issue].revision == IssueRevision(db, issue) + 1
    && change.row.kind == IssueEntity && change.row.entity == issue
    && change.row.revision == Some(change.db.issues[issue].revision)
    && (issue in db.issues ==>
          change.db.issues[issue].org == db.issues[issue].org
          && change.db.issues[issue].project == db.issues[issue].project)
  }

  /** Either no identifier is taken, or a Team's next one is, and it has never been recorded before. */
  ghost predicate Renames(db: Db, issue: Id, team: Id, now: int, change: Change) {
    && team in db.teams && issue in change.db.issues
    && var row := change.db.issues[issue];
       && row.identifier == NextIdentifier(db.teams, team) && row.org == db.teams[team].org && row.team == team
       && (row.org, row.identifier) !in db.aliases
       && change.db.teams == TakeNumber(db.teams, team)
       && change.db.aliases == db.aliases[(row.org, row.identifier) := Alias(issue, now)]
  }

  ghost predicate KeepsName(db: Db, issue: Id, change: Change) {
    && issue in db.issues && issue in change.db.issues
    && change.db.issues[issue].identifier == db.issues[issue].identifier
    && change.db.issues[issue].team == db.issues[issue].team
    && change.db.teams == db.teams && change.db.aliases == db.aliases
  }

  lemma IssueWriteIssues(db: Db, issue: Id, row: Issue)
    requires IssuesOk(db.projects, db.states, db.issues) && IssueOk(db.projects, db.states, row)
    ensures IssuesOk(db.projects, db.states, db.issues[issue := row])
  {
  }

  lemma RenameAliases(db: Db, issue: Id, row: Issue, now: int)
    requires AliasesOk(db.issues, db.aliases) && (row.org, row.identifier) !in db.aliases
    requires issue in db.issues ==> row.org == db.issues[issue].org
    ensures AliasesOk(db.issues[issue := row], db.aliases[(row.org, row.identifier) := Alias(issue, now)])
  {
  }

  lemma KeepAliases(db: Db, issue: Id, row: Issue)
    requires AliasesOk(db.issues, db.aliases) && issue in db.issues
    requires row.org == db.issues[issue].org && row.identifier == db.issues[issue].identifier
    ensures AliasesOk(db.issues[issue := row], db.aliases)
  {
  }

  lemma TakeNumberTeams(db: Db, team: Id)
    requires TeamsOk(db.teams) && team in db.teams
    ensures TeamsOk(TakeNumber(db.teams, team))
  {
  }

  lemma TakeNumberStates(db: Db, team: Id)
    requires StatesOk(db.teams, db.states) && DefaultsOk(db.teams, db.states) && team in db.teams
    ensures StatesOk(TakeNumber(db.teams, team), db.states) && DefaultsOk(TakeNumber(db.teams, team), db.states)
  {
  }

  lemma IssuesSwap(db: Db, teams: map<Id, Team>, issues: map<Id, Issue>, aliases: map<(Id, string), Alias>)
    requires Structural(db)
    requires TeamsOk(teams) && StatesOk(teams, db.states) && DefaultsOk(teams, db.states)
    requires ProjectsOk(teams, db.statuses, db.projects)
    requires IssuesOk(db.projects, db.states, issues) && AliasesOk(issues, aliases) && ParentsOk(issues)
    ensures Structural(db.(teams := teams, issues := issues, aliases := aliases))
  {
  }

  lemma IssueAdvances(db: Db, issue: Id, change: Change)
    requires IssueWrite(db, issue, change)
    requires forall t :: TeamRevision(change.db, t) == TeamRevision(db, t)
    requires Names(db, change.db)
    ensures Advances(db, change)
  {
  }

  lemma RenameKeeps(db: Db, issue: Id, team: Id, now: int, change: Change)
    requires Structural(db) && IssueWrite(db, issue, change) && Renames(db, issue, team, now, change)
    requires IssueOk(db.projects, db.states, change.db.issues[issue]) && ParentsOk(change.db.issues)
    ensures Structural(change.db) && Advances(db, change)
  {
    RenameStructural(db, issue, team, now, change);
    RenameAdvances(db, issue, team, now, change);
  }

  lemma RenameAdvances(db: Db, issue: Id, team: Id, now: int, change: Change)
    requires IssueWrite(db, issue, change) && Renames(db, issue, team, now, change)
    ensures Advances(db, change)
  {
    RenameNames(db, issue, team, now, change);
    IssueAdvances(db, issue, change);
  }

  lemma RenameNames(db: Db, issue: Id, team: Id, now: int, change: Change)
    requires Renames(db, issue, team, now, change)
    ensures Names(db, change.db)
  {
    var row := change.db.issues[issue];
    assert Issued(db, change.db, team, (row.org, row.identifier));
  }

  lemma RenameStructural(db: Db, issue: Id, team: Id, now: int, change: Change)
    requires Structural(db) && IssueWrite(db, issue, change) && Renames(db, issue, team, now, change)
    requires IssueOk(db.projects, db.states, change.db.issues[issue]) && ParentsOk(change.db.issues)
    ensures Structural(change.db)
  {
    RenameTables(db, issue, team, now, change.db.issues[issue], change.db.issues);
  }

  lemma RenameTables(db: Db, issue: Id, team: Id, now: int, row: Issue, issues: map<Id, Issue>)
    requires Structural(db) && team in db.teams && issues == db.issues[issue := row]
    requires (row.org, row.identifier) !in db.aliases && (issue in db.issues ==> row.org == db.issues[issue].org)
    requires IssueOk(db.projects, db.states, row) && ParentsOk(issues)
    ensures Structural(db.(teams := TakeNumber(db.teams, team), issues := issues,
                           aliases := db.aliases[(row.org, row.identifier) := Alias(issue, now)]))
  {
    var teams := TakeNumber(db.teams, team);
    IssueWriteIssues(db, issue, row);
    RenameAliases(db, issue, row, now);
    TakeNumberTeams(db, team);
    TakeNumberStates(db, team);
    TeamWriteProjects(db, team, teams[team]);
    IssuesSwap(db, teams, issues, db.aliases[(row.org, row.identifier) := Alias(issue, now)]);
  }

  lemma SameNameKeeps(db: Db, issue: Id, change: Change)
    requires Structural(db) && IssueWrite(db, issue, change) && KeepsName(db, issue, change)
    requires IssueOk(db.projects, db.states, change.db.issues[issue]) && ParentsOk(change.db.issues)
    ensures Structural(change.db) && Advances(db, change)
  {
    SameNameStructural(db, issue, change);
    SameNameAdvances(db, issue, change);
  }

  lemma SameNameAdvances(db: Db, issue: Id, change: Change)
    requires IssueWrite(db, issue, change) && KeepsName(db, issue, change)
    ensures Advances(db, change)
  {
    IssueAdvances(db, issue, change);
  }

  lemma SameNameStructural(db: Db, issue: Id, change: Change)
    requires Structural(db) && IssueWrite(db, issue, change) && KeepsName(db, issue, change)
    requires IssueOk(db.projects, db.states, change.db.issues[issue]) && ParentsOk(change.db.issues)
    ensures Structural(change.db)
  {
    SameNameTables(db, issue, change.db.issues[issue], change.db.issues);
  }

  lemma SameNameTables(db: Db, issue: Id, row: Issue, issues: map<Id, Issue>)
    requires Structural(db) && issue in db.issues && issues == db.issues[issue := row]
    requires row.org == db.issues[issue].org && row.identifier == db.issues[issue].identifier
    requires IssueOk(db.projects, db.states, row) && ParentsOk(issues)
    ensures Structural(db.(teams := db.teams, issues := issues, aliases := db.aliases))
  {
    IssueWriteIssues(db, issue, row);
    KeepAliases(db, issue, row);
    IssuesSwap(db, db.teams, issues, db.aliases);
  }

  lemma CreateIssueShape(db: Db, actor: Id, now: int, r: Request)
    requires r.CreateIssue? && CreateIssueBody(db, actor, now, r).Ok?
    ensures var change := CreateIssueBody(db, actor, now, r).value;
            && r.issue !in db.issues && IssueWrite(db, r.issue, change) && Renames(db, r.issue, r.team, now, change)
            && IssueOk(db.projects, db.states, change.db.issues[r.issue])
            && change.db.issues[r.issue].org == r.org && change.db.issues[r.issue].parent == r.parent
            && ParentExists(db.issues, r.org, r.parent)
  {
  }

  lemma CreateIssueKeeps(db: Db, actor: Id, now: int, r: Request)
    requires Structural(db) && r.CreateIssue?
    ensures Keeps(db, CreateIssueBody(db, actor, now, r))
  {
    hide CreateIssueBody;
    if CreateIssueBody(db, actor, now, r).Ok? {
      var change := CreateIssueBody(db, actor, now, r).value;
      CreateIssueShape(db, actor, now, r);
      IssueKeepsParents(db.issues, r.issue, change.db.issues[r.issue]);
      RenameKeeps(db, r.issue, r.team, now, change);
    }
  }

  lemma UpdateIssueShape(db: Db, actor: Id, r: Request, cap: Captured)
    requires r.UpdateIssue? && UpdateIssueBody(db, actor, r, cap).Ok?
    requires r.issue in db.issues ==> IssueOk(db.projects, db.states, db.issues[r.issue])
    ensures var change := UpdateIssueBody(db, actor, r, cap).value;
            && IssueWrite(db, r.issue, change) && KeepsName(db, r.issue, change)
            && IssueOk(db.projects, db.states, change.db.issues[r.issue])
            && db.issues[r.issue].org == r.org && change.db.issues[r.issue].parent == r.parent
            && ParentExists(db.issues, r.org, r.parent)
  {
  }

  lemma UpdateIssueKeeps(db: Db, actor: Id, r: Request, cap: Captured)
    requires Structural(db) && r.UpdateIssue?
    ensures Keeps(db, UpdateIssueBody(db, actor, r, cap))
  {
    hide UpdateIssueBody;
    if UpdateIssueBody(db, actor, r, cap).Ok? {
      var change := UpdateIssueBody(db, actor, r, cap).value;
      UpdateIssueShape(db, actor, r, cap);
      IssueKeepsParents(db.issues, r.issue, change.db.issues[r.issue]);
      SameNameKeeps(db, r.issue, change);
    }
  }

  lemma MoveIssueShape(db: Db, actor: Id, now: int, r: Request, cap: Captured)
    requires r.MoveIssue? && MoveIssueBody(db, actor, now, r, cap).Ok?
    ensures var change := MoveIssueBody(db, actor, now, r, cap).value;
            && r.issue in db.issues && IssueWrite(db, r.issue, change) && Renames(db, r.issue, r.team, now, change)
            && IssueOk(db.projects, db.states, change.db.issues[r.issue])
            && change.db.issues[r.issue].parent == db.issues[r.issue].parent
  {
  }

  lemma MoveIssueKeeps(db: Db, actor: Id, now: int, r: Request, cap: Captured)
    requires Structural(db) && r.MoveIssue?
    ensures Keeps(db, MoveIssueBody(db, actor, now, r, cap))
  {
    hide MoveIssueBody;
    if MoveIssueBody(db, actor, now, r, cap).Ok? {
      var change := MoveIssueBody(db, actor, now, r, cap).value;
      MoveIssueShape(db, actor, now, r, cap);
      ParentStays(db, r.issue);
      IssueKeepsParents(db.issues, r.issue, change.db.issues[r.issue]);
      RenameKeeps(db, r.issue, r.team, now, change);
    }
  }

  lemma ParentStays(db: Db, issue: Id)
    requires ParentsOk(db.issues) && issue in db.issues
    ensures var row := db.issues[issue];
            row.parent.Some? ==> row.parent.value in db.issues && db.issues[row.parent.value].org == row.org
  {
    var p := db.issues[issue].parent;
  }

  lemma ArchiveIssueShape(db: Db, actor: Id, r: Request)
    requires r.ArchiveIssue? && ArchiveIssueBody(db, actor, r).Ok?
    ensures var change := ArchiveIssueBody(db, actor, r).value;
            && IssueWrite(db, r.issue, change) && KeepsName(db, r.issue, change)
            && change.db.issues[r.issue] == db.issues[r.issue].(
                 archived := r.archived, revision := db.issues[r.issue].revision + 1)
  {
  }

  lemma SetAssigneeShape(db: Db, actor: Id, r: Request)
    requires r.SetAssignee? && SetAssigneeBody(db, actor, r).Ok?
    ensures var change := SetAssigneeBody(db, actor, r).value;
            && IssueWrite(db, r.issue, change) && KeepsName(db, r.issue, change)
            && change.db.issues[r.issue] == db.issues[r.issue].(
                 assignee := r.assignee, revision := db.issues[r.issue].revision + 1)
  {
  }

  lemma FieldWriteKeeps(db: Db, issue: Id, change: Change)
    requires Structural(db) && IssueWrite(db, issue, change) && KeepsName(db, issue, change)
    requires change.db.issues[issue].state == db.issues[issue].state
    requires change.db.issues[issue].parent == db.issues[issue].parent
    ensures Structural(change.db) && Advances(db, change)
  {
    assert IssueOk(db.projects, db.states, db.issues[issue]);
    ParentStays(db, issue);
    IssueKeepsParents(db.issues, issue, change.db.issues[issue]);
    SameNameKeeps(db, issue, change);
  }

  lemma ArchiveIssueKeeps(db: Db, actor: Id, r: Request)
    requires Structural(db) && r.ArchiveIssue?
    ensures Keeps(db, ArchiveIssueBody(db, actor, r))
  {
    hide ArchiveIssueBody;
    if ArchiveIssueBody(db, actor, r).Ok? {
      ArchiveIssueShape(db, actor, r);
      FieldWriteKeeps(db, r.issue, ArchiveIssueBody(db, actor, r).value);
    }
  }

  lemma SetAssigneeKeeps(db: Db, actor: Id, r: Request)
    requires Structural(db) && r.SetAssignee?
    ensures Keeps(db, SetAssigneeBody(db, actor, r))
  {
    hide SetAssigneeBody;
    if SetAssigneeBody(db, actor, r).Ok? {
      SetAssigneeShape(db, actor, r);
      FieldWriteKeeps(db, r.issue, SetAssigneeBody(db, actor, r).value);
    }
  }

  // ---- Whole transactions

  lemma BodyKeeps(db: Db, actor: Id, now: int, ids: FreshIds, r: Request, cap: Captured)
    requires Structural(db) && Shaped(r) && (NeedsCatalog(r) ==> r.org in db.workspaces)
    ensures Keeps(db, Body(db, actor, now, ids, r, cap))
  {
    hide Structural, Keeps;
    hide PutTeamBody, SetMemberBody, PutStateBody, ReorderStatesBody, ArchiveStateBody, DeleteStateBody;
    hide PutStatusBody, ReorderStatusesBody, ArchiveStatusBody, DeleteStatusBody;
    hide CreateProjectBody, UpdateProjectBody, ArchiveProjectBody;
    hide CreateIssueBody, UpdateIssueBody, MoveIssueBody, ArchiveIssueBody, SetAssigneeBody;
    match r
    case PutTeam(_, _, _, _, _, _, _) => PutTeamKeeps(db, actor, r, ids);
    case SetMember(_, _, _, _) => SetMemberKeeps(db, actor, r);
    case PutState(_, _, _, _, _, _, _) => PutStateKeeps(db, actor, r);
    case ReorderStates(_, _, _) => ReorderStatesKeeps(db, actor, r);
    case ArchiveState(_, _, _, _) => ArchiveStateKeeps(db, actor, r);
    case DeleteState(_, _, _, _) => DeleteStateKeeps(db, actor, r);
    case PutStatus(_, _, _, _, _, _) => PutStatusKeeps(db, actor, r);
    case ReorderStatuses(_, _) => ReorderStatusesKeeps(db, actor, r);
    case ArchiveStatus(_, _, _, _) => ArchiveStatusKeeps(db, actor, r);
    case DeleteStatus(_, _, _) => DeleteStatusKeeps(db, actor, r);
    case CreateProject(_, _, _, _, _, _) => CreateProjectKeeps(db, actor, now, r);
    case UpdateProject(_, _, _, _, _, _, _) => UpdateProjectKeeps(db, actor, now, r);
    case ArchiveProject(_, _, _, _) => ArchiveProjectKeeps(db, actor, r);
    case CreateIssue(_, _, _, _, _, _, _) => CreateIssueKeeps(db, actor, now, r);
    case UpdateIssue(_, _, _, _, _, _) => UpdateIssueKeeps(db, actor, r, cap);
    case MoveIssue(_, _, _, _, _) => MoveIssueKeeps(db, actor, now, r, cap);
    case ArchiveIssue(_, _, _, _) => ArchiveIssueKeeps(db, actor, r);
    case SetAssignee(_, _, _, _) => SetAssigneeKeeps(db, actor, r);
  }

  lemma RevisionsAppend(activity: seq<ActivityRow>, row: ActivityRow, kind: EntityKind, e: Id)
    ensures Revisions(activity + [row], kind, e) == Revisions(activity, kind, e)
              + if row.kind == kind && row.entity == e && row.revision.Some? then [row.revision.value] else []
  {
    assert (activity + [row])[..|activity|] == activity;
  }

  lemma HistoryGrows(db: Db, change: Change)
    requires HistoryOk(db) && Advances(db, change)
    ensures HistoryOk(change.db.(activity := db.activity + [change.row]))
  {
    var db' := change.db.(activity := db.activity + [change.row]);
    forall t ensures Revisions(db'.activity, TeamEntity, t) == UpTo(TeamRevision(db', t)) {
      RevisionsAppend(db.activity, change.row, TeamEntity, t);
      assert Moves(TeamRevision(db, t), TeamRevision(change.db, t),
                   change.row.kind == TeamEntity && change.row.entity == t, change.row.revision);
    }
    forall p ensures Revisions(db'.activity, ProjectEntity, p) == UpTo(ProjectRevision(db', p)) {
      RevisionsAppend(db.activity, change.row, ProjectEntity, p);
      assert Moves(ProjectRevision(db, p), ProjectRevision(change.db, p),
                   change.row.kind == ProjectEntity && change.row.entity == p, change.row.revision);
    }
    forall i ensures Climbs(Revisions(db'.activity, IssueEntity, i), IssueRevision(db', i)) {
      RevisionsAppend(db.activity, change.row, IssueEntity, i);
      assert Moves(IssueRevision(db, i), IssueRevision(change.db, i),
                   change.row.kind == IssueEntity && change.row.entity == i, change.row.revision);
    }
  }

  /** Recording a change that is new to its command key keeps receipts, history and their count in step. */
  lemma CommitKeeps(db: Db, change: Change, c: Command)
    requires Structural(change.db) && Advances(db, change)
    requires CommandsOk(db.workspaces, db.commands) && HistoryOk(db) && |db.activity| == |db.commands|
    requires KeyOf(c) !in db.commands
    requires CatalogFirst(c.request) ==> c.request.org in db.workspaces
    ensures Invariant(Committed(change, c))
  {
    HistoryGrows(db, change);
    AdvancesCommands(db, change);
    hide Structural, HistoryOk, Advances;
    CommittedStructural(change, c);
    CommittedReceipts(db, change, c);
    SameHistory(change.db.(activity := db.activity + [change.row]), Committed(change, c));
  }

  lemma CommittedReceipts(db: Db, change: Change, c: Command)
    requires CommandsOk(db.workspaces, db.commands) && |db.activity| == |db.commands| && KeyOf(c) !in db.commands
    requires change.db.activity == db.activity && change.db.commands == db.commands
    requires forall o :: o in db.workspaces ==> o in change.db.workspaces
    requires CatalogFirst(c.request) ==> c.request.org in db.workspaces
    ensures var after := Committed(change, c);
            CommandsOk(after.workspaces, after.commands) && |after.activity| == |after.commands|
  {
    var receipts := db.commands[KeyOf(c) := Receipt(c.request, change.reply)];
    assert |receipts| == |db.commands| + 1;
  }

  lemma AdvancesCommands(db: Db, change: Change)
    requires Advances(db, change)
    ensures change.db.activity == db.activity && change.db.commands == db.commands
    ensures forall o :: o in db.workspaces ==> o in change.db.workspaces
  {
  }

  lemma CommittedStructural(change: Change, c: Command)
    requires Structural(change.db)
    ensures Structural(Committed(change, c))
  {
  }

  lemma SameHistory(a: Db, b: Db)
    requires HistoryOk(a) && a.activity == b.activity
    requires a.teams == b.teams && a.projects == b.projects && a.issues == b.issues
    ensures HistoryOk(b)
  {
    forall t ensures Revisions(b.activity, TeamEntity, t) == UpTo(TeamRevision(b, t)) {
      assert TeamRevision(b, t) == TeamRevision(a, t);
    }
    forall p ensures Revisions(b.activity, ProjectEntity, p) == UpTo(ProjectRevision(b, p)) {
      assert ProjectRevision(b, p) == ProjectRevision(a, p);
    }
    forall i ensures Climbs(Revisions(b.activity, IssueEntity, i), IssueRevision(b, i)) {
      assert IssueRevision(b, i) == IssueRevision(a, i);
    }
  }

  /** The catalog an Organization starts with, committed on its own or ahead of a command. */
  lemma InitializeKeeps(db: Db, org: Id, ids: FreshIds)
    requires Invariant(db) && EnsureCatalog(db, org, ids).Ok?
    ensures Invariant(EnsureCatalog(db, org, ids).value)
    ensures org in EnsureCatalog(db, org, ids).value.workspaces
  {
    CatalogKeeps(db, org, ids);
    SameHistory(db, EnsureCatalog(db, org, ids).value);
  }

  lemma PerformKeeps(db: Db, c: Command, now: int, ids: FreshIds, cap: Captured)
    requires Invariant(db) && Shaped(c.request) && KeyOf(c) !in db.commands
    requires CatalogFirst(c.request) ==> c.request.org in db.workspaces
    requires Perform(db, c, now, ids, cap).Ok?
    ensures Invariant(Committed(Perform(db, c, now, ids, cap).value, c))
  {
    if NeedsCatalog(c.request) {
      InitializeKeeps(db, c.request.org, ids);
      var ready := EnsureCatalog(db, c.request.org, ids).value;
      CatalogKeeps(db, c.request.org, ids);
      BodyKeeps(ready, c.actor, now, ids, c.request, cap);
      CommitKeeps(ready, Perform(db, c, now, ids, cap).value, c);
    } else {
      BodyKeeps(db, c.actor, now, ids, c.request, cap);
      CommitKeeps(db, Perform(db, c, now, ids, cap).value, c);
    }
  }

  /**
   Every transaction keeps the invariant, with any values at all in place of the ones read
   at admission: the statements and constraints inside the transaction suffice.
   */
  lemma TransactKeeps(db: Db, c: Command, now: int, ids: FreshIds, cap: Captured)
    requires Invariant(db) && Shaped(c.request)
    ensures Invariant(Transact(db, c, now, ids, cap).db)
  {
    hide Perform, Structural, HistoryOk;
    if CatalogFirst(c.request) {
      if EnsureCatalog(db, c.request.org, ids).Ok? {
        var ready := EnsureCatalog(db, c.request.org, ids).value;
        InitializeKeeps(db, c.request.org, ids);
        if KeyOf(c) !in ready.commands && Perform(ready, c, now, ids, cap).Ok? {
          PerformKeeps(ready, c, now, ids, cap);
        }
      }
    } else if KeyOf(c) !in db.commands && Perform(db, c, now, ids, cap).Ok? {
      PerformKeeps(db, c, now, ids, cap);
    }
  }

  lemma EmptyInvariant()
    ensures Invariant(EmptyDb)
  {
  }
}
