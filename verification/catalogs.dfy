/** What the catalog commands amount to on reachable databases. */
module Catalogs {
  import opened Prelude
  import opened Text
  import opened Tables
  import opened Sorting
  import opened Reorder
  import opened Commands
  import opened Invariants

  // ---- Reordering is all or nothing

  function StatePlace(s: WorkflowState): int {
    s.position
  }

  function StatusPlace(s: Status): int {
    s.position
  }

  predicate LiveState(db: Db, org: Id, team: Id, s: Id) {
    s in db.states && db.states[s].org == org && db.states[s].team == team && !db.states[s].archived
  }

  predicate LiveStatus(db: Db, org: Id, s: Id) {
    s in db.statuses && db.statuses[s].org == org && !db.statuses[s].archived
  }

  /**
   A reorder takes effect exactly when it names every unarchived state of the Team, nothing else,
   each with its current revision. Then each gets its position and its next revision, nothing
   else changes, and the reply lists them as they are now, in position order.
   */
  lemma ReorderStatesExactly(db: Db, actor: Id, r: Request)
    requires r.ReorderStates? && ItemsOk(r.items)
    ensures ReorderStatesBody(db, actor, r).Ok? <==>
            && (forall s :: LiveState(db, r.org, r.team, s) ==> exists it :: it in r.items && it.id == s)
            && (forall it :: it in r.items ==>
                  LiveState(db, r.org, r.team, it.id) && ParseRevision(it.revision) == Some(db.states[it.id].revision))
    ensures ReorderStatesBody(db, actor, r).Ok? ==>
              var change := ReorderStatesBody(db, actor, r).value;
              && change.db == db.(states := change.db.states) && change.db.states.Keys == db.states.Keys
              && (forall it :: it in r.items ==>
                    && it.id in db.states
                    && var was := db.states[it.id];
                       change.db.states[it.id] == WorkflowState(was.org, was.team, was.name, was.category, it.position,
                                                             was.archived, was.revision + 1))
              && (forall s :: s in db.states && s !in Named(r.items) ==> change.db.states[s] == db.states[s])
              && change.row == ActivityRow(r.org, None, None, actor, StateCatalog, r.team, None)
              && change.reply.StatesReply? && |change.reply.states| == |r.items|
              && Ascends(change.reply.states, StatePlace)
              && (set row | row in change.reply.states :: row.0) == Named(r.items)
              && (forall row :: row in change.reply.states ==>
                    row.0 in change.db.states && row.1 == change.db.states[row.0])
  {
    var active := ActiveStates(db, r.org, r.team);
    assert forall s :: s in active <==> LiveState(db, r.org, r.team, s);
    ReorderAcceptedExactly(active, r.items);
    NamesSpelled(active, r.items);
    hide ItemsOk, Problem, ActiveStates;
    if Problem(active, r.items).None? {
      NamedRowsExist(active, r.items);
      MovesNamed(db.states, r.items, MovedState);
      ReplyAscends(Reordered(db.states, r.items, MovedState), r.items, StatePlace);
    }
  }

  lemma ReorderStatusesExactly(db: Db, actor: Id, r: Request)
    requires r.ReorderStatuses? && ItemsOk(r.items)
    ensures ReorderStatusesBody(db, actor, r).Ok? <==>
            && (forall s :: LiveStatus(db, r.org, s) ==> exists it :: it in r.items && it.id == s)
            && (forall it :: it in r.items ==>
                  LiveStatus(db, r.org, it.id) && ParseRevision(it.revision) == Some(db.statuses[it.id].revision))
    ensures ReorderStatusesBody(db, actor, r).Ok? ==>
              var change := ReorderStatusesBody(db, actor, r).value;
              && change.db == db.(statuses := change.db.statuses) && change.db.statuses.Keys == db.statuses.Keys
              && (forall it :: it in r.items ==>
                    && it.id in db.statuses
                    && var was := db.statuses[it.id];
                       change.db.statuses[it.id] == Status(was.org, was.name, was.category, it.position, was.isDefault,
                                                        was.archived, was.revision + 1))
              && (forall s :: s in db.statuses && s !in Named(r.items) ==> change.db.statuses[s] == db.statuses[s])
              && change.row == ActivityRow(r.org, None, None, actor, StatusCatalog, r.org, None)
              && change.reply.StatusesReply? && |change.reply.statuses| == |r.items|
              && Ascends(change.reply.statuses, StatusPlace)
              && (set row | row in change.reply.statuses :: row.0) == Named(r.items)
              && (forall row :: row in change.reply.statuses ==>
                    row.0 in change.db.statuses && row.1 == change.db.statuses[row.0])
  {
    var active := ActiveStatuses(db, r.org);
    assert forall s :: s in active <==> LiveStatus(db, r.org, s);
    ReorderAcceptedExactly(active, r.items);
    NamesSpelled(active, r.items);
    hide ItemsOk, Problem, ActiveStatuses;
    if Problem(active, r.items).None? {
      NamedRowsExist(active, r.items);
      MovesNamed(db.statuses, r.items, MovedStatus);
      ReplyAscends(Reordered(db.statuses, r.items, MovedStatus), r.items, StatusPlace);
    }
  }

  // ---- Deleting needs an archived entry, and an archived entry can always be deleted

  lemma UnusedCanGo(db: Db, r: Request)
    requires r.DeleteState? && StateExists(db, r.org, r.team, r.state)
    requires !IsDefaultState(db, r.org, r.team, r.state) && !StateReferenced(db.issues, r.org, r.state)
    ensures DeleteStateRefusal(db, r).None? <==>
            db.states[r.state].archived && ParseRevision(r.revision) == Some(db.states[r.state].revision)
  {
  }

  /** Whatever the order of the checks, on a reachable database only these three conditions matter. */
  lemma DeleteStateExactly(db: Db, actor: Id, r: Request)
    requires Structural(db) && r.DeleteState?
    ensures DeleteStateBody(db, actor, r).Ok? <==>
            StateExists(db, r.org, r.team, r.state) && db.states[r.state].archived
            && ParseRevision(r.revision) == Some(db.states[r.state].revision)
  {
    if StateExists(db, r.org, r.team, r.state) && db.states[r.state].archived {
      ArchivedStateUnused(db, r.state);
      UnusedCanGo(db, r);
    }
  }

  lemma DeleteStatusExactly(db: Db, actor: Id, r: Request)
    requires Structural(db) && r.DeleteStatus?
    ensures DeleteStatusBody(db, actor, r).Ok? <==>
            r.status in db.statuses && db.statuses[r.status].org == r.org && db.statuses[r.status].archived
            && ParseRevision(r.revision) == Some(db.statuses[r.status].revision)
  {
    if r.status in db.statuses && db.statuses[r.status].archived {
      ArchivedStatusUnused(db, r.status);
    }
  }

  lemma ReferenceRefuses(db: Db, r: Request, issue: Id)
    requires r.DeleteState? && StateExists(db, r.org, r.team, r.state)
    requires ParseRevision(r.revision) == Some(db.states[r.state].revision)
             && !IsDefaultState(db, r.org, r.team, r.state)
    requires issue in db.issues && db.issues[issue].state == r.state
    requires db.issues[issue].org == r.org && db.issues[issue].team == r.team
    ensures DeleteStateRefusal(db, r) == Because(ActiveReference)
  {
  }

  /** A state that an Issue is in is refused for that reason, before its being unarchived is looked at. */
  lemma ReferencedBeforeArchived(db: Db, actor: Id, r: Request, issue: Id)
    requires IssuesOk(db.projects, db.states, db.issues) && r.DeleteState? && StateExists(db, r.org, r.team, r.state)
    requires ParseRevision(r.revision) == Some(db.states[r.state].revision)
             && !IsDefaultState(db, r.org, r.team, r.state)
    requires issue in db.issues && db.issues[issue].state == r.state
    ensures !db.states[r.state].archived && DeleteStateBody(db, actor, r) == Refuse(ActiveReference)
  {
    assert IssueOk(db.projects, db.states, db.issues[issue]);
    ReferenceRefuses(db, r, issue);
  }
}
