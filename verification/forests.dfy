/** When the parent links stay a forest, although the check and the write of a parent are two statements. */
module Forests {
  import opened Prelude
  import opened Tables
  import opened Commands
  import opened Invariants
  import opened Retentions
  import opened Runs
  import opened Parents

  ghost predicate ForestAt(db: Db) {
    Forest(LinksOf(db.issues))
  }

  /** The requested parent is below the Issue in this state. */
  ghost predicate Looped(db: Db, r: Request) {
    r.UpdateIssue? && r.parent.Some? && Below(LinksOf(db.issues), r.issue, r.parent.value)
  }

  /** Whatever is above an Issue is an Issue. */
  lemma {:induction false} AncestorExists(issues: map<Id, Issue>, x: Id, k: nat)
    requires ParentsOk(issues)
    requires k > 0 && Ancestor(LinksOf(issues), x, k).Some?
    ensures Ancestor(LinksOf(issues), x, k).value in issues
    decreases k
  {
    var up := LinksOf(issues);
    if k > 1 {
      AncestorExists(issues, up[x], k - 1);
    } else {
      assert Ancestor(up, x, 1) == Ancestor(up, up[x], 0) == Some(up[x]);
    }
  }

  lemma NewIssueKeepsForest(issues: map<Id, Issue>, issue: Id, row: Issue)
    requires ParentsOk(issues) && Forest(LinksOf(issues)) && issue !in issues
    requires row.parent.Some? ==> row.parent.value in issues
    ensures Forest(LinksOf(issues[issue := row]))
  {
    var up := LinksOf(issues);
    if row.parent.Some? {
      assert LinksOf(issues[issue := row]) == up[issue := row.parent.value];
      if Below(up, issue, row.parent.value) {
        var k: nat :| k > 0 && Ancestor(up, row.parent.value, k) == Some(issue);
        AncestorExists(issues, row.parent.value, k);
      }
      RelinkKeepsForest(up, issue, row.parent.value);
    } else {
      assert LinksOf(issues[issue := row]) == up;
    }
  }

  lemma ChangedIssueForest(issues: map<Id, Issue>, issue: Id, row: Issue)
    requires Forest(LinksOf(issues)) && issue in issues && row.parent != Some(issue)
    ensures Forest(LinksOf(issues[issue := row])) <==>
            !(row.parent.Some? && Below(LinksOf(issues), issue, row.parent.value))
  {
    var up := LinksOf(issues);
    if row.parent.None? {
      assert LinksOf(issues[issue := row]) == up - {issue};
      UnlinkKeepsForest(up, issue);
    } else {
      assert LinksOf(issues[issue := row]) == up[issue := row.parent.value];
      RelinkKeepsForest(up, issue, row.parent.value);
    }
  }

  lemma SameParents(a: map<Id, Issue>, b: map<Id, Issue>)
    requires a.Keys == b.Keys && forall i :: i in a ==> a[i].parent == b[i].parent
    ensures LinksOf(a) == LinksOf(b)
  {
  }

  lemma UpdateForest(db: Db, actor: Id, r: Request, cap: Captured)
    requires r.UpdateIssue? && UpdateIssueBody(db, actor, r, cap).Ok? && ForestAt(db)
    ensures ForestAt(UpdateIssueBody(db, actor, r, cap).value.db) <==> !Looped(db, r)
  {
    var change := UpdateIssueBody(db, actor, r, cap).value;
    assert change.db.issues == db.issues[r.issue := change.db.issues[r.issue]];
    ChangedIssueForest(db.issues, r.issue, change.db.issues[r.issue]);
  }

  lemma CreateForest(db: Db, actor: Id, now: int, r: Request)
    requires r.CreateIssue? && CreateIssueBody(db, actor, now, r).Ok? && ParentsOk(db.issues) && ForestAt(db)
    ensures ForestAt(CreateIssueBody(db, actor, now, r).value.db)
  {
    var change := CreateIssueBody(db, actor, now, r).value;
    assert change.db.issues == db.issues[r.issue := change.db.issues[r.issue]];
    NewIssueKeepsForest(db.issues, r.issue, change.db.issues[r.issue]);
  }

  /** Every other command leaves the links as they are. */
  predicate Relinks(r: Request) {
    r.UpdateIssue? || r.CreateIssue?
  }

  lemma OthersLeaveParents(db: Db, actor: Id, now: int, r: Request, cap: Captured)
    requires r.MoveIssue? || r.ArchiveIssue? || r.SetAssignee?
    ensures var out := if r.MoveIssue? then MoveIssueBody(db, actor, now, r, cap)
                       else if r.ArchiveIssue? then ArchiveIssueBody(db, actor, r) else SetAssigneeBody(db, actor, r);
            out.Ok? ==> LinksOf(out.value.db.issues) == LinksOf(db.issues)
  {
    var out := if r.MoveIssue? then MoveIssueBody(db, actor, now, r, cap)
               else if r.ArchiveIssue? then ArchiveIssueBody(db, actor, r) else SetAssigneeBody(db, actor, r);
    if out.Ok? {
      SameParents(out.value.db.issues, db.issues);
    }
  }

  lemma OthersLeaveLinks(db: Db, actor: Id, now: int, ids: FreshIds, r: Request, cap: Captured)
    requires Shaped(r) && (NeedsCatalog(r) ==> r.org in db.workspaces) && !Relinks(r)
    requires Body(db, actor, now, ids, r, cap).Ok?
    ensures LinksOf(Body(db, actor, now, ids, r, cap).value.db.issues) == LinksOf(db.issues)
  {
    hide PutTeamBody, SetMemberBody, PutStateBody, ReorderStatesBody, ArchiveStateBody, DeleteStateBody;
    hide PutStatusBody, ReorderStatusesBody, ArchiveStatusBody, DeleteStatusBody;
    hide CreateProjectBody, UpdateProjectBody, ArchiveProjectBody;
    hide MoveIssueBody, ArchiveIssueBody, SetAssigneeBody;
    if r.MoveIssue? || r.ArchiveIssue? || r.SetAssignee? {
      OthersLeaveParents(db, actor, now, r, cap);
    } else {
      assert Body(db, actor, now, ids, r, cap).value.db.issues == db.issues;
    }
  }

  lemma BodyForest(db: Db, actor: Id, now: int, ids: FreshIds, r: Request, cap: Captured)
    requires Structural(db) && Shaped(r) && (NeedsCatalog(r) ==> r.org in db.workspaces)
    requires Body(db, actor, now, ids, r, cap).Ok? && ForestAt(db)
    ensures ForestAt(Body(db, actor, now, ids, r, cap).value.db) <==> !Looped(db, r)
  {
    if r.UpdateIssue? {
      UpdateForest(db, actor, r, cap);
    } else if r.CreateIssue? {
      CreateForest(db, actor, now, r);
    } else {
      OthersLeaveLinks(db, actor, now, ids, r, cap);
    }
  }

  lemma TransactForest(db: Db, c: Command, now: int, ids: FreshIds, cap: Captured)
    requires Invariant(db) && Shaped(c.request) && ForestAt(db) && KeyOf(c) !in db.commands
    requires Transact(db, c, now, ids, cap).result.Ok?
    ensures ForestAt(Transact(db, c, now, ids, cap).db) <==> !Looped(db, c.request)
  {
    if CatalogFirst(c.request) || NeedsCatalog(c.request) {
      EnsureCatalogShape(db, c.request.org, ids);
      CatalogKeeps(db, c.request.org, ids);
      BodyForest(EnsureCatalog(db, c.request.org, ids).value, c.actor, now, ids, c.request, cap);
    } else {
      BodyForest(db, c.actor, now, ids, c.request, cap);
    }
  }

  /** Step `n` hangs an Issue under what has meanwhile become one of its descendants. */
  ghost predicate ClosesCycle(steps: seq<Step>, n: nat)
    requires Legal(steps) && n < |steps|
  {
    EffectiveAt(steps, n) && steps[n].Execute? && Looped(At(steps, n), steps[n].c.request)
  }

  lemma QuietForest(db: Db, step: Step)
    requires Legal([step]) && !step.Execute?
    ensures LinksOf(After(db, step).issues) == LinksOf(db.issues)
  {
    match step
    case Initialize(org, ids) =>
      if EnsureCatalog(db, org, ids).Ok? {
        EnsureCatalogShape(db, org, ids);
      }
    case Retain(action, r) => SameParents(Apply(db, action, r).issues, db.issues);
  }

  /** A step keeps a forest exactly when it is not an update that closes a loop. */
  lemma AfterForest(db: Db, step: Step)
    requires Invariant(db) && Legal([step]) && ForestAt(db)
    ensures ForestAt(After(db, step)) <==> !(Effective(db, step) && step.Execute? && Looped(db, step.c.request))
  {
    hide Transact, Forest, Invariant;
    assert step in [step];
    if !step.Execute? {
      QuietForest(db, step);
    } else if Effective(db, step) {
      TransactForest(db, step.c, step.now, step.ids, step.cap);
    } else {
      StepFacts(db, step);
    }
  }

  lemma StepForest(steps: seq<Step>, n: nat)
    requires Legal(steps) && n < |steps| && ForestAt(At(steps, n))
    ensures ForestAt(At(steps, n + 1)) <==> !ClosesCycle(steps, n)
  {
    hide Transact, ForestAt, Looped;
    AtNext(steps, n);
    ReachableInvariant(steps, n);
    AfterForest(At(steps, n), steps[n]);
  }

  /**
   The parents of a run form a forest throughout exactly when no update is written whose
   parent is below its Issue at that moment, however stale the links its query saw.
   */
  lemma {:induction false} ForestExactly(steps: seq<Step>, n: nat)
    requires Legal(steps) && n <= |steps|
    ensures (forall k :: 0 <= k <= n ==> ForestAt(At(steps, k))) <==>
            (forall k :: 0 <= k < n ==> !ClosesCycle(steps, k))
  {
    hide Transact, ForestAt, ClosesCycle;
    if n == 0 {
      EmptyForest();
    } else {
      ForestExactly(steps, n - 1);
      if forall k :: 0 <= k <= n - 1 ==> ForestAt(At(steps, k)) {
        StepForest(steps, n - 1);
      }
    }
  }

  lemma EmptyForest()
    ensures ForestAt(EmptyDb)
  {
    forall x ensures Grounded(LinksOf(EmptyDb.issues), x) {
      assert Ancestor(LinksOf(EmptyDb.issues), x, 1).None?;
    }
  }

  /** The query of step `n` saw the links as they are when it writes. */
  ghost predicate SawCurrent(steps: seq<Step>, n: nat)
    requires Legal(steps) && n < |steps|
  {
    steps[n].Execute? && steps[n].c.request.UpdateIssue? ==> steps[n].cap.links == LinksOf(At(steps, n).issues)
  }

  lemma CurrentClosesNothing(db: Db, c: Command, now: int, ids: FreshIds, cap: Captured)
    requires c.request.UpdateIssue? && cap.links == LinksOf(db.issues) && KeyOf(c) !in db.commands
    requires Transact(db, c, now, ids, cap).result.Ok?
    ensures !Looped(db, c.request)
  {
  }

  /** As long as no link changes between query and write, there is no cycle. */
  lemma SerialChecksKeepForest(steps: seq<Step>, n: nat)
    requires Legal(steps) && n <= |steps| && forall k :: 0 <= k < n ==> SawCurrent(steps, k)
    ensures ForestAt(At(steps, n))
  {
    forall k | 0 <= k < n ensures !ClosesCycle(steps, k) {
      LegalAt(steps, k);
      if EffectiveAt(steps, k) && steps[k].Execute? && steps[k].c.request.UpdateIssue? {
        assert SawCurrent(steps, k);
        assert steps[k] in [steps[k]];
        CurrentClosesNothing(At(steps, k), steps[k].c, steps[k].now, steps[k].ids, steps[k].cap);
      }
    }
    ForestExactly(steps, n);
  }

  // ---- Two updates whose queries both ran before either write

  /** Step `n` takes effect, giving the Issue a parent after a query that saw these links. */
  ghost predicate Adopts(steps: seq<Step>, n: nat, links: Links, issue: Id, parent: Id)
    requires Legal(steps) && n < |steps|
  {
    && EffectiveAt(steps, n) && steps[n].Execute? && steps[n].cap.links == links
    && steps[n].c.request.UpdateIssue? && steps[n].c.request.issue == issue && steps[n].c.request.parent == Some(parent)
  }

  lemma AdoptionLinks(db: Db, c: Command, now: int, ids: FreshIds, cap: Captured)
    requires c.request.UpdateIssue? && c.request.parent.Some? && KeyOf(c) !in db.commands
    requires Transact(db, c, now, ids, cap).result.Ok?
    ensures var r := c.request;
            && r.parent.value != r.issue && !Below(cap.links, r.issue, r.parent.value)
            && LinksOf(Transact(db, c, now, ids, cap).db.issues) == LinksOf(db.issues)[r.issue := r.parent.value]
  {
    var after := Transact(db, c, now, ids, cap).db.issues;
    assert after == db.issues[c.request.issue := after[c.request.issue]];
  }

  lemma AdoptionAt(steps: seq<Step>, n: nat, links: Links, issue: Id, parent: Id)
    requires Legal(steps) && n < |steps| && Adopts(steps, n, links, issue, parent)
    ensures parent != issue && !Below(links, issue, parent)
    ensures LinksOf(At(steps, n + 1).issues) == LinksOf(At(steps, n).issues)[issue := parent]
  {
    AtNext(steps, n);
    assert steps[n] in [steps[n]];
    AdoptionLinks(At(steps, n), steps[n].c, steps[n].now, steps[n].ids, steps[n].cap);
  }

  /**
   Two updates of different Issues that both passed the check on the same forest leave a
   forest exactly when their parents are not crossed: a caller can tell from the two
   requests and the links both queries saw.
   */
  lemma TwoUpdatesExactly(steps: seq<Step>, n: nat, a: Id, pa: Id, b: Id, pb: Id)
    requires Legal(steps) && n + 1 < |steps| && ForestAt(At(steps, n)) && a != b
    requires Adopts(steps, n, LinksOf(At(steps, n).issues), a, pa)
    requires Adopts(steps, n + 1, LinksOf(At(steps, n).issues), b, pb)
    ensures ForestAt(At(steps, n + 2)) <==> !Crossed(LinksOf(At(steps, n).issues), a, pa, b, pb)
  {
    hide Adopts;
    var links := LinksOf(At(steps, n).issues);
    AdoptionAt(steps, n, links, a, pa);
    AdoptionAt(steps, n + 1, links, b, pb);
    TwoRelinksKeepForest(links, a, pa, b, pb);
  }
}
