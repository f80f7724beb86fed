/**
 Transactions of `update_issue` with the recursive query and the write as separate events,
 between which other transactions commit. Every such trace is a run.
 */
module Interleavings {
  import opened Prelude
  import opened Tables
  import opened Commands
  import opened Invariants
  import opened Runs
  import opened Forests

  /** The query of a running transaction, with what it saw. */
  datatype Asked = Asked(c: Command, cap: Captured)

  datatype World = World(db: Db, running: map<nat, Asked>)

  const START := World(EmptyDb, map[])

  datatype Event =
    | Ask(t: nat, c: Command, project: Id, team: Id)  // begins, and runs the query
    | Write(t: nat, now: int, ids: FreshIds)          // updates its row and commits
    | Abort(t: nat)
    | Other(step: Step)                               // any other transaction

  predicate Enabled(w: World, e: Event) {
    match e
    case Ask(t, c, _, _) => t !in w.running && c.request.UpdateIssue?
    case Write(t, _, _) => t in w.running && w.running[t].c.request.UpdateIssue?
    case Abort(t) => t in w.running
    case Other(step) => Legal([step]) && !(step.Execute? && step.c.request.UpdateIssue?)
  }

  /** The query sees the committed links; the write is held to its own row and its revision. */
  ghost function Next(w: World, e: Event): World
    requires Enabled(w, e)
  {
    match e
    case Ask(t, c, project, team) =>
      w.(running := w.running[t := Asked(c, Seeing(Captured(project, team, map[]), w.db))])
    case Write(t, now, ids) =>
      World(Transact(w.db, w.running[t].c, now, ids, w.running[t].cap).db, w.running - {t})
    case Abort(t) => w.(running := w.running - {t})
    case Other(step) => w.(db := After(w.db, step))
  }

  ghost predicate IsTrace(worlds: seq<World>, events: seq<Event>) {
    && |worlds| == |events| + 1 && worlds[0] == START
    && (forall n :: 0 <= n < |events| ==> Enabled(worlds[n], events[n]) && worlds[n + 1] == Next(worlds[n], events[n]))
  }

  /** The transactions of the first `n` events in the order in which they commit. */
  ghost function Commits(worlds: seq<World>, events: seq<Event>, n: nat): seq<Step>
    requires IsTrace(worlds, events) && n <= |events|
  {
    if n == 0 then []
    else
      var before := Commits(worlds, events, n - 1);
      var w := worlds[n - 1];
      match events[n - 1]
      case Write(t, now, ids) => before + [Execute(w.running[t].c, now, ids, w.running[t].cap)]
      case Other(step) => before + [step]
      case _ => before
  }

  /** Every trace is a run whose updates saw the links of some earlier state. */
  lemma {:induction false} TraceIsRun(worlds: seq<World>, events: seq<Event>, n: nat)
    requires IsTrace(worlds, events) && n <= |events|
    ensures var steps := Commits(worlds, events, n);
            Legal(steps) && At(steps, |steps|) == worlds[n].db
  {
    hide Transact;
    if n > 0 {
      TraceIsRun(worlds, events, n - 1);
      var before, w := Commits(worlds, events, n - 1), worlds[n - 1];
      match events[n - 1]
      case Write(t, now, ids) =>
        var step := Execute(w.running[t].c, now, ids, w.running[t].cap);
        assert step in [step];
        AppendRuns(before, step);
      case Other(step) => AppendRuns(before, step);
      case _ =>
    }
  }

  /** This event hangs an Issue under what has become one of its descendants since its query ran. */
  ghost predicate ClosesLoop(w: World, e: Event)
    requires Enabled(w, e)
  {
    e.Write? &&
    var asked := w.running[e.t];
    && KeyOf(asked.c) !in w.db.commands && Looped(w.db, asked.c.request)
    && Transact(w.db, asked.c, e.now, e.ids, asked.cap).result.Ok?
  }

  lemma EventForest(w: World, e: Event)
    requires Invariant(w.db) && Enabled(w, e) && ForestAt(w.db)
    ensures ForestAt(Next(w, e).db) <==> !ClosesLoop(w, e)
  {
    hide Transact, ForestAt;
    match e
    case Write(t, now, ids) =>
      var step := Execute(w.running[t].c, now, ids, w.running[t].cap);
      assert step in [step];
      AfterForest(w.db, step);
    case Other(step) => AfterForest(w.db, step);
    case _ =>
  }

  lemma TraceInvariant(worlds: seq<World>, events: seq<Event>, n: nat)
    requires IsTrace(worlds, events) && n <= |events|
    ensures Invariant(worlds[n].db)
  {
    hide Invariant;
    TraceIsRun(worlds, events, n);
    ReachableInvariant(Commits(worlds, events, n), |Commits(worlds, events, n)|);
  }

  lemma TraceStep(worlds: seq<World>, events: seq<Event>, n: nat)
    requires IsTrace(worlds, events) && n < |events| && ForestAt(worlds[n].db)
    ensures ForestAt(worlds[n + 1].db) <==> !ClosesLoop(worlds[n], events[n])
  {
    hide Transact, ForestAt, ClosesLoop;
    TraceInvariant(worlds, events, n);
    EventForest(worlds[n], events[n]);
  }

  /** In every interleaving the parents stay a forest exactly when no write closes a loop. */
  lemma {:induction false} TraceForestExactly(worlds: seq<World>, events: seq<Event>, n: nat)
    requires IsTrace(worlds, events) && n <= |events|
    ensures (forall k :: 0 <= k <= n ==> ForestAt(worlds[k].db)) <==>
            (forall k :: 0 <= k < n ==> !ClosesLoop(worlds[k], events[k]))
  {
    hide Transact, ForestAt, ClosesLoop;
    if n == 0 {
      EmptyForest();
    } else {
      TraceForestExactly(worlds, events, n - 1);
      if forall k :: 0 <= k <= n - 1 ==> ForestAt(worlds[k].db) {
        TraceStep(worlds, events, n - 1);
      }
    }
  }

  predicate Concerns(e: Event, t: nat) {
    match e
    case Ask(u, _, _, _) => u == t
    case Write(u, _, _) => u == t
    case Abort(u) => u == t
    case Other(_) => false
  }

  /** Between a query and the write of its transaction. */
  ghost predicate Spans(worlds: seq<World>, events: seq<Event>, m: nat, n: nat, t: nat) {
    && IsTrace(worlds, events) && m < n <= |events| && events[m].Ask? && events[m].t == t
    && forall k :: m < k < n ==> !Concerns(events[k], t)
  }

  lemma {:induction false} AnswerIsKept(worlds: seq<World>, events: seq<Event>, m: nat, n: nat, t: nat)
    requires Spans(worlds, events, m, n, t)
    ensures t in worlds[n].running && worlds[n].running[t].cap.links == LinksOf(worlds[m].db.issues)
    decreases n
  {
    hide Transact, After;
    if n > m + 1 {
      AnswerIsKept(worlds, events, m, n - 1, t);
      assert worlds[n] == Next(worlds[n - 1], events[n - 1]);
    }
  }

  /** A loop is closed only if the parent links changed between the query and the write. */
  lemma LoopNeedsOverlap(worlds: seq<World>, events: seq<Event>, m: nat, n: nat)
    requires n < |events| && events[n].Write? && Spans(worlds, events, m, n, events[n].t)
    requires ClosesLoop(worlds[n], events[n])
    ensures LinksOf(worlds[m].db.issues) != LinksOf(worlds[n].db.issues)
  {
    hide Transact;
    var w, e := worlds[n], events[n];
    AnswerIsKept(worlds, events, m, n, e.t);
    if LinksOf(worlds[m].db.issues) == LinksOf(w.db.issues) {
      CurrentClosesNothing(w.db, w.running[e.t].c, e.now, e.ids, w.running[e.t].cap);
    }
  }
}
