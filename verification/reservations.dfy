/**
 The reservation of a command key, statement by statement, by transactions that overlap.
 An insert waits for another transaction's uncommitted row of the same key; what a
 transaction does after its insert went in is one event, ending in its commit.
 */
module Reservations {
  import opened Prelude
  import opened Tables
  import opened Commands
  import opened Invariants
  import opened Retentions
  import opened Runs

  /** Where the insert of a running transaction has left it. */
  datatype Phase =
    | Pending(c: Command)  // the row is in, not yet committed
    | Found(c: Command)    // nothing inserted: the key has a committed row

  datatype World = World(db: Db, running: map<nat, Phase>)

  const START := World(EmptyDb, map[])

  datatype Event =
    | Insert(t: nat, c: Command)                             // INSERT ... ON CONFLICT DO NOTHING
    | Finish(t: nat, now: int, ids: FreshIds, cap: Captured) // performs, records, completes and commits, or fails
    | Read(t: nat, ids: FreshIds)                            // SELECT ... FOR UPDATE, then answers from the row
    | Abort(t: nat)
    | Other(step: Step)                                      // a transaction without a command key

  /** No running transaction has an uncommitted row of this key. */
  predicate Unclaimed(w: World, k: CommandKey) {
    forall t :: t in w.running && w.running[t].Pending? ==> KeyOf(w.running[t].c) != k
  }

  predicate Enabled(w: World, e: Event, waiting: bool) {
    match e
    case Insert(t, c) => t !in w.running && Shaped(c.request) && (waiting ==> Unclaimed(w, KeyOf(c)))
    case Finish(t, _, _, _) => t in w.running && w.running[t].Pending? && Shaped(w.running[t].c.request)
    case Read(t, _) => t in w.running && w.running[t].Found? && KeyOf(w.running[t].c) in w.db.commands
    case Abort(t) => t in w.running
    case Other(step) => !step.Execute?
  }

  /** Two catalog commands initialize the status catalog ahead of their reservation. */
  function Prepared(db: Db, c: Command, ids: FreshIds): Result<Db, StorageError> {
    if CatalogFirst(c.request) then EnsureCatalog(db, c.request.org, ids) else Ok(db)
  }

  /** Nothing looks at the committed rows of the key again. */
  ghost function Finished(db: Db, c: Command, now: int, ids: FreshIds, cap: Captured): Outcome
    requires Shaped(c.request)
  {
    match Prepared(db, c, ids)
    case Err(e) => Outcome(db, Err(e))
    case Ok(ready) =>
      match Perform(ready, c, now, ids, cap)
      case Err(e) => Outcome(db, Err(e))
      case Ok(change) => Outcome(Committed(change, c), Ok(change.reply))
  }

  ghost function Replayed(db: Db, c: Command, ids: FreshIds): Outcome
    requires KeyOf(c) in db.commands
  {
    match Prepared(db, c, ids)
    case Err(e) => Outcome(db, Err(e))
    case Ok(ready) =>
      if db.commands[KeyOf(c)].request != c.request then Outcome(db, Refuse(IdempotencyConflict))
      else Outcome(ready, Ok(db.commands[KeyOf(c)].reply))
  }

  predicate Ends(e: Event) {
    e.Finish? || e.Read?
  }

  ghost function Ending(w: World, e: Event): Outcome
    requires Enabled(w, e, false) && Ends(e)
  {
    match e
    case Finish(t, now, ids, cap) => Finished(w.db, w.running[t].c, now, ids, cap)
    case Read(t, ids) => Replayed(w.db, w.running[t].c, ids)
  }

  ghost function Next(w: World, e: Event): World
    requires Enabled(w, e, false)
  {
    match e
    case Insert(t, c) => w.(running := w.running[t := if KeyOf(c) in w.db.commands then Found(c) else Pending(c)])
    case Finish(t, _, _, _) => World(Ending(w, e).db, w.running - {t})
    case Read(t, _) => World(Ending(w, e).db, w.running - {t})
    case Abort(t) => w.(running := w.running - {t})
    case Other(step) => w.(db := After(w.db, step))
  }

  /** With `waiting` false an insert overlooks uncommitted rows. */
  ghost predicate IsTrace(worlds: seq<World>, events: seq<Event>, waiting: bool) {
    && |worlds| == |events| + 1 && worlds[0] == START
    && (forall n :: 0 <= n < |events| ==>
          Enabled(worlds[n], events[n], waiting) && Enabled(worlds[n], events[n], false)
          && worlds[n + 1] == Next(worlds[n], events[n]))
  }

  // ---- Every ending is an atomic transaction

  /** Pending keys are new and claimed once; found keys have their committed row. */
  ghost predicate Guarded(w: World) {
    && (forall t :: t in w.running ==> Shaped(w.running[t].c.request))
    && (forall t :: t in w.running && w.running[t].Pending? ==> KeyOf(w.running[t].c) !in w.db.commands)
    && (forall t :: t in w.running && w.running[t].Found? ==> KeyOf(w.running[t].c) in w.db.commands)
    && (forall t, u :: t in w.running && u in w.running && t != u && w.running[t].Pending? && w.running[u].Pending? ==>
          KeyOf(w.running[t].c) != KeyOf(w.running[u].c))
  }

  /** The transaction that an event ends, as one atomic step. */
  function StepOf(w: World, e: Event): Step
    requires Enabled(w, e, false) && (Ends(e) || e.Other?)
  {
    match e
    case Finish(t, now, ids, cap) => Execute(w.running[t].c, now, ids, cap)
    case Read(t, ids) => Execute(w.running[t].c, 0, ids, NOTHING)
    case Other(step) => step
  }

  lemma PreparedLeavesCommands(db: Db, c: Command, ids: FreshIds)
    requires Prepared(db, c, ids).Ok?
    ensures Prepared(db, c, ids).value.commands == db.commands
  {
    if CatalogFirst(c.request) {
      EnsureCatalogShape(db, c.request.org, ids);
    }
  }

  lemma FinishedIsTransact(db: Db, c: Command, now: int, ids: FreshIds, cap: Captured)
    requires Shaped(c.request) && KeyOf(c) !in db.commands
    ensures Finished(db, c, now, ids, cap) == Transact(db, c, now, ids, cap)
  {
    hide Perform, EnsureCatalog;
    if Prepared(db, c, ids).Ok? {
      PreparedLeavesCommands(db, c, ids);
    }
  }

  lemma ReplayedIsTransact(db: Db, c: Command, ids: FreshIds)
    requires Shaped(c.request) && KeyOf(c) in db.commands
    ensures Replayed(db, c, ids) == Transact(db, c, 0, ids, NOTHING)
  {
    hide Perform, EnsureCatalog;
    if Prepared(db, c, ids).Ok? {
      PreparedLeavesCommands(db, c, ids);
    }
  }

  lemma EndingIsTransact(w: World, e: Event)
    requires Guarded(w) && Enabled(w, e, false) && Ends(e)
    ensures var step := StepOf(w, e);
            Legal([step]) && Ending(w, e) == Outcomes(w.db, step) && Next(w, e).db == After(w.db, step)
  {
    hide Transact, Finished, Replayed;
    var step := StepOf(w, e);
    assert step in [step];
    match e
    case Finish(t, now, ids, cap) => FinishedIsTransact(w.db, w.running[t].c, now, ids, cap);
    case Read(t, ids) => ReplayedIsTransact(w.db, w.running[t].c, ids);
  }

  lemma EventKeepsGuarded(w: World, e: Event)
    requires Guarded(w) && Invariant(w.db) && Enabled(w, e, true)
    ensures Guarded(Next(w, e))
  {
    hide Transact, After, Finished, Replayed, Invariant, Shaped;
    match e
    case Finish(t, now, ids, cap) =>
      EndingIsTransact(w, e);
      TransactFacts(w.db, w.running[t].c, now, ids, cap);
    case Read(t, ids) =>
      EndingIsTransact(w, e);
      TransactFacts(w.db, w.running[t].c, 0, ids, NOTHING);
    case Other(step) => QuietFacts(w.db, step);
    case _ =>
  }

  /** The transactions of the first `n` events, in the order in which they end. */
  ghost function Commits(worlds: seq<World>, events: seq<Event>, n: nat): seq<Step>
    requires IsTrace(worlds, events, true) && n <= |events|
  {
    if n == 0 then []
    else if Ends(events[n - 1]) || events[n - 1].Other? then
      Commits(worlds, events, n - 1) + [StepOf(worlds[n - 1], events[n - 1])]
    else Commits(worlds, events, n - 1)
  }

  lemma EventIsStep(w: World, e: Event)
    requires Guarded(w) && Invariant(w.db) && Enabled(w, e, true)
    ensures if Ends(e) || e.Other? then
              Legal([StepOf(w, e)]) && Next(w, e).db == After(w.db, StepOf(w, e))
            else Next(w, e).db == w.db
  {
    hide Transact, After, Guarded;
    if Ends(e) {
      EndingIsTransact(w, e);
    }
  }

  /** However reservations overlap, the transactions behave as if each ran alone at the moment it ends. */
  lemma {:induction false} TraceIsRun(worlds: seq<World>, events: seq<Event>, n: nat)
    requires IsTrace(worlds, events, true) && n <= |events|
    ensures var steps := Commits(worlds, events, n);
            Legal(steps) && At(steps, |steps|) == worlds[n].db
    ensures Guarded(worlds[n]) && Invariant(worlds[n].db)
  {
    hide Transact, Guarded, Invariant, StepOf, Ending, After;
    if n == 0 {
      NothingRuns();
    } else {
      TraceIsRun(worlds, events, n - 1);
      var w, e := worlds[n - 1], events[n - 1];
      EventKeepsGuarded(w, e);
      EventIsStep(w, e);
      if Ends(e) || e.Other? {
        AppendRuns(Commits(worlds, events, n - 1), StepOf(w, e));
      }
      ReachableInvariant(Commits(worlds, events, n), |Commits(worlds, events, n)|);
    }
  }

  lemma NothingRuns()
    ensures Legal([]) && At([], 0) == START.db && Guarded(START) && Invariant(START.db)
  {
    EmptyInvariant();
  }

  lemma {:induction false} CommitsGrow(worlds: seq<World>, events: seq<Event>, m: nat, n: nat)
    requires IsTrace(worlds, events, true) && m <= n <= |events|
    ensures Commits(worlds, events, m) <= Commits(worlds, events, n)
    decreases n
  {
    if m < n {
      CommitsGrow(worlds, events, m, n - 1);
    }
  }

  /** Event `n` ends a transaction of this command with this success. */
  ghost predicate Succeeds(worlds: seq<World>, events: seq<Event>, n: nat, c: Command, reply: Reply) {
    && n < |events| && |worlds| == |events| + 1
    && Enabled(worlds[n], events[n], false) && Ends(events[n])
    && worlds[n].running[events[n].t].c == c && Ending(worlds[n], events[n]).result == Ok(reply)
  }

  /** A success is an answered step of the run, at the place that its event has among the ends. */
  lemma SuccessIsAnswer(worlds: seq<World>, events: seq<Event>, n: nat, end: nat, c: Command, reply: Reply)
    requires IsTrace(worlds, events, true) && n < end <= |events| && Succeeds(worlds, events, n, c, reply)
    ensures var steps, at := Commits(worlds, events, end), |Commits(worlds, events, n)|;
            && Legal(steps) && at < |steps| && steps[at].Execute? && steps[at].c == c
            && AnsweredAt(steps, at) && ReplyAt(steps, at) == reply
            && At(steps, at) == worlds[n].db && At(steps, at + 1) == worlds[n + 1].db
  {
    hide Transact, Guarded, Invariant, After, Ending;
    var steps, before := Commits(worlds, events, end), Commits(worlds, events, n);
    TraceIsRun(worlds, events, n);
    TraceIsRun(worlds, events, end);
    CommitsGrow(worlds, events, n + 1, end);
    EndingIsTransact(worlds[n], events[n]);
    var at := |before|;
    assert steps[at] == StepOf(worlds[n], events[n]);
    assert steps[..at] == before && before[..at] == before;
    SamePrefix(steps, before, at);
    AtNext(steps, at);
    assert steps[at] in [steps[at]];
  }

  /**
   Concurrent retries of one command, reserved in any interleaving: whoever is told of a
   success has sent the same request and gets the same reply, and only the first success
   changes anything.
   */
  lemma OneEffectUnderOverlap(worlds: seq<World>, events: seq<Event>, m: nat, n: nat, c: Command, d: Command,
                              first: Reply, second: Reply)
    requires IsTrace(worlds, events, true) && m < n < |events|
    requires Succeeds(worlds, events, m, c, first) && Succeeds(worlds, events, n, d, second) && KeyOf(c) == KeyOf(d)
    ensures c.request == d.request && first == second && worlds[n + 1].db == worlds[n].db
  {
    hide Transact, IsTrace, Succeeds, AnsweredAt, ReplyAt, EffectiveAt, At, Commits, Legal;
    SuccessIsAnswer(worlds, events, m, n + 1, c, first);
    SuccessIsAnswer(worlds, events, n, n + 1, d, second);
    Before(worlds, events, m, n, c, first);
    OneEffectPerKey(Commits(worlds, events, n + 1), |Commits(worlds, events, m)|, |Commits(worlds, events, n)|);
  }

  lemma Before(worlds: seq<World>, events: seq<Event>, m: nat, n: nat, c: Command, reply: Reply)
    requires IsTrace(worlds, events, true) && m < n <= |events| && Succeeds(worlds, events, m, c, reply)
    ensures |Commits(worlds, events, m)| < |Commits(worlds, events, n)|
  {
    CommitsGrow(worlds, events, m + 1, n);
  }
}
