/**
 Runs of the provider: transactions of concurrent callers in the order in which they
 commit. What a command read at admission may be arbitrarily stale, so a run lets the
 values captured there be anything.
 */
module Runs {
  import opened Prelude
  import opened Tables
  import opened Commands
  import opened Invariants
  import opened Retentions

  datatype Step =
    | Execute(c: Command, now: int, ids: FreshIds, cap: Captured)
    | Initialize(org: Id, drawn: FreshIds)  // reading the status catalog creates it
    | Retain(action: Id, retention: Retention)

  predicate Legal(steps: seq<Step>) {
    forall step :: step in steps && step.Execute? ==> Shaped(step.c.request)
  }

  ghost function Outcomes(db: Db, step: Step): Outcome
    requires step.Execute? && Shaped(step.c.request)
  {
    Transact(db, step.c, step.now, step.ids, step.cap)
  }

  ghost function After(db: Db, step: Step): Db
    requires Legal([step])
  {
    assert step in [step];
    match step
    case Execute(_, _, _, _) => Outcomes(db, step).db
    case Initialize(org, ids) => if EnsureCatalog(db, org, ids).Ok? then EnsureCatalog(db, org, ids).value else db
    case Retain(action, retention) => Apply(db, action, retention)
  }

  ghost function Run(db: Db, steps: seq<Step>): Db
    requires Legal(steps)
  {
    if steps == [] then db else
      var last := |steps| - 1;
      assert forall step :: step in steps[..last] ==> step in steps;
      After(Run(db, steps[..last]), steps[last])
  }

  /** The database before step `n` of a run from the empty one. */
  ghost function At(steps: seq<Step>, n: nat): Db
    requires Legal(steps) && n <= |steps|
  {
    assert forall step :: step in steps[..n] ==> step in steps;
    Run(EmptyDb, steps[..n])
  }

  lemma AtNext(steps: seq<Step>, n: nat)
    requires Legal(steps) && n < |steps|
    ensures Legal([steps[n]]) && At(steps, n + 1) == After(At(steps, n), steps[n])
  {
    assert steps[..n + 1][..n] == steps[..n];
    assert steps[n] in steps;
  }

  /** A step whose transaction commits something. */
  ghost predicate Effective(db: Db, step: Step)
    requires Legal([step])
  {
    assert step in [step];
    match step
    case Execute(c, _, _, _) => KeyOf(c) !in db.commands && Outcomes(db, step).result.Ok?
    case Initialize(org, ids) => org !in db.workspaces && EnsureCatalog(db, org, ids).Ok?
    case Retain(action, _) => action !in db.retentions
  }

  ghost predicate Answered(db: Db, step: Step)
    requires Legal([step])
  {
    assert step in [step];
    step.Execute? && Outcomes(db, step).result.Ok?
  }

  // ---- Safety of every run

  /** What holds at first and is kept by every step holds throughout. */
  lemma {:induction false} Induction(p: Db -> bool, steps: seq<Step>, n: nat)
    requires Legal(steps) && n <= |steps|
    requires p(EmptyDb) && forall db, step :: p(db) && Legal([step]) ==> p(After(db, step))
    ensures p(At(steps, n))
  {
    if n > 0 {
      Induction(p, steps, n - 1);
      AtNext(steps, n - 1);
    }
  }

  lemma {:induction false} StepKeeps(db: Db, step: Step)
    requires Invariant(db) && Legal([step])
    ensures Invariant(After(db, step))
  {
    assert step in [step];
    match step
    case Execute(c, now, ids, cap) => TransactKeeps(db, c, now, ids, cap);
    case Initialize(org, ids) =>
      if EnsureCatalog(db, org, ids).Ok? {
        InitializeKeeps(db, org, ids);
      }
    case Retain(action, retention) => ApplyKeeps(db, action, retention);
  }

  /**
   Every reachable database: a Team's default state is its own, unarchived and unstarted;
   a status catalog has one default; live references only; an Issue's Team is one of its
   Project's and its state is that Team's; parents exist; the stream holds the revisions of
   every Team and Project as 1, 2, 3, ... and those of every Issue in ascending order.
   */
  lemma ReachableInvariant(steps: seq<Step>, n: nat)
    requires Legal(steps) && n <= |steps|
    ensures Invariant(At(steps, n))
  {
    EmptyInvariant();
    forall db, step | Invariant(db) && Legal([step]) ensures Invariant(After(db, step)) {
      StepKeeps(db, step);
    }
    var holds := db => Invariant(db);
    Induction(holds, steps, n);
    assert holds(At(steps, n));
  }

  // ---- Exactly-once effects

  /** What one transaction can do to the database, as seen from its command key. */
  lemma TransactFacts(db: Db, c: Command, now: int, ids: FreshIds, cap: Captured)
    requires Invariant(db) && Shaped(c.request)
    ensures var out := Transact(db, c, now, ids, cap);
            && (out.result.Err? ==> out.db == db)
            && (out.result.Ok? && KeyOf(c) in db.commands ==>
                  && out.db == db
                  && db.commands[KeyOf(c)] == Receipt(c.request, out.result.value))
            && (out.result.Ok? && KeyOf(c) !in db.commands ==>
                  out.db.commands == db.commands[KeyOf(c) := Receipt(c.request, out.result.value)])
            && (KeyOf(c) in db.commands && db.commands[KeyOf(c)].request != c.request ==>
                  out.result.Err? && (EnsureCatalog(db, c.request.org, ids).Ok? || !CatalogFirst(c.request) ==>
                    out.result == Refuse(IdempotencyConflict)))
  {
    if CatalogFirst(c.request) {
      if EnsureCatalog(db, c.request.org, ids).Ok? {
        EnsureCatalogShape(db, c.request.org, ids);
        var ready := EnsureCatalog(db, c.request.org, ids).value;
        InitializeKeeps(db, c.request.org, ids);
        ReservedFacts(db, ready, c, now, ids, cap);
      }
    } else {
      ReservedFacts(db, db, c, now, ids, cap);
    }
  }

  lemma ReservedFacts(before: Db, db: Db, c: Command, now: int, ids: FreshIds, cap: Captured)
    requires Invariant(db) && Shaped(c.request) && db.commands == before.commands
    requires CatalogFirst(c.request) ==> c.request.org in db.workspaces
    ensures var out := Reserved(before, db, c, now, ids, cap);
            && (out.result.Err? ==> out.db == before)
            && (out.result.Ok? && KeyOf(c) in db.commands ==>
                  out.db == db && db.commands[KeyOf(c)] == Receipt(c.request, out.result.value))
            && (out.result.Ok? && KeyOf(c) !in db.commands ==>
                  out.db.commands == db.commands[KeyOf(c) := Receipt(c.request, out.result.value)])
            && (KeyOf(c) in db.commands && db.commands[KeyOf(c)].request != c.request ==>
                  out.result == Refuse(IdempotencyConflict))
  {
    if KeyOf(c) !in db.commands && Perform(db, c, now, ids, cap).Ok? {
      PerformLeavesCommands(db, c, now, ids, cap);
    }
  }

  lemma PerformLeavesCommands(db: Db, c: Command, now: int, ids: FreshIds, cap: Captured)
    requires Invariant(db) && Shaped(c.request) && Perform(db, c, now, ids, cap).Ok?
    ensures Perform(db, c, now, ids, cap).value.db.commands == db.commands
  {
    if NeedsCatalog(c.request) {
      CatalogKeeps(db, c.request.org, ids);
      BodyKeeps(EnsureCatalog(db, c.request.org, ids).value, c.actor, now, ids, c.request, cap);
    } else {
      BodyKeeps(db, c.actor, now, ids, c.request, cap);
    }
  }

  /** Steps without a command key leave the receipts as they are. */
  lemma QuietFacts(db: Db, step: Step)
    requires Legal([step]) && !step.Execute?
    ensures !Effective(db, step) ==> After(db, step) == db
    ensures After(db, step).commands == db.commands
  {
    match step
    case Initialize(org, ids) =>
      if EnsureCatalog(db, org, ids).Ok? {
        EnsureCatalogShape(db, org, ids);
      }
    case Retain(_, _) =>
  }

  lemma StepFacts(db: Db, step: Step)
    requires Invariant(db) && Legal([step])
    ensures !Effective(db, step) ==> After(db, step) == db
    ensures forall k :: k in db.commands ==>
              k in After(db, step).commands && After(db, step).commands[k] == db.commands[k]
    ensures Answered(db, step) ==>
              && KeyOf(step.c) in After(db, step).commands
              && After(db, step).commands[KeyOf(step.c)] == Receipt(step.c.request, Outcomes(db, step).result.value)
  {
    hide Transact, Invariant, EnsureCatalog, Apply, CatalogFirst, Shaped;
    assert step in [step];
    if step.Execute? {
      TransactFacts(db, step.c, step.now, step.ids, step.cap);
    } else {
      QuietFacts(db, step);
    }
  }

  lemma LegalAt(steps: seq<Step>, n: nat)
    requires Legal(steps) && n < |steps|
    ensures Legal([steps[n]])
  {
    assert steps[n] in steps;
  }

  ghost predicate AnsweredAt(steps: seq<Step>, n: nat)
    requires Legal(steps) && n < |steps|
  {
    LegalAt(steps, n);
    Answered(At(steps, n), steps[n])
  }

  ghost predicate EffectiveAt(steps: seq<Step>, n: nat)
    requires Legal(steps) && n < |steps|
  {
    LegalAt(steps, n);
    Effective(At(steps, n), steps[n])
  }

  ghost function ReplyAt(steps: seq<Step>, n: nat): Reply
    requires Legal(steps) && n < |steps| && AnsweredAt(steps, n)
  {
    LegalAt(steps, n);
    assert steps[n] in [steps[n]];
    Outcomes(At(steps, n), steps[n]).result.value
  }

  lemma StepFactsAt(steps: seq<Step>, n: nat)
    requires Legal(steps) && n < |steps|
    ensures !EffectiveAt(steps, n) ==> At(steps, n + 1) == At(steps, n)
    ensures forall k :: k in At(steps, n).commands ==>
              k in At(steps, n + 1).commands && At(steps, n + 1).commands[k] == At(steps, n).commands[k]
    ensures AnsweredAt(steps, n) ==>
              && KeyOf(steps[n].c) in At(steps, n + 1).commands
              && At(steps, n + 1).commands[KeyOf(steps[n].c)] == Receipt(steps[n].c.request, ReplyAt(steps, n))
  {
    AtNext(steps, n);
    ReachableInvariant(steps, n);
    StepFacts(At(steps, n), steps[n]);
  }

  /** A receipt, once written, is never changed or removed. */
  lemma {:induction false} ReceiptsLast(steps: seq<Step>, i: nat, j: nat, k: CommandKey)
    requires Legal(steps) && i <= j <= |steps| && k in At(steps, i).commands
    ensures k in At(steps, j).commands && At(steps, j).commands[k] == At(steps, i).commands[k]
    decreases j
  {
    hide Transact;
    if i < j {
      ReceiptsLast(steps, i, j - 1, k);
      StepFactsAt(steps, j - 1);
    }
  }

  /**
   Under one command key every success is the same success: same request, same reply, and
   only the first one has an effect, whatever happened to the entities in between.
   */
  lemma OneEffectPerKey(steps: seq<Step>, i: nat, j: nat)
    requires Legal(steps) && i < j < |steps|
    requires AnsweredAt(steps, i) && AnsweredAt(steps, j) && KeyOf(steps[i].c) == KeyOf(steps[j].c)
    ensures steps[i].c.request == steps[j].c.request && ReplyAt(steps, i) == ReplyAt(steps, j)
    ensures !EffectiveAt(steps, j) && At(steps, j + 1) == At(steps, j)
  {
    StepFactsAt(steps, i);
    ReceiptsLast(steps, i + 1, j, KeyOf(steps[i].c));
    StepFactsAt(steps, j);
    ReceiptsLast(steps, j, j + 1, KeyOf(steps[i].c));
  }

  lemma CatalogReady(db: Db, org: Id, ids: FreshIds)
    ensures org in db.workspaces ==> EnsureCatalog(db, org, ids) == Ok(db)
  {
  }

  /** The same operation. */
  predicate SameKind(a: Request, b: Request) {
    || (a.PutTeam? && b.PutTeam?) || (a.SetMember? && b.SetMember?)
    || (a.PutState? && b.PutState?) || (a.ReorderStates? && b.ReorderStates?)
    || (a.ArchiveState? && b.ArchiveState?) || (a.DeleteState? && b.DeleteState?)
    || (a.PutStatus? && b.PutStatus?) || (a.ReorderStatuses? && b.ReorderStatuses?)
    || (a.ArchiveStatus? && b.ArchiveStatus?) || (a.DeleteStatus? && b.DeleteStatus?)
    || (a.CreateProject? && b.CreateProject?) || (a.UpdateProject? && b.UpdateProject?)
    || (a.ArchiveProject? && b.ArchiveProject?) || (a.CreateIssue? && b.CreateIssue?)
    || (a.UpdateIssue? && b.UpdateIssue?) || (a.MoveIssue? && b.MoveIssue?)
    || (a.ArchiveIssue? && b.ArchiveIssue?) || (a.SetAssignee? && b.SetAssignee?)
  }

  /** A key is the caller's, the actor's and the operation's own. */
  lemma KeysExactly(c: Command, d: Command)
    ensures KeyOf(c) == KeyOf(d) <==>
            && c.caller == d.caller && c.actor == d.actor && c.idempotencyKey == d.idempotencyKey
            && SameKind(c.request, d.request)
  {
  }

  /** Step `i` took effect under this key, for this request and with this reply. */
  ghost predicate Originates(steps: seq<Step>, i: nat, k: CommandKey, receipt: Receipt)
    requires Legal(steps)
  {
    && i < |steps| && EffectiveAt(steps, i) && AnsweredAt(steps, i) && KeyOf(steps[i].c) == k
    && receipt == Receipt(steps[i].c.request, ReplyAt(steps, i))
  }

  lemma ReceiptsAdded(db: Db, step: Step)
    requires Invariant(db) && Legal([step])
    ensures forall k :: k in After(db, step).commands && k !in db.commands ==>
              Effective(db, step) && Answered(db, step) && KeyOf(step.c) == k
  {
    hide Transact, Invariant, EnsureCatalog, Apply, CatalogFirst, Shaped;
    assert step in [step];
    if step.Execute? {
      TransactFacts(db, step.c, step.now, step.ids, step.cap);
    } else {
      QuietFacts(db, step);
    }
  }

  lemma LatestOrigin(steps: seq<Step>, n: nat, k: CommandKey)
    requires Legal(steps) && n < |steps| && k in At(steps, n + 1).commands && k !in At(steps, n).commands
    ensures Originates(steps, n, k, At(steps, n + 1).commands[k])
  {
    hide Transact, Invariant;
    AtNext(steps, n);
    ReachableInvariant(steps, n);
    ReceiptsAdded(At(steps, n), steps[n]);
    StepFactsAt(steps, n);
  }

  /** Every receipt was written by an effective step. */
  lemma {:induction false} ReceiptHasOrigin(steps: seq<Step>, n: nat, k: CommandKey)
    requires Legal(steps) && n <= |steps| && k in At(steps, n).commands
    ensures exists i :: 0 <= i < n && Originates(steps, i, k, At(steps, n).commands[k])
  {
    hide Transact, EffectiveAt, AnsweredAt, ReplyAt, Originates;
    if n > 0 {
      StepFactsAt(steps, n - 1);
      if k in At(steps, n - 1).commands {
        ReceiptHasOrigin(steps, n - 1, k);
      } else {
        LatestOrigin(steps, n - 1, k);
      }
    }
  }

  /**
   Nobody is answered for nothing: a success without an effect repeats the reply of an earlier
   effective step of the same caller, actor, operation and idempotency key, with the same request.
   */
  lemma ReplayHasOrigin(steps: seq<Step>, j: nat)
    requires Legal(steps) && j < |steps| && AnsweredAt(steps, j) && !EffectiveAt(steps, j)
    ensures exists i :: 0 <= i < j && EffectiveAt(steps, i) && AnsweredAt(steps, i)
              && steps[i].c.caller == steps[j].c.caller && steps[i].c.actor == steps[j].c.actor
              && steps[i].c.idempotencyKey == steps[j].c.idempotencyKey && steps[i].c.request == steps[j].c.request
              && ReplyAt(steps, i) == ReplyAt(steps, j)
  {
    hide Transact, Invariant;
    StepFactsAt(steps, j);
    var k := KeyOf(steps[j].c);
    ReceiptHasOrigin(steps, j, k);
    var i :| 0 <= i < j && Originates(steps, i, k, At(steps, j).commands[k]);
    KeysExactly(steps[i].c, steps[j].c);
  }

  /** Another request under a used key is refused and changes nothing. */
  lemma ConflictChangesNothing(steps: seq<Step>, i: nat, j: nat)
    requires Legal(steps) && i < j < |steps| && AnsweredAt(steps, i)
    requires steps[j].Execute? && KeyOf(steps[i].c) == KeyOf(steps[j].c) && steps[i].c.request != steps[j].c.request
    ensures !AnsweredAt(steps, j) && At(steps, j + 1) == At(steps, j)
    ensures !CatalogFirst(steps[j].c.request) || steps[j].c.request.org in At(steps, j).workspaces ==>
              Legal([steps[j]]) && Outcomes(At(steps, j), steps[j]).result == Refuse(IdempotencyConflict)
  {
    LegalAt(steps, j);
    StepFactsAt(steps, i);
    ReceiptsLast(steps, i + 1, j, KeyOf(steps[i].c));
    StepFactsAt(steps, j);
    ReachableInvariant(steps, j);
    var step := steps[j];
    assert step in [step];
    TransactFacts(At(steps, j), step.c, step.now, step.ids, step.cap);
    CatalogReady(At(steps, j), step.c.request.org, step.ids);
  }

  /** The steps of a run that committed something. */
  ghost function Effects(steps: seq<Step>): seq<Step>
    requires Legal(steps)
  {
    if steps == [] then [] else
      var last := |steps| - 1;
      assert forall step :: step in steps[..last] ==> step in steps;
      if EffectiveAt(steps, last) then Effects(steps[..last]) + [steps[last]] else Effects(steps[..last])
  }

  /**
   Retries, conflicts and failures can be struck from a run: what is left reaches the same
   database, every step of it commits something, and no command key occurs in it twice.
   */
  lemma {:induction false} ReplaysRemovable(steps: seq<Step>)
    requires Legal(steps)
    ensures var kept := Effects(steps);
            && Legal(kept)
            && At(kept, |kept|) == At(steps, |steps|)
            && (forall n :: 0 <= n < |kept| ==> EffectiveAt(kept, n))
  {
    if steps != [] {
      var last := |steps| - 1;
      PrefixRun(steps, last);
      ReplaysRemovable(steps[..last]);
      if EffectiveAt(steps, last) {
        Extended(Effects(steps[..last]), steps, last);
      } else {
        StepFactsAt(steps, last);
      }
    }
  }

  /** Appending an effective step to a run that reaches the same database. */
  lemma Extended(before: seq<Step>, steps: seq<Step>, last: nat)
    requires Legal(before) && Legal(steps) && last < |steps| && EffectiveAt(steps, last)
    requires At(before, |before|) == At(steps, last)
    requires forall n :: 0 <= n < |before| ==> EffectiveAt(before, n)
    ensures var kept := before + [steps[last]];
            && Legal(kept)
            && At(kept, |kept|) == At(steps, last + 1)
            && (forall n :: 0 <= n < |kept| ==> EffectiveAt(kept, n))
  {
    hide Transact;
    var kept := before + [steps[last]];
    LegalAt(steps, last);
    assert Legal(kept);
    AtNext(steps, last);
    SamePrefix(kept, before, |before|);
    AtNext(kept, |before|);
    forall n | 0 <= n < |kept| ensures EffectiveAt(kept, n) {
      if n < |before| {
        assert EffectiveAt(before, n);
        SamePrefix(kept, before, n);
        SameEffect(kept, before, n, n);
      } else {
        SameEffect(kept, steps, n, last);
      }
    }
  }

  lemma SamePrefix(a: seq<Step>, b: seq<Step>, n: nat)
    requires Legal(a) && Legal(b) && n <= |a| && n <= |b| && a[..n] == b[..n]
    ensures At(a, n) == At(b, n)
  {
  }

  lemma AppendRuns(steps: seq<Step>, step: Step)
    requires Legal(steps) && Legal([step])
    ensures Legal(steps + [step]) && At(steps + [step], |steps| + 1) == After(At(steps, |steps|), step)
  {
    var longer := steps + [step];
    assert step in [step];
    assert forall s :: s in longer ==> s in steps || s == step;
    AtNext(longer, |steps|);
    SamePrefix(longer, steps, |steps|);
  }

  lemma SameEffect(a: seq<Step>, b: seq<Step>, m: nat, n: nat)
    requires Legal(a) && Legal(b) && m < |a| && n < |b| && a[m] == b[n] && At(a, m) == At(b, n)
    ensures EffectiveAt(a, m) <==> EffectiveAt(b, n)
  {
  }

  lemma PrefixRun(steps: seq<Step>, n: nat)
    requires Legal(steps) && n <= |steps|
    ensures Legal(steps[..n]) && At(steps[..n], n) == At(steps, n)
  {
    assert forall step :: step in steps[..n] ==> step in steps;
    assert steps[..n][..n] == steps[..n];
  }

  lemma EffectsHaveDistinctKeys(steps: seq<Step>, i: nat, j: nat)
    requires Legal(steps) && i < j < |steps| && steps[i].Execute? && steps[j].Execute?
    requires EffectiveAt(steps, i) && EffectiveAt(steps, j)
    ensures KeyOf(steps[i].c) != KeyOf(steps[j].c)
  {
    if KeyOf(steps[i].c) == KeyOf(steps[j].c) {
      OneEffectPerKey(steps, i, j);
    }
  }

  // ---- Retries and the checks made before the transaction

  lemma AdmittedIsShaped(db: Db, actor: Id, request: Request)
    requires Admit(db, actor, request).Ok?
    ensures Shaped(request)
  {
  }

  /** What a caller is told: the checks read `seen`, the transaction runs later on `db`. */
  ghost function Served(seen: Db, db: Db, c: Command, now: int, ids: FreshIds): Result<Reply, StorageError> {
    match Admit(seen, c.actor, c.request)
    case Err(e) => Err(e)
    case Ok(cap) =>
      AdmittedIsShaped(seen, c.actor, c.request);
      Transact(db, c, now, ids, Seeing(cap, db)).result
  }

  /** A retry is answered with the recorded reply exactly when it is admitted again. */
  lemma RetryAnsweredExactly(seen: Db, db: Db, c: Command, now: int, ids: FreshIds)
    requires Invariant(db)
    requires KeyOf(c) in db.commands && db.commands[KeyOf(c)].request == c.request
    ensures Served(seen, db, c, now, ids) == Ok(db.commands[KeyOf(c)].reply) <==> Admit(seen, c.actor, c.request).Ok?
  {
    if Admit(seen, c.actor, c.request).Ok? {
      AdmittedIsShaped(seen, c.actor, c.request);
      TransactFacts(db, c, now, ids, Seeing(Admit(seen, c.actor, c.request).value, db));
      assert CatalogFirst(c.request) ==> c.request.org in db.workspaces;
    }
  }
}
