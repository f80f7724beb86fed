/** What a command answers against what the reads answer afterwards, and what later commands make of it. */
module Readback {
  import opened Prelude
  import opened Text
  import opened Tables
  import opened Sorting
  import opened Commands
  import opened Invariants
  import opened Retentions
  import opened Runs
  import opened Effects
  import opened Identifiers
  import opened Pages
  import Views

  // ---- Previous identifiers are the Issue's own

  /** Every identifier that is recorded now and was not before is shown by its Issue now. */
  ghost predicate NewNamesShown(before: Db, after: Db) {
    forall a :: a in after.aliases && a !in before.aliases ==> Shows(after, after.aliases[a].issue, a.0, a.1)
  }

  lemma CommandNames(db: Db, c: Command, now: int, ids: FreshIds, cap: Captured)
    requires Shaped(c.request) && KeyOf(c) !in db.commands && Transact(db, c, now, ids, cap).result.Ok?
    ensures NewNamesShown(db, Transact(db, c, now, ids, cap).db)
  {
    if c.request.CreateIssue? {
      CreateIssueEffect(db, c, now, ids, cap);
    } else if c.request.MoveIssue? {
      MoveIssueEffect(db, c, now, ids, cap);
    } else {
      Views.TransactFrame(db, c, now, ids, cap);
    }
    hide Transact, Previous, Decimal, ParseRevision, IdentifierShown;
  }

  lemma StepNamesShown(db: Db, step: Step)
    requires Invariant(db) && Legal([step])
    ensures NewNamesShown(db, After(db, step))
  {
    hide Transact, Invariant, EnsureCatalog;
    assert step in [step];
    match step
    case Execute(c, now, ids, cap) =>
      if Effective(db, step) {
        CommandNames(db, c, now, ids, cap);
      } else {
        StepFacts(db, step);
      }
    case Initialize(org, ids) =>
      if EnsureCatalog(db, org, ids).Ok? {
        EnsureCatalogShape(db, org, ids);
      }
    case Retain(_, _) =>
  }

  /** Whatever is recorded for an Issue was once shown by it. */
  lemma {:induction false} RecordedWasShown(steps: seq<Step>, n: nat, a: (Id, string))
    requires Legal(steps) && n <= |steps| && a in At(steps, n).aliases
    ensures exists i :: 0 <= i <= n && Shows(At(steps, i), At(steps, n).aliases[a].issue, a.0, a.1)
  {
    hide Transact, After, Invariant;
    if n > 0 {
      AtNext(steps, n - 1);
      ReachableInvariant(steps, n - 1);
      StepNamesShown(At(steps, n - 1), steps[n - 1]);
      if a in At(steps, n - 1).aliases {
        RecordedWasShown(steps, n - 1, a);
        StepKeepsRecord(steps, n - 1, a);
      }
    }
  }

  /**
   In every run the previous identifiers of an Issue are exactly those that it showed at some time
   and does not show now; no other Issue showed any of them, earlier or later.
   */
  lemma PreviousAreOwn(steps: seq<Step>, n: nat, x: Id, text: string)
    requires Legal(steps) && n <= |steps| && x in At(steps, n).issues
    ensures var row := At(steps, n).issues[x];
            && (text in Previous(At(steps, n), x) <==>
                  text != row.identifier && exists i :: 0 <= i <= n && Shows(At(steps, i), x, row.org, text))
            && (text in Previous(At(steps, n), x) ==>
                  forall j, y :: 0 <= j <= |steps| && Shows(At(steps, j), y, row.org, text) ==> y == x)
  {
    hide Transact;
    var db, org := At(steps, n), At(steps, n).issues[x].org;
    PreviousExactly(db, x);
    if text in Previous(db, x) {
      RecordedWasShown(steps, n, (org, text));
      var i :| 0 <= i <= n && Shows(At(steps, i), x, org, text);
      forall j, y | 0 <= j <= |steps| && Shows(At(steps, j), y, org, text) ensures y == x {
        if i <= j {
          NeverReissued(steps, i, j, x, y, org, text);
        } else {
          NeverReissued(steps, j, i, y, x, org, text);
        }
      }
    }
    forall i | 0 <= i <= n && Shows(At(steps, i), x, org, text) && text != db.issues[x].identifier
      ensures text in Previous(db, x)
    {
      PreviousIsComplete(steps, i, n, x, org, text);
    }
  }

  // ---- A reply is the state that it leaves

  /** The reply is the Issue's row and its previous identifiers as they are when the transaction commits. */
  ghost predicate AnswersState(out: Outcome, issue: Id) {
    && issue in out.db.issues
    && out.result == Ok(IssueReply(issue, out.db.issues[issue], Previous(out.db, issue)))
  }

  predicate AnswersIssue(r: Request) {
    r.CreateIssue? || r.UpdateIssue? || r.MoveIssue? || r.ArchiveIssue?
  }

  lemma CreateIssueAnswers(db: Db, c: Command, now: int, ids: FreshIds, cap: Captured)
    requires c.request.CreateIssue? && KeyOf(c) !in db.commands && Transact(db, c, now, ids, cap).result.Ok?
    ensures AnswersState(Transact(db, c, now, ids, cap), c.request.issue)
  {
    CreateIssueEffect(db, c, now, ids, cap);
    hide Transact, Previous, Decimal, ParseRevision, IdentifierShown;
  }

  lemma UpdateIssueAnswers(db: Db, c: Command, now: int, ids: FreshIds, cap: Captured)
    requires c.request.UpdateIssue? && KeyOf(c) !in db.commands && Transact(db, c, now, ids, cap).result.Ok?
    ensures AnswersState(Transact(db, c, now, ids, cap), c.request.issue)
  {
    UpdateIssueEffect(db, c, now, ids, cap);
    hide Transact, Previous, Decimal, ParseRevision, IdentifierShown;
  }

  lemma MoveIssueAnswers(db: Db, c: Command, now: int, ids: FreshIds, cap: Captured)
    requires c.request.MoveIssue? && KeyOf(c) !in db.commands && Transact(db, c, now, ids, cap).result.Ok?
    ensures AnswersState(Transact(db, c, now, ids, cap), c.request.issue)
  {
    MoveIssueEffect(db, c, now, ids, cap);
    hide Transact, Previous, Decimal, ParseRevision, IdentifierShown;
  }

  lemma ArchiveIssueAnswers(db: Db, c: Command, now: int, ids: FreshIds, cap: Captured)
    requires c.request.ArchiveIssue? && KeyOf(c) !in db.commands && Transact(db, c, now, ids, cap).result.Ok?
    ensures AnswersState(Transact(db, c, now, ids, cap), c.request.issue)
  {
    ArchiveIssueEffect(db, c, now, ids, cap);
    hide Transact, Previous, Decimal, ParseRevision, IdentifierShown;
  }

  lemma CommandAnswers(db: Db, c: Command, now: int, ids: FreshIds, cap: Captured)
    requires AnswersIssue(c.request) && KeyOf(c) !in db.commands && Transact(db, c, now, ids, cap).result.Ok?
    ensures AnswersState(Transact(db, c, now, ids, cap), c.request.issue)
  {
    hide Transact, AnswersState;
    match c.request
    case CreateIssue(_, _, _, _, _, _, _) => CreateIssueAnswers(db, c, now, ids, cap);
    case UpdateIssue(_, _, _, _, _, _) => UpdateIssueAnswers(db, c, now, ids, cap);
    case MoveIssue(_, _, _, _, _) => MoveIssueAnswers(db, c, now, ids, cap);
    case ArchiveIssue(_, _, _, _) => ArchiveIssueAnswers(db, c, now, ids, cap);
  }

  /** A command about an Issue takes effect at step `n`. */
  ghost predicate Replies(steps: seq<Step>, n: nat)
    requires Legal(steps)
  {
    n < |steps| && EffectiveAt(steps, n) && steps[n].Execute? && AnswersIssue(steps[n].c.request)
  }

  lemma ReplyIsState(steps: seq<Step>, n: nat)
    requires Legal(steps) && Replies(steps, n)
    ensures AnsweredAt(steps, n) && steps[n].c.request.issue in At(steps, n + 1).issues
    ensures var issue := steps[n].c.request.issue;
            ReplyAt(steps, n)
            == IssueReply(issue, At(steps, n + 1).issues[issue], Previous(At(steps, n + 1), issue))
  {
    AtNext(steps, n);
    var step := steps[n];
    assert step in [step];
    CommandAnswers(At(steps, n), step.c, step.now, step.ids, step.cap);
    hide Transact, Previous;
  }

  /** The alias rows that a statement sees are those of the tables. */
  ghost predicate Mirrors(s: Snapshot) {
    forall org, issue, text, at ::
      NamedAt(s, org, issue, text, at) <==> (org, text) in s.db.aliases && s.db.aliases[(org, text)] == Alias(issue, at)
  }

  lemma ListedPrevious(s: Snapshot, issue: Id)
    requires Mirrors(s) && issue in s.db.issues
    ensures var row := s.db.issues[issue];
            (set text | text in PreviousOf(s, row.org, issue, row.identifier)) == Previous(s.db, issue)
  {
    var row := s.db.issues[issue];
    PreviousExactly(s.db, issue);
    hide PreviousOf, Previous;
    forall text ensures text in PreviousOf(s, row.org, issue, row.identifier) <==> text in Previous(s.db, issue) {
      PreviousListed(s, row.org, issue, row.identifier, text);
      if text in Previous(s.db, issue) {
        assert NamedAt(s, row.org, issue, text, s.db.aliases[(row.org, text)].createdAt);
      }
    }
  }

  lemma GotRow(s: Snapshot, actor: Id, org: Id, issue: Id)
    requires issue in s.db.issues && s.db.issues[issue].org == org && GetIssue(s, actor, org, issue).Ok?
    ensures var got := GetIssue(s, actor, org, issue).value;
            && got.id == issue && got.row == s.db.issues[issue]
            && got.previous == PreviousOf(s, org, issue, got.row.identifier) && got.labels == LabelIds(s, org, issue)
  {
    GetExactly(s, actor, org, issue);
  }

  /**
   Who may see the Issue and reads it right after a command about it took effect gets the row
   that the command answered, and the same previous identifiers.
   */
  lemma GetAgreesWithReply(steps: seq<Step>, n: nat, s: Snapshot, actor: Id)
    requires Legal(steps) && Replies(steps, n)
    requires s.db == At(steps, n + 1) && Mirrors(s)
    requires GetIssue(s, actor, steps[n].c.request.org, steps[n].c.request.issue).Ok?
    ensures AnsweredAt(steps, n)
    ensures var got := GetIssue(s, actor, steps[n].c.request.org, steps[n].c.request.issue).value;
            var reply := ReplyAt(steps, n);
            && reply.IssueReply? && got.id == reply.id == steps[n].c.request.issue
            && got.row == reply.issue && (set text | text in got.previous) == reply.previous
  {
    ReplyIsState(steps, n);
    OwnOrganization(steps, n);
    hide Transact, GetIssue, EffectiveAt, AnsweredAt, ReplyAt, At, Previous, PreviousOf, Mirrors;
    var r := steps[n].c.request;
    GotRow(s, actor, r.org, r.issue);
    ListedPrevious(s, r.issue);
  }

  lemma OwnOrganization(steps: seq<Step>, n: nat)
    requires Legal(steps) && Replies(steps, n)
    ensures steps[n].c.request.issue in At(steps, n + 1).issues
    ensures At(steps, n + 1).issues[steps[n].c.request.issue].org == steps[n].c.request.org
  {
    AtNext(steps, n);
    var step := steps[n];
    assert step in [step];
    Views.CommandRevises(At(steps, n), step.c, step.now, step.ids, step.cap, step.c.request.issue);
    CommandOwns(At(steps, n), step.c, step.now, step.ids, step.cap);
    hide Transact;
  }

  lemma CommandOwns(db: Db, c: Command, now: int, ids: FreshIds, cap: Captured)
    requires AnswersIssue(c.request) && KeyOf(c) !in db.commands && Transact(db, c, now, ids, cap).result.Ok?
    ensures c.request.CreateIssue? || (c.request.issue in db.issues && db.issues[c.request.issue].org == c.request.org)
  {
    match c.request
    case UpdateIssue(_, _, _, _, _, _) => UpdateIssueEffect(db, c, now, ids, cap);
    case MoveIssue(_, _, _, _, _) => MoveIssueEffect(db, c, now, ids, cap);
    case ArchiveIssue(_, _, _, _) => ArchiveIssueEffect(db, c, now, ids, cap);
    case CreateIssue(_, _, _, _, _, _, _) =>
    hide Transact, Previous, Decimal, ParseRevision, IdentifierShown;
  }

  // ---- Archived issues leave the default pages

  /** Step `k` archives or unarchives this Issue. */
  ghost predicate Toggles(steps: seq<Step>, k: nat, issue: Id)
    requires Legal(steps) && k < |steps|
  {
    EffectiveAt(steps, k) && steps[k].Execute? && steps[k].c.request.ArchiveIssue? && steps[k].c.request.issue == issue
  }

  lemma ArchivedNow(steps: seq<Step>, n: nat, issue: Id)
    requires Legal(steps) && n < |steps| && Toggles(steps, n, issue)
    ensures issue in At(steps, n + 1).issues && At(steps, n + 1).issues[issue].archived == steps[n].c.request.archived
  {
    AtNext(steps, n);
    var step := steps[n];
    assert step in [step];
    ArchiveIssueEffect(At(steps, n), step.c, step.now, step.ids, step.cap);
    hide Transact, Previous, ParseRevision;
  }

  lemma {:induction false} ArchivedSince(steps: seq<Step>, n: nat, m: nat, issue: Id)
    requires Legal(steps) && n < m <= |steps| && Toggles(steps, n, issue)
    requires forall k :: n < k < m ==> !Toggles(steps, k, issue)
    ensures issue in At(steps, m).issues && At(steps, m).issues[issue].archived == steps[n].c.request.archived
    decreases m
  {
    hide Transact, EffectiveAt, At;
    if m == n + 1 {
      ArchivedNow(steps, n, issue);
    } else {
      ArchivedSince(steps, n, m - 1, issue);
      ArchivedKept(steps, m - 1, issue);
    }
  }

  lemma ArchivedKept(steps: seq<Step>, k: nat, issue: Id)
    requires Legal(steps) && k < |steps| && !Toggles(steps, k, issue) && issue in At(steps, k).issues
    ensures issue in At(steps, k + 1).issues
    ensures At(steps, k + 1).issues[issue].archived == At(steps, k).issues[issue].archived
  {
    hide Transact, Effective, After;
    AtNext(steps, k);
    StepFactsAt(steps, k);
    Views.EffectiveHere(steps, k);
    if EffectiveAt(steps, k) {
      Views.StepRevises(At(steps, k), steps[k], issue);
      NotCreatedAgain(steps, k, issue);
    }
  }

  lemma NotCreatedAgain(steps: seq<Step>, k: nat, issue: Id)
    requires Legal(steps) && k < |steps| && EffectiveAt(steps, k) && issue in At(steps, k).issues
    ensures !(steps[k].Execute? && steps[k].c.request.CreateIssue? && steps[k].c.request.issue == issue)
  {
    var step := steps[k];
    assert step in [step];
    if step.Execute? && step.c.request.CreateIssue? {
      CreateIssueEffect(At(steps, k), step.c, step.now, step.ids, step.cap);
      hide Transact, Previous, Decimal, IdentifierShown;
    }
  }

  /**
   From an accepted archive until it is undone, the Issue is on no page that leaves archived ones
   out; from an accepted unarchive on, such pages treat it like pages that do not.
   */
  lemma ArchivedIsNotListed(steps: seq<Step>, n: nat, m: nat, s: Snapshot, actor: Id, scope: Scope)
    requires Legal(steps) && n < m <= |steps| && steps[n].Execute? && steps[n].c.request.ArchiveIssue?
    requires Toggles(steps, n, steps[n].c.request.issue)
    requires forall k :: n < k < m ==> !Toggles(steps, k, steps[n].c.request.issue)
    requires s.db == At(steps, m) && !scope.includeArchived
    ensures var issue := steps[n].c.request.issue;
            Wanted(s, actor, scope, issue) <==>
            !steps[n].c.request.archived && Wanted(s, actor, scope.(includeArchived := true), issue)
  {
    var issue := steps[n].c.request.issue;
    ArchivedSince(steps, n, m, issue);
    hide Transact, GetIssue, Toggles;
    WantedExactly(s, actor, scope, issue);
    WantedExactly(s, actor, scope.(includeArchived := true), issue);
    if issue in s.db.issues && GetIssue(s, actor, scope.org, issue).Ok? && s.db.issues[issue].org == scope.org {
      GotRow(s, actor, scope.org, issue);
    }
  }
}
