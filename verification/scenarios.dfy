/** Concrete runs on which a promise of the provider fails. */
module Scenarios {
  import opened Prelude
  import opened Text
  import opened Tables
  import opened Reorder
  import opened Commands
  import opened Invariants
  import opened Runs
  import Effects
  import Identifiers

  const IDS: FreshIds := ["a", "b", "c", "d", "e", "f", "g", "h", "i", "j", "k"]

  lemma IdsDistinct()
    ensures forall m, n :: 0 <= m < n < 11 ==> IDS[m] != IDS[n]
  {
    assert forall m :: 0 <= m < 11 ==> IDS[m][0] as int == 'a' as int + m;
  }

  lemma FirstIds()
    ensures Effects.Fresh(IDS[..6], {}) && Effects.Fresh(IDS[6..][..5], {})
  {
    IdsDistinct();
  }

  // ---- A Team and a Project to start from

  const TODO_ID := "h"

  function MakeTeam(private: bool): Command {
    Command("api", "ann", "1", PutTeam("o", "t", "AB", "Team", private, None, None))
  }

  const MakeProject := Command("api", "ann", "2", CreateProject("o", "p", "Project", "t", ["t"], None))

  predicate OwnStates(states: map<Id, WorkflowState>) {
    forall s :: s in states ==> states[s].team == "t" && s in IDS && states[s].name != "Review"
  }

  /** Team `t` with key `AB` leads Project `p`; there is nothing else. */
  ghost predicate Opened(db: Db, private: bool) {
    && db.teams == map["t" := Team("o", "AB", "Team", private, TODO_ID, 1, 1)]
    && TODO_ID in db.states && db.states[TODO_ID] == WorkflowState("o", "t", "Todo", Unstarted, 1, false, 1)
    && OwnStates(db.states)
    && db.members == map[] && db.issues == map[] && db.aliases == map[]
    && "p" in db.projects && db.projects["p"].org == "o" && db.projects["p"].teams == {"t"}
    && db.commands.Keys == {KeyOf(MakeTeam(private)), KeyOf(MakeProject)}
  }

  lemma KeyIsValid()
    ensures ValidKey("AB")
  {
    assert forall c :: c in "AB" ==> c == 'A' || c == 'B';
  }

  lemma FirstTeam(db: Db, private: bool)
    requires db.teams == map[] && db.states == map[]
    ensures var out := PutTeamBody(db, "ann", MakeTeam(private).request, IDS);
            && out.Ok?
            && out.value.db == db.(teams := map["t" := Team("o", "AB", "Team", private, TODO_ID, 1, 1)],
                                   states := out.value.db.states)
            && TODO_ID in out.value.db.states
            && out.value.db.states[TODO_ID] == WorkflowState("o", "t", "Todo", Unstarted, 1, false, 1)
            && OwnStates(out.value.db.states)
  {
    IdsDistinct();
    FirstIds();
    Effects.StatesInsertable(db.states, "o", "t", IDS, 5);
    forall k | 0 <= k < 5 ensures STATE_DEFAULTS[k].0 != "Review" {
      assert "Review"[0] == 'R' && "Backlog"[0] == 'B' && "Todo"[0] == 'T' && "In Progress"[0] == 'I'
             && "Done"[0] == 'D'
             && "Canceled"[0] == 'C';
    }
    InsertStatesFacts(db.states, "o", "t", IDS, 5);
    assert IDS[6..][TODO] == TODO_ID;
    KeyIsValid();
  }

  lemma FirstCatalog()
    ensures var out := EnsureCatalog(EmptyDb, "o", IDS);
            && out.Ok? && "o" in out.value.workspaces
            && out.value == EmptyDb.(workspaces := out.value.workspaces, statuses := out.value.statuses)
  {
    FirstIds();
    Effects.StatusesInsertable(EmptyDb.statuses, "o", IDS, 6);
  }

  lemma TeamMade(private: bool)
    ensures var out := Transact(EmptyDb, MakeTeam(private), 0, IDS, NOTHING);
            && out.result.Ok?
            && out.db.teams == map["t" := Team("o", "AB", "Team", private, TODO_ID, 1, 1)]
            && TODO_ID in out.db.states
            && out.db.states[TODO_ID] == WorkflowState("o", "t", "Todo", Unstarted, 1, false, 1)
            && OwnStates(out.db.states)
            && out.db.members == map[] && out.db.issues == map[] && out.db.aliases == map[] && out.db.projects == map[]
            && out.db.commands.Keys == {KeyOf(MakeTeam(private))}
            && "o" in out.db.workspaces
  {
    FirstCatalog();
    FirstTeam(EnsureCatalog(EmptyDb, "o", IDS).value, private);
  }

  lemma DefaultResolves(db: Db)
    requires StatusesOk(db.workspaces, db.statuses) && "o" in db.workspaces
    ensures ResolveStatus(db, "o", None).Ok?
  {
  }

  lemma FirstProject(db: Db)
    requires "o" in db.workspaces && ResolveStatus(db, "o", None).Ok? && db.projects == map[]
    requires "t" in db.teams && db.teams["t"].org == "o"
    ensures var out := CreateProjectBody(db, "ann", 0, MakeProject.request);
            && out.Ok? && out.value.db == db.(projects := out.value.db.projects)
            && "p" in out.value.db.projects && out.value.db.projects["p"].org == "o"
            && out.value.db.projects["p"].teams == {"t"}
  {
    assert TeamsAttachable(db, "o", "t", ["t"]);
    assert (set t | t in ["t"]) == {"t"};
  }

  lemma ProjectMade(db: Db)
    requires "o" in db.workspaces && ResolveStatus(db, "o", None).Ok? && db.projects == map[]
    requires "t" in db.teams && db.teams["t"].org == "o" && KeyOf(MakeProject) !in db.commands
    ensures var out := Transact(db, MakeProject, 0, IDS, NOTHING);
            && out.result.Ok?
            && "p" in out.db.projects && out.db.projects["p"].org == "o" && out.db.projects["p"].teams == {"t"}
            && out.db.commands.Keys == db.commands.Keys + {KeyOf(MakeProject)}
            && out.db == db.(projects := out.db.projects, activity := out.db.activity, commands := out.db.commands)
  {
    FirstProject(db);
    assert EnsureCatalog(db, "o", IDS) == Ok(db);
  }

  function Opening(private: bool): seq<Step> {
    [Execute(MakeTeam(private), 0, IDS, NOTHING), Execute(MakeProject, 0, IDS, NOTHING)]
  }

  /** After the first step the Team is there and the second step goes through. */
  lemma Halfway(private: bool)
    ensures Legal(Opening(private))
    ensures var db := At(Opening(private), 1);
            && db.teams == map["t" := Team("o", "AB", "Team", private, TODO_ID, 1, 1)]
            && "o" in db.workspaces && ResolveStatus(db, "o", None).Ok? && db.projects == map[]
            && db.commands.Keys == {KeyOf(MakeTeam(private))}
            && TODO_ID in db.states && db.states[TODO_ID] == WorkflowState("o", "t", "Todo", Unstarted, 1, false, 1)
            && OwnStates(db.states) && db.members == map[] && db.issues == map[] && db.aliases == map[]
  {
    var steps := Opening(private);
    assert Legal(steps);
    AtNext(steps, 0);
    TeamMade(private);
    ReachableInvariant(steps, 1);
    DefaultResolves(At(steps, 1));
  }

  lemma OneTeamVisible(db: Db, private: bool)
    requires db.teams == map["t" := Team("o", "AB", "Team", private, TODO_ID, 1, 1)] && !private
    ensures CheckTeams(db, "o", ["t"], "ann") == Ok(())
  {
    assert (set t | t in ["t"] && t in db.teams && db.teams[t].org == "o") == {"t"};
  }

  lemma OpeningSteps(private: bool)
    requires Legal(Opening(private))
    ensures EffectiveAt(Opening(private), 1)
    ensures !private ==> Admit(At(Opening(private), 1), "ann", MakeProject.request) == Ok(NOTHING)
  {
    hide Transact;
    Halfway(private);
    ProjectMade(At(Opening(private), 1));
    if !private {
      OneTeamVisible(At(Opening(private), 1), private);
    }
  }

  lemma Opens(private: bool)
    ensures Legal(Opening(private)) && Opened(At(Opening(private), 2), private)
  {
    Halfway(private);
    AtNext(Opening(private), 1);
    ProjectMade(At(Opening(private), 1));
  }

  /** A transaction that finds its catalog initialized, under a new key. */
  lemma GoesReady(db: Db, c: Command, now: int, ids: FreshIds, cap: Captured)
    requires Shaped(c.request) && NeedsCatalog(c.request) && c.request.org in db.workspaces
    requires KeyOf(c) !in db.commands && Body(db, c.actor, now, ids, c.request, cap).Ok?
    ensures var change := Body(db, c.actor, now, ids, c.request, cap).value;
            Transact(db, c, now, ids, cap) == Outcome(Committed(change, c), Ok(change.reply))
  {
    assert EnsureCatalog(db, c.request.org, ids) == Ok(db);
  }

  /** A transaction without a catalog to initialize, under a new key. */
  lemma Goes(db: Db, c: Command, now: int, ids: FreshIds, cap: Captured)
    requires Shaped(c.request) && !NeedsCatalog(c.request) && !CatalogFirst(c.request)
    requires KeyOf(c) !in db.commands && Body(db, c.actor, now, ids, c.request, cap).Ok?
    ensures var change := Body(db, c.actor, now, ids, c.request, cap).value;
            Transact(db, c, now, ids, cap) == Outcome(Committed(change, c), Ok(change.reply))
  {
  }

  // ---- A retry that is refused

  const MakePrivate := Command("api", "ann", "3", PutTeam("o", "t", "AB", "Team", true, Some(TODO_ID), Some("1")))

  lemma One()
    ensures ParseRevision("1") == Some(1) && ParseRevision("2") == Some(2) && Decimal(1) == "1" && Decimal(2) == "2"
  {
    RevisionRoundTrip(1);
    RevisionRoundTrip(2);
  }

  lemma TeamCloses(db: Db)
    requires Invariant(db) && Opened(db, false)
    ensures var out := Transact(db, MakePrivate, 0, IDS, NOTHING);
            out.result.Ok? && out.db.teams == map["t" := Team("o", "AB", "Team", true, TODO_ID, 1, 2)]
            && out.db.members == db.members && KeyOf(MakeProject) in out.db.commands
            && out.db.commands[KeyOf(MakeProject)] == db.commands[KeyOf(MakeProject)]
  {
    CloseBody(db);
    CatalogStands(db);
    assert EnsureCatalog(db, "o", IDS) == Ok(db);
  }

  lemma CloseBody(db: Db)
    requires Opened(db, false)
    ensures var out := PutTeamBody(db, "ann", MakePrivate.request, IDS);
            out.Ok? && out.value.db == db.(teams := map["t" := Team("o", "AB", "Team", true, TODO_ID, 1, 2)])
  {
    One();
    KeyIsValid();
  }

  lemma TeamClosed(db: Db)
    requires db.teams == map["t" := Team("o", "AB", "Team", true, TODO_ID, 1, 2)] && db.members == map[]
    ensures CheckTeams(db, "o", ["t"], "ann") == Refuse(PrivateTeam)
  {
    assert (set t | t in ["t"] && t in db.teams && db.teams[t].org == "o") == {"t"};
    assert "t" in ["t"] && !TeamOpen(db, "t", "ann");
  }

  /** The command committed at `n` from an admission that saw the same state, and its retry at the end gets `told`. */
  ghost predicate Retried(steps: seq<Step>, n: nat, told: Result<Reply, StorageError>) {
    && Legal(steps) && n < |steps| && steps[n].Execute? && EffectiveAt(steps, n)
    && Admit(At(steps, n), steps[n].c.actor, steps[n].c.request) == Ok(steps[n].cap)
    && var end := At(steps, |steps|);
       Served(end, end, steps[n].c, steps[n].now, steps[n].ids) == told
  }

  function Twice(): seq<Step> {
    Opening(false) + [Execute(MakeProject, 0, IDS, NOTHING)]
  }

  lemma RetryFound(db: Db)
    requires KeyOf(MakeProject) in db.commands && db.commands[KeyOf(MakeProject)].request == MakeProject.request
    ensures Transact(db, MakeProject, 0, IDS, NOTHING) == Outcome(db, Ok(db.commands[KeyOf(MakeProject)].reply))
  {
  }

  lemma SameAnswer(a: seq<Step>, b: seq<Step>, m: nat, n: nat)
    requires Legal(a) && Legal(b) && m < |a| && n < |b| && a[m] == b[n] && At(a, m) == At(b, n)
    ensures AnsweredAt(a, m) <==> AnsweredAt(b, n)
  {
  }

  /** A retry that nothing shuts out is answered: the same command twice in one run. */
  lemma RetryCanSucceed()
    ensures exists steps: seq<Step>, i: nat, j: nat ::
              && Legal(steps) && i < j < |steps| && steps[i] == steps[j] && steps[i].Execute?
              && AnsweredAt(steps, i) && AnsweredAt(steps, j)
  {
    hide Transact;
    var steps := Twice();
    assert Legal(steps);
    Opens(false);
    OpeningSteps(false);
    SamePrefix(steps, Opening(false), 1);
    SamePrefix(steps, Opening(false), 2);
    SameAnswer(steps, Opening(false), 1, 1);
    StepFactsAt(steps, 1);
    RetryFound(At(steps, 2));
    assert steps[2] in [steps[2]];
    assert AnsweredAt(steps, 1) && AnsweredAt(steps, 2);
  }

  lemma ShutOut(db: Db)
    requires CheckTeams(db, "o", ["t"], "ann") == Refuse(PrivateTeam)
    ensures Served(db, db, MakeProject, 0, IDS) == Refuse(PrivateTeam)
  {
  }

  function Closing(): seq<Step> {
    Opening(false) + [Execute(MakePrivate, 0, IDS, NOTHING)]
  }

  lemma ClosingCommits()
    ensures Legal(Closing()) && EffectiveAt(Closing(), 1)
    ensures Admit(At(Closing(), 1), "ann", MakeProject.request) == Ok(NOTHING)
  {
    hide Transact;
    Opens(false);
    OpeningSteps(false);
    SamePrefix(Closing(), Opening(false), 1);
    SameEffect(Closing(), Opening(false), 1, 1);
  }

  lemma ClosingCloses()
    requires Legal(Closing())
    ensures CheckTeams(At(Closing(), 3), "o", ["t"], "ann") == Refuse(PrivateTeam)
  {
    Opens(false);
    SamePrefix(Closing(), Opening(false), 2);
    AtNext(Closing(), 2);
    ReachableInvariant(Closing(), 2);
    TeamCloses(At(Closing(), 2));
    TeamClosed(At(Closing(), 3));
  }

  /**
   A command that took effect and is retried unchanged can be refused: here a Project was
   created, its Team then became private, and the retry no longer passes the Team check.
   */
  lemma RetryCanBeRefused()
    ensures exists steps, n :: Retried(steps, n, Refuse(PrivateTeam))
  {
    ClosingCommits();
    ClosingCloses();
    ShutOut(At(Closing(), 3));
    assert Retried(Closing(), 1, Refuse(PrivateTeam));
  }

  // ---- An identifier that stops resolving

  function MakeIssue(id: Id, key: string): Command {
    Command("api", "ann", key, CreateIssue("o", id, "p", "t", "Title", None, None))
  }

  /** Team `t` gives out its numbers under key `AB`. */
  ghost predicate Serving(db: Db, number: nat) {
    && "t" in db.teams && db.teams["t"].org == "o" && db.teams["t"].key == "AB" && db.teams["t"].nextNumber == number
    && db.teams["t"].defaultState == TODO_ID
    && TODO_ID in db.states && db.states[TODO_ID] == WorkflowState("o", "t", "Todo", Unstarted, 1, false, 1)
    && "p" in db.projects && db.projects["p"].org == "o" && db.projects["p"].teams == {"t"}
  }

  function NewIssue(number: nat): Issue {
    Issue("o", "p", "t", Identifier("AB", number), "Title", TODO_ID, None, None, false, 1)
  }

  lemma IssueMade(db: Db, id: Id, key: string, number: nat)
    requires Serving(db, number) && id !in db.issues && KeyOf(MakeIssue(id, key)) !in db.commands
    requires ("o", Identifier("AB", number)) !in db.aliases
    requires !IdentifierShown(db.issues, "o", Identifier("AB", number), id)
    ensures var out := Transact(db, MakeIssue(id, key), 0, IDS, NOTHING);
            && out.result.Ok? && Serving(out.db, number + 1)
            && out.db.issues == db.issues[id := NewIssue(number)]
            && Identifiers.Shows(out.db, id, "o", Identifier("AB", number))
            && out.db.aliases == db.aliases[("o", Identifier("AB", number)) := Alias(id, 0)]
            && out.db.commands.Keys == db.commands.Keys + {KeyOf(MakeIssue(id, key))}
            && out.db.teams == TakeNumber(db.teams, "t") && out.db.states == db.states && out.db.projects == db.projects
  {
    Goes(db, MakeIssue(id, key), 0, IDS, NOTHING);
  }

  function TwoIssues(): seq<Step> {
    Opening(false) + [Execute(MakeIssue("x", "3"), 0, IDS, NOTHING), Execute(MakeIssue("AB-1", "4"), 0, IDS, NOTHING)]
  }

  /** Issue `x` is the only one and shows `AB-1`. */
  ghost predicate HasX(db: Db) {
    && Serving(db, 2) && db.issues == map["x" := NewIssue(1)] && Identifiers.Shows(db, "x", "o", "AB-1")
    && db.aliases == map[("o", "AB-1") := Alias("x", 0)] && OwnStates(db.states)
    && db.teams == map["t" := Team("o", "AB", "Team", false, TODO_ID, 2, 1)]
    && db.commands.Keys == {KeyOf(MakeTeam(false)), KeyOf(MakeProject), KeyOf(MakeIssue("x", "3"))}
  }

  lemma XMade(db: Db)
    requires Opened(db, false)
    ensures HasX(Transact(db, MakeIssue("x", "3"), 0, IDS, NOTHING).db)
  {
    One();
    IssueMade(db, "x", "3", 1);
  }

  lemma FirstIssue(steps: seq<Step>)
    requires |steps| > 2 && steps[..2] == Opening(false) && steps[2] == Execute(MakeIssue("x", "3"), 0, IDS, NOTHING)
    requires Legal(steps)
    ensures HasX(At(steps, 3))
  {
    Opens(false);
    SamePrefix(steps, Opening(false), 2);
    AtNext(steps, 2);
    XMade(At(steps, 2));
  }

  lemma Shadowed(db: Db)
    requires HasX(db)
    ensures var out := Transact(db, MakeIssue("AB-1", "4"), 0, IDS, NOTHING);
            Identifiers.Shows(out.db, "x", "o", "AB-1") && Identifiers.Resolve(out.db, "o", "AB-1") == Some("AB-1")
  {
    assert Identifier("AB", 2)[3] == '2' && "AB-1"[3] == '1' by {
      One();
    }
    IssueMade(db, "AB-1", "4", 2);
  }

  /** An Issue may take another Issue's identifier as its id, and then the identifier resolves to it instead. */
  lemma IdentifierCanBeShadowed()
    ensures exists steps, n: nat :: Legal(steps) && n <= |steps| && ShadowedAt(At(steps, n))
  {
    hide Transact;
    var steps := TwoIssues();
    assert Legal(steps);
    FirstIssue(steps);
    AtNext(steps, 3);
    Shadowed(At(steps, 3));
    assert ShadowedAt(At(steps, 4));
  }

  predicate ShadowedAt(db: Db) {
    Identifiers.Shows(db, "x", "o", "AB-1") && Identifiers.Resolve(db, "o", "AB-1") == Some("AB-1")
  }

  // ---- A Team that can number no Issue

  const Rekey := Command("api", "ann", "5", PutTeam("o", "t", "CD", "Team", false, Some(TODO_ID), Some("1")))
  const Reuse := Command("api", "ann", "6", PutTeam("o", "u", "AB", "Other", false, None, None))
  const MORE_IDS: FreshIds := ["l", "m", "n", "o", "p", "q", "r", "s", "t", "u", "v"]

  lemma MoreIdsDistinct()
    ensures forall m, n :: 0 <= m < n < 5 ==> MORE_IDS[6..][m] != MORE_IDS[6..][n]
    ensures forall m, n :: 0 <= m < 5 && 0 <= n < 11 ==> MORE_IDS[6..][m] != IDS[n]
  {
    assert forall m :: 0 <= m < 11 ==> IDS[m][0] as int == 'a' as int + m;
    assert forall m :: 0 <= m < 5 ==> MORE_IDS[6..][m][0] as int == 'r' as int + m;
  }

  lemma RekeyBody(db: Db)
    requires db.teams == map["t" := Team("o", "AB", "Team", false, TODO_ID, 2, 1)]
    requires TODO_ID in db.states && db.states[TODO_ID] == WorkflowState("o", "t", "Todo", Unstarted, 1, false, 1)
    ensures var out := PutTeamBody(db, "ann", Rekey.request, IDS);
            out.Ok? && out.value.db == db.(teams := map["t" := Team("o", "CD", "Team", false, TODO_ID, 2, 2)])
  {
    One();
    assert ValidKey("CD") by {
      assert forall c :: c in "CD" ==> c == 'C' || c == 'D';
    }
  }

  lemma CatalogStands(db: Db)
    requires Invariant(db) && "p" in db.projects && db.projects["p"].org == "o"
    ensures "o" in db.workspaces
  {
    assert ProjectOk(db.teams, db.statuses, db.projects["p"]);
  }

  lemma TeamRekeyed(db: Db)
    requires HasX(db) && "o" in db.workspaces
    ensures Keyless(Transact(db, Rekey, 0, IDS, NOTHING).db)
  {
    RekeyBody(db);
    hide PutTeamBody, Transact;
    GoesReady(db, Rekey, 0, IDS, NOTHING);
  }

  /** Team `t` has given `AB-1` out and no longer has key `AB`. */
  ghost predicate Keyless(db: Db) {
    && db.teams == map["t" := Team("o", "CD", "Team", false, TODO_ID, 2, 2)] && "o" in db.workspaces
    && ("o", "AB-1") in db.aliases && KeyOf(Reuse) !in db.commands && OwnStates(db.states)
  }

  lemma ReuseBody(db: Db)
    requires Keyless(db)
    ensures var out := PutTeamBody(db, "ann", Reuse.request, MORE_IDS);
            && out.Ok? && out.value.db == db.(teams := out.value.db.teams, states := out.value.db.states)
            && "u" in out.value.db.teams
            && out.value.db.teams["u"] == Team("o", "AB", "Other", false, MORE_IDS[7], 1, 1)
  {
    KeyIsValid();
    MoreIdsDistinct();
    assert Effects.Fresh(MORE_IDS[6..][..5], db.states.Keys);
    Effects.StatesInsertable(db.states, "o", "u", MORE_IDS, 5);
  }

  lemma KeyReused(db: Db)
    requires Keyless(db)
    ensures var out := Transact(db, Reuse, 0, MORE_IDS, NOTHING);
            out.result.Ok? && Identifiers.Blocked(out.db, "u")
  {
    ReuseBody(db);
    hide PutTeamBody, Transact;
    GoesReady(db, Reuse, 0, MORE_IDS, NOTHING);
    One();
    assert Identifier("AB", 1) == "AB-1";
  }

  lemma RekeyStep(steps: seq<Step>)
    requires Legal(steps) && |steps| > 3 && steps[3] == Execute(Rekey, 0, IDS, NOTHING) && HasX(At(steps, 3))
    ensures Keyless(At(steps, 4))
  {
    ReachableInvariant(steps, 3);
    CatalogStands(At(steps, 3));
    AtNext(steps, 3);
    TeamRekeyed(At(steps, 3));
  }

  lemma ReuseStep(steps: seq<Step>)
    requires Legal(steps) && |steps| > 4 && steps[4] == Execute(Reuse, 0, MORE_IDS, NOTHING) && Keyless(At(steps, 4))
    ensures Identifiers.Blocked(At(steps, 5), "u")
  {
    AtNext(steps, 4);
    KeyReused(At(steps, 4));
  }

  /** Giving a Team the key that another one had before leaves it unable to number its first Issue. */
  lemma ReusedKeyCanBlock()
    ensures exists steps, n: nat :: Legal(steps) && n <= |steps| && Identifiers.Blocked(At(steps, n), "u")
  {
    hide Transact, After, At, Keyless;
    var steps := TwoIssues()[..3] + [Execute(Rekey, 0, IDS, NOTHING), Execute(Reuse, 0, MORE_IDS, NOTHING)];
    assert Legal(steps);
    assert steps[..2] == Opening(false);
    FirstIssue(steps);
    RekeyStep(steps);
    ReuseStep(steps);
  }

  // ---- A revision that comes back

  const Added := Command("api", "ann", "7", PutState("o", "s", "t", "Review", Started, 9, None))
  const Shelved := Command("api", "ann", "8", ArchiveState("o", "s", "1", true))
  const Deleted := Command("api", "ann", "9", DeleteState("o", "t", "s", "2"))
  const AddedAgain := Command("api", "ann", "10", PutState("o", "s", "t", "Review", Started, 9, None))
  const ShelvedAgain := Command("api", "ann", "11", ArchiveState("o", "s", "1", true))

  /** State `s` is absent, or at this revision and used by nothing. */
  ghost predicate Spare(db: Db, revision: nat, archived: bool) {
    && db.teams == map["t" := Team("o", "AB", "Team", false, TODO_ID, 1, 1)] && db.issues == map[]
    && (forall s :: s in db.states && s != "s" ==> db.states[s].team == "t" && db.states[s].name != "Review")
    && (if revision == 0 then "s" !in db.states
        else "s" in db.states && db.states["s"] == WorkflowState("o", "t", "Review", Started, 9, archived, revision))
  }

  lemma StateAdded(db: Db, c: Command)
    requires Spare(db, 0, false) && (c == Added || c == AddedAgain) && KeyOf(c) !in db.commands
    ensures Spare(Transact(db, c, 0, IDS, NOTHING).db, 1, false)
    ensures Transact(db, c, 0, IDS, NOTHING).db.commands.Keys == db.commands.Keys + {KeyOf(c)}
  {
    Goes(db, c, 0, IDS, NOTHING);
  }

  lemma StateShelved(db: Db, c: Command)
    requires Spare(db, 1, false) && (c == Shelved || c == ShelvedAgain) && KeyOf(c) !in db.commands
    ensures Transact(db, c, 0, IDS, NOTHING).result.Ok?
    ensures Spare(Transact(db, c, 0, IDS, NOTHING).db, 2, true)
    ensures Transact(db, c, 0, IDS, NOTHING).db.commands.Keys == db.commands.Keys + {KeyOf(c)}
  {
    One();
    assert "s" != TODO_ID;
    Goes(db, c, 0, IDS, NOTHING);
  }

  lemma StateDeleted(db: Db)
    requires Spare(db, 2, true) && KeyOf(Deleted) !in db.commands
    ensures Spare(Transact(db, Deleted, 0, IDS, NOTHING).db, 0, false)
    ensures Transact(db, Deleted, 0, IDS, NOTHING).db.commands.Keys == db.commands.Keys + {KeyOf(Deleted)}
  {
    One();
    assert "s" != TODO_ID;
    Goes(db, Deleted, 0, IDS, NOTHING);
  }

  function Comeback(): seq<Step> {
    Opening(false)
    + [Execute(Added, 0, IDS, NOTHING), Execute(Shelved, 0, IDS, NOTHING), Execute(Deleted, 0, IDS, NOTHING),
       Execute(AddedAgain, 0, IDS, NOTHING), Execute(ShelvedAgain, 0, IDS, NOTHING)]
  }

  lemma KeysDiffer()
    ensures KeyOf(Added) != KeyOf(AddedAgain) && KeyOf(Shelved) != KeyOf(ShelvedAgain)
    ensures MakeTeam(false).idempotencyKey == "1" && MakeProject.idempotencyKey == "2"
  {
    assert |Added.idempotencyKey| == 1 && |AddedAgain.idempotencyKey| == 2;
    assert |Shelved.idempotencyKey| == 1 && |ShelvedAgain.idempotencyKey| == 2;
  }

  lemma AddStep(steps: seq<Step>, n: nat)
    requires Legal(steps) && n < |steps| && steps[n].Execute? && steps[n].c in {Added, AddedAgain}
    requires steps[n] == Execute(steps[n].c, 0, IDS, NOTHING)
    requires Spare(At(steps, n), 0, false) && KeyOf(steps[n].c) !in At(steps, n).commands
    ensures Spare(At(steps, n + 1), 1, false)
    ensures At(steps, n + 1).commands.Keys == At(steps, n).commands.Keys + {KeyOf(steps[n].c)}
  {
    AtNext(steps, n);
    StateAdded(At(steps, n), steps[n].c);
  }

  lemma ShelveStep(steps: seq<Step>, n: nat)
    requires Legal(steps) && n < |steps| && steps[n].Execute? && steps[n].c in {Shelved, ShelvedAgain}
    requires steps[n] == Execute(steps[n].c, 0, IDS, NOTHING)
    requires Spare(At(steps, n), 1, false) && KeyOf(steps[n].c) !in At(steps, n).commands
    ensures Spare(At(steps, n + 1), 2, true) && EffectiveAt(steps, n)
    ensures At(steps, n + 1).commands.Keys == At(steps, n).commands.Keys + {KeyOf(steps[n].c)}
  {
    AtNext(steps, n);
    StateShelved(At(steps, n), steps[n].c);
  }

  lemma DeleteStep(steps: seq<Step>, n: nat)
    requires Legal(steps) && n < |steps| && steps[n] == Execute(Deleted, 0, IDS, NOTHING)
    requires Spare(At(steps, n), 2, true) && KeyOf(Deleted) !in At(steps, n).commands
    ensures Spare(At(steps, n + 1), 0, false)
    ensures At(steps, n + 1).commands.Keys == At(steps, n).commands.Keys + {KeyOf(Deleted)}
  {
    AtNext(steps, n);
    StateDeleted(At(steps, n));
  }

  lemma OpeningSpare(steps: seq<Step>)
    requires Legal(steps) && |steps| > 2 && steps[..2] == Opening(false)
    ensures Spare(At(steps, 2), 0, false)
    ensures At(steps, 2).commands.Keys == {KeyOf(MakeTeam(false)), KeyOf(MakeProject)}
  {
    hide Transact;
    Opens(false);
    SamePrefix(steps, Opening(false), 2);
    SpareAtFirst(At(steps, 2));
  }

  lemma SpareAtFirst(db: Db)
    requires Opened(db, false)
    ensures Spare(db, 0, false)
  {
    assert "s" !in IDS by {
      assert forall m :: 0 <= m < 11 ==> IDS[m][0] as int == 'a' as int + m;
    }
  }

  /** Both steps archive state `s` expecting its revision 1, and both take effect. */
  ghost predicate BothWin(steps: seq<Step>, i: nat, j: nat) {
    && Legal(steps) && i < j < |steps| && EffectiveAt(steps, i) && EffectiveAt(steps, j)
    && steps[i].Execute? && steps[i].c == Shelved && steps[j].Execute? && steps[j].c == ShelvedAgain
  }

  lemma FirstUse(steps: seq<Step>)
    requires Legal(steps) && steps == Comeback()
    ensures EffectiveAt(steps, 3) && Spare(At(steps, 4), 2, true)
    ensures At(steps, 4).commands.Keys
         == {KeyOf(MakeTeam(false)), KeyOf(MakeProject)} + {KeyOf(Added)} + {KeyOf(Shelved)}
  {
    hide Transact, After, At, Spare, EffectiveAt;
    OpeningSpare(steps);
    AddStep(steps, 2);
    ShelveStep(steps, 3);
  }

  lemma FirstRound(steps: seq<Step>)
    requires Legal(steps) && steps == Comeback()
    ensures EffectiveAt(steps, 3) && Spare(At(steps, 5), 0, false)
    ensures KeyOf(AddedAgain) !in At(steps, 5).commands && KeyOf(ShelvedAgain) !in At(steps, 5).commands
  {
    hide Transact, After, At, Spare, EffectiveAt;
    FirstUse(steps);
    KeysDiffer();
    DeleteStep(steps, 4);
  }

  lemma SecondRound(steps: seq<Step>)
    requires Legal(steps) && steps == Comeback() && Spare(At(steps, 5), 0, false)
    requires KeyOf(AddedAgain) !in At(steps, 5).commands && KeyOf(ShelvedAgain) !in At(steps, 5).commands
    ensures EffectiveAt(steps, 6)
  {
    hide Transact;
    AddStep(steps, 5);
    ShelveStep(steps, 6);
  }

  /** Deleting and re-creating a workflow state brings revision 1 back. */
  lemma RevisionCanComeBack()
    ensures exists steps, i, j :: BothWin(steps, i, j)
  {
    hide Transact, After, At, Spare, EffectiveAt;
    assert Legal(Comeback());
    FirstRound(Comeback());
    SecondRound(Comeback());
    assert BothWin(Comeback(), 3, 6);
  }
}
