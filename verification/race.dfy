/** Two updates, each admitted and each passing its parent check, that leave a cycle of parents. */
module Race {
  import opened Prelude
  import opened Text
  import opened Tables
  import opened Commands
  import opened Invariants
  import opened Runs
  import opened Forests
  import opened Interleavings
  import opened Parents
  import opened Scenarios

  function Hang(issue: Id, under: Id, key: string): Command {
    Command("api", "ann", key, UpdateIssue("o", issue, "1", "Title", TODO_ID, Some(under)))
  }

  const XUnderY := Hang("x", "y", "5")
  const YUnderX := Hang("y", "x", "6")

  /** Issues `x` and `y` of the same Team and Project, without parents. */
  ghost predicate TwoFree(db: Db) {
    && Serving(db, 3) && !db.teams["t"].private
    && db.issues == map["x" := NewIssue(1), "y" := NewIssue(2)]
    && KeyOf(XUnderY) !in db.commands && KeyOf(YUnderX) !in db.commands
  }

  lemma YMade(db: Db)
    requires HasX(db)
    ensures TwoFree(Transact(db, MakeIssue("y", "4"), 0, IDS, NOTHING).db)
  {
    assert Identifier("AB", 2)[3] == '2' && "AB-1"[3] == '1' by {
      One();
    }
    IssueMade(db, "y", "4", 2);
  }

  function Founding(): seq<Step> {
    Opening(false) + [Execute(MakeIssue("x", "3"), 0, IDS, NOTHING), Execute(MakeIssue("y", "4"), 0, IDS, NOTHING)]
  }

  lemma Founded()
    ensures Legal(Founding()) && TwoFree(At(Founding(), 4))
  {
    hide Transact;
    assert Legal(Founding());
    FirstIssue(Founding());
    AtNext(Founding(), 3);
    YMade(At(Founding(), 3));
  }

  /** An Issue at revision 1 moves under another one, if the links its query saw do not object. */
  lemma Hangs(db: Db, issue: Id, under: Id, key: string, links: Links)
    requires Serving(db, 3) && issue in db.issues && under in db.issues && issue != under
    requires db.issues[under].org == "o"
    requires db.issues[issue].org == "o" && db.issues[issue].team == "t" && db.issues[issue].revision == 1
    requires KeyOf(Hang(issue, under, key)) !in db.commands && !Below(links, issue, under)
    ensures var out := Transact(db, Hang(issue, under, key), 0, IDS, Captured("p", "t", links));
            && out.result.Ok? && Serving(out.db, 3)
            && out.db.issues == db.issues[issue := db.issues[issue].(title := "Title", state := TODO_ID,
                                                                     parent := Some(under), revision := 2)]
            && out.db.commands.Keys == db.commands.Keys + {KeyOf(Hang(issue, under, key))}
  {
    One();
    Goes(db, Hang(issue, under, key), 0, IDS, Captured("p", "t", links));
  }

  lemma Admitted(db: Db, issue: Id, under: Id, key: string)
    requires TwoFree(db) && issue in db.issues && under in db.issues
    ensures Admit(db, "ann", Hang(issue, under, key).request) == Ok(Captured("p", "t", map[]))
  {
    One();
  }

  lemma NothingBelow(links: Links, root: Id, x: Id)
    requires links == map[] && x != root
    ensures !Below(links, root, x)
  {
  }

  lemma CrossedIsNoForest(links: Links)
    requires "x" in links && links["x"] == "y" && "y" in links && links["y"] == "x"
    ensures !Forest(links)
  {
    assert Ancestor(links, "x", 2) == Ancestor(links, "y", 1) == Ancestor(links, "x", 0) == Some("x");
    if Forest(links) {
      NoLoop(links, "x", 2);
    }
  }

  const EVENTS: seq<Event> :=
    [Other(Execute(MakeTeam(false), 0, IDS, NOTHING)), Other(Execute(MakeProject, 0, IDS, NOTHING)),
     Other(Execute(MakeIssue("x", "3"), 0, IDS, NOTHING)), Other(Execute(MakeIssue("y", "4"), 0, IDS, NOTHING)),
     Ask(1, XUnderY, "p", "t"), Ask(2, YUnderX, "p", "t"), Write(1, 0, IDS), Write(2, 0, IDS)]

  /** Both commands pass their checks when they begin, both take effect, and the parents are a cycle. */
  ghost predicate EndsInCycle(worlds: seq<World>, events: seq<Event>) {
    && IsTrace(worlds, events) && |events| == 8
    && Admit(worlds[4].db, "ann", XUnderY.request) == Ok(Captured("p", "t", map[]))
    && Admit(worlds[5].db, "ann", YUnderX.request) == Ok(Captured("p", "t", map[]))
    && KeyOf(XUnderY) in worlds[8].db.commands && KeyOf(YUnderX) in worlds[8].db.commands
    && !ForestAt(worlds[8].db)
  }

  /** The first four worlds: one transaction after the other. */
  lemma Foundation() returns (worlds: seq<World>)
    ensures |worlds| == 5 && worlds[0] == START && TwoFree(worlds[4].db) && worlds[4].running == map[]
    ensures forall n :: 0 <= n < 4 ==> Enabled(worlds[n], EVENTS[n]) && worlds[n + 1] == Next(worlds[n], EVENTS[n])
  {
    hide Transact, After;
    Founded();
    var steps := Founding();
    worlds := seq(5, n requires 0 <= n < 5 => World(At(steps, n), map[]));
    forall n | 0 <= n < 4
      ensures Enabled(worlds[n], EVENTS[n]) && worlds[n + 1] == Next(worlds[n], EVENTS[n])
    {
      AtNext(steps, n);
      assert EVENTS[n] == Other(steps[n]);
    }
  }

  function Unlinked(): Captured {
    Captured("p", "t", map[])
  }

  /** Both writes go through, since both queries saw no links. */
  lemma BothWrite(db: Db)
    requires TwoFree(db)
    ensures var first := Transact(db, XUnderY, 0, IDS, Unlinked()).db;
            var second := Transact(first, YUnderX, 0, IDS, Unlinked()).db;
            KeyOf(XUnderY) in second.commands && KeyOf(YUnderX) in second.commands && !ForestAt(second)
  {
    hide Transact;
    NothingBelow(map[], "x", "y");
    NothingBelow(map[], "y", "x");
    Hangs(db, "x", "y", "5", map[]);
    var first := Transact(db, XUnderY, 0, IDS, Unlinked()).db;
    Hangs(first, "y", "x", "6", map[]);
    CrossedIsNoForest(LinksOf(Transact(first, YUnderX, 0, IDS, Unlinked()).db.issues));
  }

  lemma BothAsk(w4: World)
    requires LinksOf(w4.db.issues) == map[] && w4.running == map[]
    ensures Enabled(w4, EVENTS[4]) && Enabled(Next(w4, EVENTS[4]), EVENTS[5])
    ensures Next(Next(w4, EVENTS[4]), EVENTS[5])
         == World(w4.db, map[1 := Asked(XUnderY, Unlinked()), 2 := Asked(YUnderX, Unlinked())])
  {
  }

  lemma Collision(w4: World) returns (worlds: seq<World>)
    requires TwoFree(w4.db) && w4.running == map[]
    ensures |worlds| == 5 && worlds[0] == w4
    ensures forall n :: 0 <= n < 4 ==>
              Enabled(worlds[n], EVENTS[4 + n]) && worlds[n + 1] == Next(worlds[n], EVENTS[4 + n])
    ensures worlds[1].db == w4.db
    ensures KeyOf(XUnderY) in worlds[4].db.commands && KeyOf(YUnderX) in worlds[4].db.commands
    ensures !ForestAt(worlds[4].db)
  {
    assert LinksOf(w4.db.issues) == map[];
    BothWrite(w4.db);
    hide Transact, TwoFree, ForestAt, Hang;
    BothAsk(w4);
    var w5 := Next(w4, EVENTS[4]);
    var w6 := Next(w5, EVENTS[5]);
    var w7 := Next(w6, EVENTS[6]);
    worlds := [w4, w5, w6, w7, Next(w7, EVENTS[7])];
  }

  /** The parent check alone does not keep the parents a forest. */
  lemma OverlapCanCloseCycle()
    ensures exists worlds :: EndsInCycle(worlds, EVENTS)
  {
    hide Transact, After, ForestAt, TwoFree;
    var first := Foundation();
    var second := Collision(first[4]);
    var worlds := first + second[1..];
    forall n | 0 <= n < 8 ensures Enabled(worlds[n], EVENTS[n]) && worlds[n + 1] == Next(worlds[n], EVENTS[n]) {
      if n >= 4 {
        assert worlds[n] == second[n - 4];
      }
    }
    BothAdmitted(first[4].db);
    assert EndsInCycle(worlds, EVENTS);
  }

  lemma BothAdmitted(db: Db)
    requires TwoFree(db)
    ensures Admit(db, "ann", XUnderY.request) == Ok(Captured("p", "t", map[]))
    ensures Admit(db, "ann", YUnderX.request) == Ok(Captured("p", "t", map[]))
  {
    Admitted(db, "x", "y", "5");
    Admitted(db, "y", "x", "6");
  }
}
