/** What reservations would allow if an insert did not wait for another one's uncommitted row. */
module Overlap {
  import opened Prelude
  import opened Tables
  import opened Commands
  import opened Invariants
  import opened Runs
  import opened Scenarios
  import opened Reservations

  const Join := Command("api", "ann", "3", SetMember("o", "t", "bob", true))

  const EVENTS: seq<Event> :=
    [Insert(0, MakeTeam(false)), Finish(0, 0, IDS, NOTHING), Insert(1, Join), Insert(2, Join),
     Finish(1, 0, IDS, NOTHING), Finish(2, 0, IDS, NOTHING)]

  /** Setting a membership takes effect, and is recorded, however often it is done. */
  lemma Joins(db: Db)
    requires TeamExists(db, "o", "t")
    ensures var out := Finished(db, Join, 0, IDS, NOTHING);
            out.result.Ok? && out.db.teams == db.teams && |out.db.activity| == |db.activity| + 1
  {
  }

  lemma TeamFinished()
    ensures var out := Finished(EmptyDb, MakeTeam(false), 0, IDS, NOTHING);
            out.result.Ok? && TeamExists(out.db, "o", "t") && KeyOf(Join) !in out.db.commands
  {
    TeamMade(false);
    FinishedIsTransact(EmptyDb, MakeTeam(false), 0, IDS, NOTHING);
  }

  /** Both transactions of one command succeed and append a record. */
  ghost predicate TwoEffects(worlds: seq<World>, events: seq<Event>, m: nat, n: nat, reply: Reply, again: Reply) {
    && IsTrace(worlds, events, false) && m < n
    && Succeeds(worlds, events, m, Join, reply) && Succeeds(worlds, events, n, Join, again)
    && |worlds[m + 1].db.activity| > |worlds[m].db.activity| && |worlds[n + 1].db.activity| > |worlds[n].db.activity|
  }

  /** One command under one key takes effect twice. */
  lemma UnwaitingRepeats()
    ensures exists worlds, reply, again :: TwoEffects(worlds, EVENTS, 4, 5, reply, again)
  {
    hide Finished, Replayed, After;
    TeamFinished();
    var w1 := Next(START, EVENTS[0]);
    var w2 := Next(w1, EVENTS[1]);
    var w3 := Next(w2, EVENTS[2]);
    var w4 := Next(w3, EVENTS[3]);
    Joins(w4.db);
    var w5 := Next(w4, EVENTS[4]);
    Joins(w5.db);
    var worlds := [START, w1, w2, w3, w4, w5, Next(w5, EVENTS[5])];
    assert IsTrace(worlds, EVENTS, false);
    var reply, again := Ending(w4, EVENTS[4]).result.value, Ending(w5, EVENTS[5]).result.value;
    assert TwoEffects(worlds, EVENTS, 4, 5, reply, again);
  }
}
