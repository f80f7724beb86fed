/**
 Row locks between commands that refer to a catalog entry and commands that archive it.
 Statements of different transactions interleave here; a transaction sees what is committed.
 */
module Locks {
  import opened Tables

  /** How far a transaction has come. */
  datatype Phase =
    | Resolved(entry: Id)              // selected the entry FOR KEY SHARE and found it unarchived
    | Referring(entry: Id, owner: Id)  // wrote a row that refers to it, not yet committed
    | Claimed(entry: Id)               // selected the entry FOR UPDATE
    | Clear(entry: Id)                 // found no committed row that refers to it

  /** Committed entries with their archived flag, committed references, and running transactions. */
  datatype World = World(archived: map<Id, bool>, refers: map<Id, Id>, running: map<nat, Phase>)

  datatype Step =
    | Resolve(t: nat, entry: Id) | Refer(t: nat, owner: Id) | Claim(t: nat, entry: Id) | Check(t: nat)
    | Commit(t: nat) | Rollback(t: nat) | Unarchive(entry: Id)

  predicate Shares(p: Phase, entry: Id) {
    (p.Resolved? || p.Referring?) && p.entry == entry
  }

  predicate Claims(p: Phase, entry: Id) {
    (p.Claimed? || p.Clear?) && p.entry == entry
  }

  /** A key-share lock waits for a claim, a claim waits for both; `locking` switches the locks off. */
  predicate Free(w: World, entry: Id, exclusive: bool) {
    forall t :: t in w.running ==> !Claims(w.running[t], entry) && (exclusive ==> !Shares(w.running[t], entry))
  }

  predicate Enabled(w: World, step: Step, locking: bool) {
    match step
    case Resolve(t, entry) =>
      t !in w.running && entry in w.archived && !w.archived[entry] && (locking ==> Free(w, entry, false))
    case Refer(t, _) => t in w.running && w.running[t].Resolved?
    case Claim(t, entry) => t !in w.running && entry in w.archived && (locking ==> Free(w, entry, true))
    case Check(t) => t in w.running && w.running[t].Claimed? && w.running[t].entry !in w.refers.Values
    case Commit(t) => t in w.running && (w.running[t].Referring? || w.running[t].Clear?)
    case Rollback(t) => t in w.running
    case Unarchive(entry) => entry in w.archived && (locking ==> Free(w, entry, true))
  }

  function Next(w: World, step: Step): World
    requires Enabled(w, step, false)
  {
    match step
    case Resolve(t, entry) => w.(running := w.running[t := Resolved(entry)])
    case Refer(t, owner) => w.(running := w.running[t := Referring(w.running[t].entry, owner)])
    case Claim(t, entry) => w.(running := w.running[t := Claimed(entry)])
    case Check(t) => w.(running := w.running[t := Clear(w.running[t].entry)])
    case Commit(t) =>
      var p := w.running[t];
      if p.Referring? then World(w.archived, w.refers[p.owner := p.entry], w.running - {t})
      else World(w.archived[p.entry := true], w.refers, w.running - {t})
    case Rollback(t) => w.(running := w.running - {t})
    case Unarchive(entry) => w.(archived := w.archived[entry := false])
  }

  /** No committed row refers to an archived entry. */
  ghost predicate Live(w: World) {
    forall owner :: owner in w.refers ==> w.refers[owner] in w.archived && !w.archived[w.refers[owner]]
  }

  /** What the locks protect while transactions run. */
  ghost predicate Guarded(w: World) {
    && Live(w)
    && (forall t :: t in w.running ==> w.running[t].entry in w.archived)
    && (forall t :: t in w.running && (w.running[t].Resolved? || w.running[t].Referring?) ==>
          !w.archived[w.running[t].entry])
    && (forall t :: t in w.running && w.running[t].Clear? ==> w.running[t].entry !in w.refers.Values)
    && (forall t, u :: t in w.running && u in w.running && t != u && Claims(w.running[t], w.running[t].entry) ==>
          w.running[u].entry != w.running[t].entry)
  }

  lemma StepKeepsGuarded(w: World, step: Step)
    requires Guarded(w) && Enabled(w, step, true)
    ensures Guarded(Next(w, step))
  {
    match step
    case Commit(t) =>
      var p, w' := w.running[t], Next(w, step);
      if p.Referring? {
        forall u | u in w'.running && w'.running[u].Clear? ensures w'.running[u].entry !in w'.refers.Values {
          assert Claims(w.running[u], w.running[u].entry);
          assert forall x :: x in w'.refers.Values ==> x in w.refers.Values || x == p.entry;
        }
      } else {
        assert Claims(p, p.entry);
        assert forall owner :: owner in w.refers ==> w.refers[owner] in w.refers.Values;
      }
    case _ =>
  }

  ghost predicate IsRun(worlds: seq<World>, steps: seq<Step>, locking: bool) {
    && |worlds| == |steps| + 1
    && worlds[0].running == map[] && worlds[0].refers == map[]
    && (forall n :: 0 <= n < |steps| ==>
          Enabled(worlds[n], steps[n], locking) && Enabled(worlds[n], steps[n], false)
          && worlds[n + 1] == Next(worlds[n], steps[n]))
  }

  lemma {:induction false} RunGuarded(worlds: seq<World>, steps: seq<Step>, n: nat)
    requires IsRun(worlds, steps, true) && n <= |steps|
    ensures Guarded(worlds[n])
  {
    if n > 0 {
      RunGuarded(worlds, steps, n - 1);
      StepKeepsGuarded(worlds[n - 1], steps[n - 1]);
    }
  }

  /**
   However the statements of referring and archiving transactions interleave, no committed
   row ever refers to an archived entry.
   */
  lemma ReferencesStayLive(worlds: seq<World>, steps: seq<Step>, n: nat)
    requires IsRun(worlds, steps, true) && n <= |steps|
    ensures Live(worlds[n])
  {
    RunGuarded(worlds, steps, n);
  }

  const RACE: seq<Step> := [Resolve(1, "s"), Claim(2, "s"), Check(2), Commit(2), Refer(1, "i"), Commit(1)]

  /** Without the locks the same statements can leave a committed reference to an archived entry. */
  lemma UnlockedBreaks()
    ensures exists worlds :: IsRun(worlds, RACE, false) && !Live(worlds[|worlds| - 1])
  {
    var w0 := World(map["s" := false], map[], map[]);
    var w1 := Next(w0, RACE[0]);
    var w2 := Next(w1, RACE[1]);
    var w3 := Next(w2, RACE[2]);
    var w4 := Next(w3, RACE[3]);
    var w5 := Next(w4, RACE[4]);
    var w6 := Next(w5, RACE[5]);
    assert "i" in w6.refers && w6.refers["i"] == "s" && w6.archived["s"];
    var worlds := [w0, w1, w2, w3, w4, w5, w6];
    assert IsRun(worlds, RACE, false);
  }
}
