/** The full-catalog reorder that workflow states and project statuses share. */
module Reorder {
  import opened Prelude
  import opened Text
  import opened Tables
  import opened Sorting

  predicate ItemsOk(items: seq<Item>) {
    && 1 <= |items| <= 100
    && (forall i, j :: 0 <= i < j < |items| ==> items[i].id != items[j].id && items[i].position != items[j].position)
    && (forall i :: 0 <= i < |items| ==> 0 <= items[i].position <= 0x7FFF_FFFF)
  }

  /** `items.iter().find(|item| item.id == id)` */
  function Find(items: seq<Item>, id: Id): (r: Option<Item>)
    ensures r.Some? ==> r.value in items && r.value.id == id
    ensures r.None? ==> forall it :: it in items ==> it.id != id
  {
    if items == [] then None
    else if items[0].id == id then Some(items[0])
    else Find(items[1..], id)
  }

  function Named(items: seq<Item>): set<Id> {
    set it | it in items :: it.id
  }

  /** What the request gets wrong about one unarchived entry, if anything. */
  function EntryProblem(revision: nat, id: Id, items: seq<Item>): Option<DomainFailure> {
    match Find(items, id)
    case None => Some(InvalidRequest)
    case Some(item) =>
      if ParseRevision(item.revision).None? then Some(InvalidRequest)
      else if ParseRevision(item.revision) != Some(revision) then Some(RevisionConflict)
      else None
  }

  /** The first problem among the entries in the order they are visited. */
  function FirstProblem(ids: seq<Id>, active: map<Id, nat>, items: seq<Item>): Option<DomainFailure>
    requires forall id :: id in ids ==> id in active
  {
    if ids == [] then None
    else if EntryProblem(active[ids[0]], ids[0], items).Some? then EntryProblem(active[ids[0]], ids[0], items)
    else FirstProblem(ids[1..], active, items)
  }

  /** Why a request is refused against the unarchived entries and their revisions, which are locked in id order. */
  ghost function Problem(active: map<Id, nat>, items: seq<Item>): Option<DomainFailure> {
    if |active| != |items| then Some(InvalidRequest) else FirstProblem(Ascending(active.Keys), active, items)
  }

  ghost predicate NamesExactly(active: map<Id, nat>, items: seq<Item>) {
    && Named(items) == active.Keys
    && forall it :: it in items ==> ParseRevision(it.revision) == Some(active[it.id])
  }

  lemma {:induction false} FirstProblemNone(ids: seq<Id>, active: map<Id, nat>, items: seq<Item>)
    requires forall id :: id in ids ==> id in active
    ensures FirstProblem(ids, active, items).None? <==>
            forall id :: id in ids ==> EntryProblem(active[id], id, items).None?
  {
    if ids != [] {
      FirstProblemNone(ids[1..], active, items);
      assert forall id :: id in ids <==> id == ids[0] || id in ids[1..];
    }
  }

  lemma {:induction false} NamedCount(items: seq<Item>)
    requires forall i, j :: 0 <= i < j < |items| ==> items[i].id != items[j].id
    ensures |Named(items)| == |items|
  {
    if items != [] {
      NamedCount(items[1..]);
      assert Named(items) == {items[0].id} + Named(items[1..]);
      assert items[0].id !in Named(items[1..]);
    }
  }

  lemma FindDistinct(items: seq<Item>, it: Item)
    requires forall i, j :: 0 <= i < j < |items| ==> items[i].id != items[j].id
    requires it in items
    ensures Find(items, it.id) == Some(it)
  {
    var found := Find(items, it.id);
    var i :| 0 <= i < |items| && items[i] == it;
    var j :| 0 <= j < |items| && items[j] == found.value;
    assert items[i].id == items[j].id;
  }

  /**
   A reorder goes through exactly when it names every unarchived entry once with its
   current revision; equal counts and distinct ids stand in for the other half of the
   comparison of the two id sets.
   */
  lemma ReorderAcceptedExactly(active: map<Id, nat>, items: seq<Item>)
    requires ItemsOk(items)
    ensures Problem(active, items).None? <==> NamesExactly(active, items)
  {
    NamedCount(items);
    var ids := Ascending(active.Keys);
    assert |active| == |active.Keys|;
    FirstProblemNone(ids, active, items);
    if Problem(active, items).None? {
      forall id | id in active.Keys ensures id in Named(items) {
        assert EntryProblem(active[id], id, items).None?;
        assert Find(items, id).value.id in Named(items);
      }
      SameSizeSubset(active.Keys, Named(items));
      forall it | it in items ensures ParseRevision(it.revision) == Some(active[it.id]) {
        assert it.id in Named(items);
        FindDistinct(items, it);
        assert EntryProblem(active[it.id], it.id, items).None?;
      }
    }
    if NamesExactly(active, items) {
      forall id | id in ids ensures EntryProblem(active[id], id, items).None? {
        assert id in Named(items);
      }
    }
  }

  lemma NamesSpelled(active: map<Id, nat>, items: seq<Item>)
    ensures NamesExactly(active, items) <==>
            && (forall id :: id in active ==> exists it :: it in items && it.id == id)
            && (forall it :: it in items ==> it.id in active && ParseRevision(it.revision) == Some(active[it.id]))
  {
    forall it | it in items ensures it.id in Named(items) {
    }
  }

  // ---- Which refusal

  /** An item names the entry at its revision. */
  predicate Current(active: map<Id, nat>, items: seq<Item>, id: Id)
    requires id in active
  {
    exists it :: it in items && it.id == id && ParseRevision(it.revision) == Some(active[id])
  }

  /** An item names the entry at another revision. */
  predicate Outdated(active: map<Id, nat>, items: seq<Item>, id: Id)
    requires id in active
  {
    exists it :: it in items && it.id == id
                 && ParseRevision(it.revision).Some? && ParseRevision(it.revision) != Some(active[id])
  }

  lemma ProblemOfEntry(active: map<Id, nat>, items: seq<Item>, id: Id)
    requires ItemsOk(items) && id in active
    ensures var p := EntryProblem(active[id], id, items);
            && (p.None? <==> Current(active, items, id))
            && (p == Some(RevisionConflict) <==> Outdated(active, items, id))
            && p in {None, Some(RevisionConflict), Some(InvalidRequest)}
  {
    forall it | it in items && it.id == id ensures Find(items, id) == Some(it) {
      FindDistinct(items, it);
    }
  }

  lemma {:induction false} FirstProblemIs(ids: seq<Id>, active: map<Id, nat>, items: seq<Item>)
    requires forall id :: id in ids ==> id in active
    ensures FirstProblem(ids, active, items).Some? ==>
              exists k :: 0 <= k < |ids|
                          && EntryProblem(active[ids[k]], ids[k], items) == FirstProblem(ids, active, items)
                          && forall j :: 0 <= j < k ==> EntryProblem(active[ids[j]], ids[j], items).None?
  {
    if ids != [] && EntryProblem(active[ids[0]], ids[0], items).None? {
      FirstProblemIs(ids[1..], active, items);
      if FirstProblem(ids, active, items).Some? {
        var k :| 0 <= k < |ids[1..]|
                 && EntryProblem(active[ids[1..][k]], ids[1..][k], items) == FirstProblem(ids[1..], active, items)
                 && forall j :: 0 <= j < k ==> EntryProblem(active[ids[1..][j]], ids[1..][j], items).None?;
        assert ids[1..][k] == ids[k + 1];
        forall j | 0 <= j < k + 1 ensures EntryProblem(active[ids[j]], ids[j], items).None? {
          if j > 0 {
            assert ids[1..][j - 1] == ids[j];
          }
        }
      }
    }
  }

  /** The first entry, by id, that is not named at its revision is this one, and it is named at another. */
  ghost predicate Blamed(active: map<Id, nat>, items: seq<Item>, id: Id) {
    && id in active && Outdated(active, items, id)
    && forall other :: other in active && other != id && StrLe(other, id) ==> Current(active, items, other)
  }

  lemma EarlierIn(ids: seq<Id>, k: nat, other: Id) returns (j: nat)
    requires Sorted(StrLe, ids) && k < |ids| && other in ids && other != ids[k] && StrLe(other, ids[k])
    ensures j < k && ids[j] == other
  {
    j :| 0 <= j < |ids| && ids[j] == other;
    if j > k {
      assert StrLe(ids[k], ids[j]);
      StrLeAntisymmetric(ids[j], ids[k]);
    }
  }

  lemma EarlierAreCurrent(active: map<Id, nat>, items: seq<Item>, ids: seq<Id>, k: nat)
    requires ItemsOk(items) && ids == Ascending(active.Keys) && k < |ids|
    requires forall j :: 0 <= j < k ==> ids[j] in active && EntryProblem(active[ids[j]], ids[j], items).None?
    ensures forall other :: other in active && other != ids[k] && StrLe(other, ids[k]) ==> Current(active, items, other)
  {
    hide EntryProblem, Current, Ascending, ItemsOk, Sorted, StrLe;
    forall other | other in active && other != ids[k] && StrLe(other, ids[k]) ensures Current(active, items, other) {
      assert other in ids;
      var j := EarlierIn(ids, k, other);
      ProblemOfEntry(active, items, other);
    }
  }

  /**
   A refused reorder is a revision conflict exactly when the counts agree and the first entry, by
   id, that is not named at its revision is named at another one; otherwise the request is invalid.
   */
  lemma RefusedAs(active: map<Id, nat>, items: seq<Item>)
    requires ItemsOk(items) && Problem(active, items).Some?
    ensures Problem(active, items).value == RevisionConflict <==>
            |active| == |items| && exists id :: Blamed(active, items, id)
    ensures Problem(active, items).value != RevisionConflict ==> Problem(active, items).value == InvalidRequest
  {
    hide EntryProblem, Current, Outdated, Ascending, FirstProblem, ItemsOk;
    if |active| == |items| {
      var ids := Ascending(active.Keys);
      FirstProblemIs(ids, active, items);
      var k :| 0 <= k < |ids| && EntryProblem(active[ids[k]], ids[k], items) == FirstProblem(ids, active, items)
               && forall j :: 0 <= j < k ==> EntryProblem(active[ids[j]], ids[j], items).None?;
      assert ids[k] in ids;
      ProblemOfEntry(active, items, ids[k]);
      EarlierAreCurrent(active, items, ids, k);
      if exists id :: Blamed(active, items, id) {
        var id :| Blamed(active, items, id);
        forall j | 0 <= j < k ensures ids[j] in active && Current(active, items, ids[j]) {
          assert ids[j] in ids;
          ProblemOfEntry(active, items, ids[j]);
        }
        FirstBadIs(active, items, ids, k, id);
      }
      if Outdated(active, items, ids[k]) {
        assert Blamed(active, items, ids[k]);
      }
    }
  }

  lemma FirstBadIs(active: map<Id, nat>, items: seq<Item>, ids: seq<Id>, k: nat, id: Id)
    requires ItemsOk(items) && ids == Ascending(active.Keys) && k < |ids| && ids[k] in active
    requires !Current(active, items, ids[k])
    requires forall j :: 0 <= j < k ==> ids[j] in active && Current(active, items, ids[j])
    requires Blamed(active, items, id)
    ensures id == ids[k]
  {
    assert id in ids;
    var m :| 0 <= m < |ids| && ids[m] == id;
    ProblemOfEntry(active, items, id);
    if m > k {
      assert StrLe(ids[k], ids[m]);
    }
  }

  /** Positions in the reply run upwards. */
  predicate ByPosition(a: Item, b: Item) {
    a.position <= b.position
  }

  function InOrder(items: seq<Item>): seq<Item> {
    Sort(ByPosition, items)
  }

  lemma InOrderAscends(items: seq<Item>)
    requires ItemsOk(items)
    ensures |InOrder(items)| == |items|
    ensures forall it :: it in InOrder(items) <==> it in items
    ensures forall i, j :: 0 <= i < j < |items| ==> InOrder(items)[i].position < InOrder(items)[j].position
  {
    var r := InOrder(items);
    SortSorted(ByPosition, items);
    SortPermutes(ByPosition, items);
    forall it ensures it in r <==> it in items {
      SortMembers(ByPosition, items, it);
    }
    assert |multiset(r)| == |r|;
    forall i, j | 0 <= i < j < |items|
      ensures r[i].position < r[j].position
    {
      assert ByPosition(r[i], r[j]);
      if r[i].position == r[j].position {
        assert r[i] in items && r[j] in items;
        var a :| 0 <= a < |items| && items[a] == r[i];
        var b :| 0 <= b < |items| && items[b] == r[j];
        assert a == b;
        TwiceInSequence(r, i, j);
        AtMostOnce(items, a);
      }
    }
  }

  lemma TwiceInSequence<T>(s: seq<T>, i: nat, j: nat)
    requires i < j < |s| && s[i] == s[j]
    ensures multiset(s)[s[i]] >= 2
  {
    assert s == s[..i + 1] + s[i + 1..];
    assert s[i] in s[..i + 1] && s[i + 1..][j - i - 1] == s[j];
    assert multiset(s) == multiset(s[..i + 1]) + multiset(s[i + 1..]);
  }

  lemma AtMostOnce(items: seq<Item>, a: nat)
    requires a < |items|
    requires forall i, j :: 0 <= i < j < |items| ==> items[i].id != items[j].id
    ensures multiset(items)[items[a]] == 1
  {
    var before, after := items[..a], items[a + 1..];
    assert items == before + [items[a]] + after;
    assert items[a] !in before && items[a] !in after;
    assert multiset(items) == multiset(before) + multiset{items[a]} + multiset(after);
  }

  // ---- The rows a reorder moves

  /** Each named row moved to its position. */
  function Reordered<T>(rows: map<Id, T>, items: seq<Item>, move: (T, int) -> T): map<Id, T> {
    map id | id in rows :: if Find(items, id).Some? then move(rows[id], Find(items, id).value.position) else rows[id]
  }

  /** The named rows in the order of the items. */
  function Rows<T>(rows: map<Id, T>, items: seq<Item>): seq<(Id, T)>
    requires forall it :: it in items ==> it.id in rows
  {
    if items == [] then [] else [(items[0].id, rows[items[0].id])] + Rows(rows, items[1..])
  }

  lemma {:induction false} FindInPrefix(items: seq<Item>, k: nat)
    requires k < |items| && forall i, j :: 0 <= i < j < |items| ==> items[i].id != items[j].id
    ensures Find(items[..k], items[k].id).None?
    ensures Find(items[..k + 1], items[k].id) == Some(items[k])
  {
    forall it | it in items[..k] ensures it.id != items[k].id {
      var i :| 0 <= i < k && items[..k][i] == it;
    }
    assert items[k] == items[..k + 1][k];
    FindDistinct(items[..k + 1], items[k]);
  }

  lemma {:induction false} FindOther(items: seq<Item>, it: Item, id: Id)
    requires it.id != id
    ensures Find(items + [it], id) == Find(items, id)
  {
    if items == [] {
      assert Find([it], id) == Find([it][1..], id);
    } else {
      assert (items + [it])[1..] == items[1..] + [it];
      FindOther(items[1..], it, id);
    }
  }

  lemma NextMoved<T>(rows: map<Id, T>, items: seq<Item>, move: (T, int) -> T, k: nat)
    requires k < |items| && items[k].id in rows && ItemsOk(items)
    ensures Reordered(rows, items[..k + 1], move)
         == Reordered(rows, items[..k], move)[items[k].id := move(rows[items[k].id], items[k].position)]
    ensures Reordered(rows, items[..k], move)[items[k].id] == rows[items[k].id]
  {
    FindInPrefix(items, k);
    assert items[..k + 1] == items[..k] + [items[k]];
    forall id | id in rows && id != items[k].id ensures Find(items[..k + 1], id) == Find(items[..k], id) {
      FindOther(items[..k], items[k], id);
    }
  }

  /** The update loop: one row per item. */
  method MoveRows<T>(rows: map<Id, T>, items: seq<Item>, move: (T, int) -> T) returns (moved: map<Id, T>)
    requires ItemsOk(items) && forall it :: it in items ==> it.id in rows
    ensures moved == Reordered(rows, items, move)
  {
    moved := rows;
    for k := 0 to |items|
      invariant moved == Reordered(rows, items[..k], move)
    {
      var item := items[k];
      assert items[k] in items;
      NextMoved(rows, items, move, k);
      moved := moved[item.id := move(moved[item.id], item.position)];
    }
    assert items[..|items|] == items;
  }

  lemma {:induction false} RowsAppend<T>(rows: map<Id, T>, items: seq<Item>, it: Item)
    requires (forall i :: i in items ==> i.id in rows) && it.id in rows
    ensures Rows(rows, items + [it]) == Rows(rows, items) + [(it.id, rows[it.id])]
  {
    if items == [] {
      assert Rows(rows, [it][1..]) == [];
    } else {
      assert (items + [it])[1..] == items[1..] + [it];
      RowsAppend(rows, items[1..], it);
    }
  }

  /** The reply loop: one row per item. */
  method LoadRows<T>(rows: map<Id, T>, items: seq<Item>) returns (loaded: seq<(Id, T)>)
    requires forall it :: it in items ==> it.id in rows
    ensures loaded == Rows(rows, items)
  {
    loaded := [];
    for k := 0 to |items|
      invariant loaded == Rows(rows, items[..k])
    {
      assert items[k] in items;
      loaded := loaded + [(items[k].id, rows[items[k].id])];
      RowsAppend(rows, items[..k], items[k]);
      assert items[..k + 1] == items[..k] + [items[k]];
    }
    assert items[..|items|] == items;
  }

  lemma {:induction false} RowsAt<T>(rows: map<Id, T>, items: seq<Item>)
    requires forall it :: it in items ==> it.id in rows
    ensures |Rows(rows, items)| == |items|
    ensures forall k :: 0 <= k < |items| ==> Rows(rows, items)[k] == (items[k].id, rows[items[k].id])
  {
    if items != [] {
      RowsAt(rows, items[1..]);
    }
  }

  /** Exactly the named rows move. */
  lemma MovesNamed<T>(rows: map<Id, T>, items: seq<Item>, move: (T, int) -> T)
    requires ItemsOk(items) && forall it :: it in items ==> it.id in rows
    ensures Reordered(rows, items, move).Keys == rows.Keys
    ensures forall it :: it in items ==> Reordered(rows, items, move)[it.id] == move(rows[it.id], it.position)
    ensures forall id :: id in rows && id !in Named(items) ==> Reordered(rows, items, move)[id] == rows[id]
  {
    forall it | it in items ensures Find(items, it.id) == Some(it) {
      FindDistinct(items, it);
    }
    assert forall it :: it in items ==> it.id in Named(items);
  }

  predicate Ascends<T>(rows: seq<(Id, T)>, place: T -> int) {
    forall i, j :: 0 <= i < j < |rows| ==> place(rows[i].1) < place(rows[j].1)
  }

  /** The reply lists exactly the named rows as they are, by ascending position. */
  lemma ReplyAscends<T>(rows: map<Id, T>, items: seq<Item>, place: T -> int)
    requires ItemsOk(items) && forall it :: it in items ==> it.id in rows && place(rows[it.id]) == it.position
    ensures forall it :: it in InOrder(items) ==> it.id in rows
    ensures Ascends(Rows(rows, InOrder(items)), place)
    ensures (set row | row in Rows(rows, InOrder(items)) :: row.0) == Named(items)
    ensures |Rows(rows, InOrder(items))| == |items|
    ensures forall row :: row in Rows(rows, InOrder(items)) ==> row.0 in rows && row.1 == rows[row.0]
  {
    InOrderAscends(items);
    var ordered := InOrder(items);
    RowsAt(rows, ordered);
    hide ItemsOk, InOrder, Rows;
    var loaded := Rows(rows, ordered);
    forall k | 0 <= k < |loaded| ensures ordered[k] in items && place(loaded[k].1) == ordered[k].position {
      assert ordered[k] in ordered;
    }
    LoadedNames(rows, items, ordered);
  }

  lemma LoadedNames<T>(rows: map<Id, T>, items: seq<Item>, ordered: seq<Item>)
    requires forall it :: it in ordered <==> it in items
    requires forall it :: it in items ==> it.id in rows
    ensures (set row | row in Rows(rows, ordered) :: row.0) == Named(items)
  {
    RowsAt(rows, ordered);
    hide Rows;
    var loaded := Rows(rows, ordered);
    forall id ensures id in (set row | row in loaded :: row.0) <==> id in Named(items) {
      if id in Named(items) {
        var it :| it in items && it.id == id;
        var k :| 0 <= k < |ordered| && ordered[k] == it;
        assert loaded[k] in loaded && loaded[k].0 == id;
      }
    }
  }
}
