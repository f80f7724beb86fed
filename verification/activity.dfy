/** The activity stream: row ids are drawn before commit, and a commit gate makes them a safe cursor. */
module Activity {
  import opened Prelude
  import opened Text
  import opened Tables
  import opened Commands
  import opened Sorting

  type Rows = map<nat, ActivityRow>
  type Sees = ActivityRow -> bool

  // ---- The query and its page

  /** The ids from `after` up to but excluding `end` that a consumer sees, in ascending order. */
  function Visible(rows: Rows, sees: Sees, after: nat, end: nat): seq<nat> {
    if end <= after + 1 then []
    else
      var before := Visible(rows, sees, after, end - 1);
      if end - 1 in rows && sees(rows[end - 1]) then before + [end - 1] else before
  }

  datatype Page = Page(items: seq<nat>, next: Option<string>)

  predicate ValidPage(limit: int, after: Option<string>) {
    1 <= limit <= 100 && ParseCursor(after).Some?
  }

  /** A page repeats the cursor it was given unless it has items; then it names the last of them. */
  function PageOf(rows: Rows, sees: Sees, end: nat, after: Option<string>, limit: nat): Page
    requires ParseCursor(after).Some?
  {
    var items := Limit(Visible(rows, sees, ParseCursor(after).value, end), limit);
    Page(items, if items == [] then after else Some(Decimal(items[|items| - 1])))
  }

  /** `end` bounds the ids drawn so far. */
  method ListActivity(rows: Rows, sees: Sees, end: nat, after: Option<string>, limit: int)
    returns (page: Result<Page, StorageError>)
    ensures page == if ValidPage(limit, after) then Ok(PageOf(rows, sees, end, after, limit))
                    else Refuse(InvalidRequest)
    ensures page == Refuse(InvalidRequest) <==> limit < 1 || limit > 100 || ParseCursor(after) == None
    ensures page.Ok? ==> |page.value.items| <= limit
  {
    if !ValidPage(limit, after) {
      return Refuse(InvalidRequest);
    }
    var selected := Limit(Visible(rows, sees, ParseCursor(after).value, end), limit + 1);
    var items: seq<nat> := [];
    var next := after;
    var k := 0;
    while k < |selected| && k < limit
      invariant k <= |selected| && k <= limit && items == selected[..k]
      invariant next == if items == [] then after else Some(Decimal(items[|items| - 1]))
    {
      items := items + [selected[k]];
      next := Some(Decimal(selected[k]));
      k := k + 1;
    }
    assert selected[..k] == Limit(Visible(rows, sees, ParseCursor(after).value, end), limit);
    page := Ok(Page(items, next));
  }

  predicate Increasing(s: seq<nat>) {
    forall i, j :: 0 <= i < j < |s| ==> s[i] < s[j]
  }

  lemma {:induction false} VisibleMembers(rows: Rows, sees: Sees, after: nat, end: nat)
    ensures forall id :: id in Visible(rows, sees, after, end) <==> after < id < end && id in rows && sees(rows[id])
    ensures Increasing(Visible(rows, sees, after, end))
  {
    if end > after + 1 {
      VisibleMembers(rows, sees, after, end - 1);
      var before := Visible(rows, sees, after, end - 1);
      assert forall i :: 0 <= i < |before| ==> before[i] in before;
    }
  }

  lemma {:induction false} VisibleSplit(rows: Rows, sees: Sees, after: nat, mid: nat, end: nat)
    requires after <= mid < end
    ensures Visible(rows, sees, after, end) == Visible(rows, sees, after, mid + 1) + Visible(rows, sees, mid, end)
    decreases end
  {
    if end > mid + 1 {
      VisibleSplit(rows, sees, after, mid, end - 1);
    }
  }

  /** Rows beyond the range make no difference to it. */
  lemma {:induction false} VisibleSame(a: Rows, b: Rows, sees: Sees, after: nat, end: nat)
    requires forall id :: id < end ==> (id in a <==> id in b) && (id in a ==> a[id] == b[id])
    ensures Visible(a, sees, after, end) == Visible(b, sees, after, end)
  {
    if end > after + 1 {
      VisibleSame(a, b, sees, after, end - 1);
    }
  }

  /** A page of the ids after `after`, cut short, is all there is up to its own last id. */
  lemma {:induction false} LimitPrefix(rows: Rows, sees: Sees, after: nat, end: nat, n: nat)
    requires 0 < n <= |Visible(rows, sees, after, end)|
    ensures var last := Visible(rows, sees, after, end)[n - 1];
            after < last < end && Visible(rows, sees, after, end)[..n] == Visible(rows, sees, after, last + 1)
  {
    var v, before := Visible(rows, sees, after, end), Visible(rows, sees, after, end - 1);
    if n <= |before| {
      LimitPrefix(rows, sees, after, end - 1, n);
      assert v[..n] == before[..n];
    } else {
      assert v[..n] == v && v[n - 1] == end - 1;
    }
  }

  // ---- Transactions, the gate and a consumer

  /** `open` holds the rows that each running transaction has appended; `cursor` and `received` are the consumer's. */
  datatype World = World(next: nat, gate: Option<nat>, open: map<nat, Rows>, rows: Rows,
                         cursor: Option<string>, received: seq<nat>)

  datatype Step = Begin(t: nat) | Append(t: nat, row: ActivityRow) | Commit(t: nat) | Abort(t: nat) | Poll(limit: nat)

  const START := World(1, None, map[], map[], None, [])

  /** Appending takes the gate, which its transaction then holds to its end; ids are 64-bit. */
  predicate Enabled(w: World, step: Step, gated: bool) {
    match step
    case Begin(t) => t !in w.open
    case Append(t, _) => t in w.open && w.next <= I64_MAX && (gated ==> w.gate == None || w.gate == Some(t))
    case Commit(t) => t in w.open
    case Abort(t) => t in w.open
    case Poll(limit) => ValidPage(limit, w.cursor)
  }

  function Released(w: World, t: nat): Option<nat> {
    if w.gate == Some(t) then None else w.gate
  }

  function Next(w: World, step: Step, sees: Sees): World
    requires Enabled(w, step, false)
  {
    match step
    case Begin(t) => w.(open := w.open[t := map[]])
    case Append(t, row) =>
      var appended: Rows := w.open[t][w.next := row];
      w.(next := w.next + 1, gate := Some(t), open := w.open[t := appended])
    case Commit(t) => w.(gate := Released(w, t), open := w.open - {t}, rows := w.rows + w.open[t])
    case Abort(t) => w.(gate := Released(w, t), open := w.open - {t})
    case Poll(limit) =>
      var page := PageOf(w.rows, sees, w.next, w.cursor, limit);
      w.(cursor := page.next, received := w.received + page.items)
  }

  /** A run visits these worlds. */
  ghost predicate IsRun(worlds: seq<World>, steps: seq<Step>, sees: Sees, gated: bool) {
    && |worlds| == |steps| + 1 && worlds[0] == START
    && (forall n :: 0 <= n < |steps| ==>
          && Enabled(worlds[n], steps[n], gated) && Enabled(worlds[n], steps[n], false)
          && worlds[n + 1] == Next(worlds[n], steps[n], sees))
  }

  /** The consumer has received all it may see up to its cursor, and no running transaction can still add to that. */
  ghost predicate Sound(w: World, sees: Sees) {
    && 0 < w.next <= I64_MAX + 1
    && (forall id :: id in w.rows ==> 0 < id < w.next)
    && (forall t, id :: t in w.open && id in w.open[t] ==> 0 < id < w.next && w.gate == Some(t))
    && (forall t, id, kept :: t in w.open && id in w.open[t] && kept in w.rows ==> kept < id)
    && ParseCursor(w.cursor).Some?
    && var seen := ParseCursor(w.cursor).value;
       && (seen == 0 || seen in w.rows)
       && w.received == Visible(w.rows, sees, 0, seen + 1)
  }

  lemma PollKeepsSound(w: World, limit: nat, sees: Sees)
    requires Sound(w, sees) && Enabled(w, Poll(limit), true)
    ensures Sound(Next(w, Poll(limit), sees), sees)
  {
    var seen := ParseCursor(w.cursor).value;
    var v := Visible(w.rows, sees, seen, w.next);
    var page := PageOf(w.rows, sees, w.next, w.cursor, limit);
    if page.items != [] {
      var n := |page.items|;
      assert page.items == v[..n];
      LimitPrefix(w.rows, sees, seen, w.next, n);
      VisibleMembers(w.rows, sees, seen, w.next);
      var last := v[n - 1];
      assert last in v;
      RevisionRoundTrip(last);
      VisibleSplit(w.rows, sees, 0, seen, last + 1);
    }
  }

  lemma CommitKeepsSound(w: World, t: nat, sees: Sees)
    requires Sound(w, sees) && t in w.open
    ensures Sound(Next(w, Commit(t), sees), sees)
  {
    var seen := ParseCursor(w.cursor).value;
    var w' := Next(w, Commit(t), sees);
    VisibleSame(w.rows, w'.rows, sees, 0, seen + 1) by {
      assert forall id :: id in w.open[t] ==> seen < id;
    }
  }

  lemma StepKeepsSound(w: World, step: Step, sees: Sees)
    requires Sound(w, sees) && Enabled(w, step, true)
    ensures Sound(Next(w, step, sees), sees)
  {
    match step
    case Commit(t) => CommitKeepsSound(w, t, sees);
    case Poll(limit) => PollKeepsSound(w, limit, sees);
    case _ =>
  }

  lemma {:induction false} RunSound(worlds: seq<World>, steps: seq<Step>, sees: Sees, n: nat)
    requires IsRun(worlds, steps, sees, true) && n <= |steps|
    ensures Sound(worlds[n], sees)
  {
    if n > 0 {
      RunSound(worlds, steps, sees, n - 1);
      StepKeepsSound(worlds[n - 1], steps[n - 1], sees);
    }
  }

  // ---- What a consumer can rely on

  /**
   In every run a consumer has received exactly the visible committed records up to its
   cursor, each once and in ascending order.
   */
  lemma DeliveredExactly(worlds: seq<World>, steps: seq<Step>, sees: Sees, n: nat)
    requires IsRun(worlds, steps, sees, true) && n <= |steps|
    ensures ParseCursor(worlds[n].cursor).Some?
    ensures var w := worlds[n];
            && (forall id :: id in w.received <==>
                  id in w.rows && sees(w.rows[id]) && 0 < id <= ParseCursor(w.cursor).value)
            && Increasing(w.received)
  {
    RunSound(worlds, steps, sees, n);
    var w := worlds[n];
    VisibleMembers(w.rows, sees, 0, ParseCursor(w.cursor).value + 1);
  }

  lemma {:induction false} CursorGrows(worlds: seq<World>, steps: seq<Step>, sees: Sees, i: nat, j: nat)
    requires IsRun(worlds, steps, sees, true) && i <= j <= |steps|
    ensures ParseCursor(worlds[i].cursor).Some? && ParseCursor(worlds[j].cursor).Some?
    ensures ParseCursor(worlds[i].cursor).value <= ParseCursor(worlds[j].cursor).value
    decreases j
  {
    RunSound(worlds, steps, sees, j);
    if i < j {
      CursorGrows(worlds, steps, sees, i, j - 1);
      RunSound(worlds, steps, sees, j - 1);
      CursorStep(worlds[j - 1], steps[j - 1], sees);
    }
  }

  lemma CursorStep(w: World, step: Step, sees: Sees)
    requires Sound(w, sees) && Enabled(w, step, true)
    ensures ParseCursor(Next(w, step, sees).cursor).Some?
    ensures ParseCursor(w.cursor).value <= ParseCursor(Next(w, step, sees).cursor).value
  {
    if step.Poll? {
      var seen := ParseCursor(w.cursor).value;
      var items := PageOf(w.rows, sees, w.next, w.cursor, step.limit).items;
      VisibleMembers(w.rows, sees, seen, w.next);
      if items != [] {
        var last := items[|items| - 1];
        assert last in Visible(w.rows, sees, seen, w.next);
        RevisionRoundTrip(last);
      }
    }
  }

  lemma OnlyAhead(w: World, step: Step, sees: Sees, id: nat)
    requires Sound(w, sees) && Enabled(w, step, true) && id <= ParseCursor(w.cursor).value
    ensures id in Next(w, step, sees).rows ==> id in w.rows && Next(w, step, sees).rows[id] == w.rows[id]
  {
    if step.Commit? {
      assert forall u :: u in w.open[step.t] ==> ParseCursor(w.cursor).value < u;
    }
  }

  /** No record commits at or below a cursor that was already returned: nothing is ever skipped. */
  lemma NothingBehindTheCursor(worlds: seq<World>, steps: seq<Step>, sees: Sees, i: nat, j: nat, id: nat)
    requires IsRun(worlds, steps, sees, true) && i <= j <= |steps|
    requires ParseCursor(worlds[i].cursor).Some? && id <= ParseCursor(worlds[i].cursor).value
    ensures id in worlds[j].rows ==> id in worlds[i].rows && worlds[i].rows[id] == worlds[j].rows[id]
    decreases j
  {
    if i < j {
      NothingBehindTheCursor(worlds, steps, sees, i, j - 1, id);
      RunSound(worlds, steps, sees, j - 1);
      CursorGrows(worlds, steps, sees, i, j - 1);
      OnlyAhead(worlds[j - 1], steps[j - 1], sees, id);
    }
  }

  /** A page shorter than its limit leaves nothing that is committed and visible unreceived. */
  lemma ShortPageCatchesUp(w: World, limit: nat, sees: Sees)
    requires Sound(w, sees) && Enabled(w, Poll(limit), true)
    requires |PageOf(w.rows, sees, w.next, w.cursor, limit).items| < limit
    ensures forall id :: id in Next(w, Poll(limit), sees).received <==> id in w.rows && sees(w.rows[id])
  {
    var seen := ParseCursor(w.cursor).value;
    VisibleMembers(w.rows, sees, 0, seen + 1);
    VisibleMembers(w.rows, sees, seen, w.next);
  }

  /** An empty page returns the cursor it was given. */
  lemma EmptyPageKeepsCursor(rows: Rows, sees: Sees, end: nat, after: Option<string>, limit: nat)
    requires ValidPage(limit, after)
    ensures PageOf(rows, sees, end, after, limit).items == [] <==>
            forall id :: id in rows && ParseCursor(after).value < id < end ==> !sees(rows[id])
    ensures PageOf(rows, sees, end, after, limit).items == [] ==> PageOf(rows, sees, end, after, limit).next == after
  {
    var v := Visible(rows, sees, ParseCursor(after).value, end);
    VisibleMembers(rows, sees, ParseCursor(after).value, end);
    if v != [] {
      assert v[0] in v;
    }
  }

  // ---- What is committed

  /** Step `m` appends this row under this id in transaction `t`. */
  ghost predicate Appends(worlds: seq<World>, steps: seq<Step>, m: nat, t: nat, id: nat, row: ActivityRow) {
    m < |steps| && m < |worlds| && steps[m] == Append(t, row) && worlds[m].next == id
  }

  /** The transaction does not end in steps `m` to `n`. */
  ghost predicate Runs(steps: seq<Step>, m: nat, n: nat, t: nat) {
    forall k :: m <= k < n && k < |steps| ==> steps[k] != Commit(t) && steps[k] != Abort(t)
  }

  /** The row was appended by a transaction that has been running since. */
  ghost predicate Underway(worlds: seq<World>, steps: seq<Step>, n: nat, t: nat, id: nat, row: ActivityRow) {
    exists m :: 0 <= m < n && Appends(worlds, steps, m, t, id, row) && Runs(steps, m, n, t)
  }

  /** The row was appended by a transaction that committed before step `n`. */
  ghost predicate Settled(worlds: seq<World>, steps: seq<Step>, n: nat, id: nat, row: ActivityRow) {
    exists k :: 0 <= k < n && k < |steps| && steps[k].Commit? && Underway(worlds, steps, k, steps[k].t, id, row)
  }

  lemma StillUnderway(worlds: seq<World>, steps: seq<Step>, n: nat, t: nat, id: nat, row: ActivityRow)
    requires n < |steps| && Underway(worlds, steps, n, t, id, row) && steps[n] != Commit(t) && steps[n] != Abort(t)
    ensures Underway(worlds, steps, n + 1, t, id, row)
  {
    var m :| 0 <= m < n && Appends(worlds, steps, m, t, id, row) && Runs(steps, m, n, t);
    assert Runs(steps, m, n + 1, t);
  }

  lemma JustAppended(worlds: seq<World>, steps: seq<Step>, n: nat, t: nat, id: nat, row: ActivityRow)
    requires n < |steps| && Appends(worlds, steps, n, t, id, row)
    ensures Underway(worlds, steps, n + 1, t, id, row)
  {
    assert Runs(steps, n, n + 1, t);
  }

  /** Open rows are those underway, committed rows those committed. */
  ghost predicate Traced(worlds: seq<World>, steps: seq<Step>, n: nat)
    requires n < |worlds|
  {
    var w := worlds[n];
    && (forall t, id :: t in w.open && id in w.open[t] ==>
          id < w.next && Underway(worlds, steps, n, t, id, w.open[t][id]))
    && (forall id :: id in w.rows ==> id < w.next && Settled(worlds, steps, n, id, w.rows[id]))
  }

  lemma {:induction false} RowsAreTraced(worlds: seq<World>, steps: seq<Step>, sees: Sees, gated: bool, n: nat)
    requires IsRun(worlds, steps, sees, gated) && n <= |steps|
    ensures Traced(worlds, steps, n)
  {
    if n > 0 {
      RowsAreTraced(worlds, steps, sees, gated, n - 1);
      StepIsTraced(worlds, steps, sees, gated, n - 1);
    }
  }

  lemma CommittedLasts(worlds: seq<World>, steps: seq<Step>, n: nat, id: nat, row: ActivityRow)
    requires Settled(worlds, steps, n, id, row)
    ensures Settled(worlds, steps, n + 1, id, row)
  {
  }

  lemma StepIsTraced(worlds: seq<World>, steps: seq<Step>, sees: Sees, gated: bool, n: nat)
    requires IsRun(worlds, steps, sees, gated) && n < |steps| && Traced(worlds, steps, n)
    ensures Traced(worlds, steps, n + 1)
  {
    hide Underway, Settled;
    var w, w', step := worlds[n], worlds[n + 1], steps[n];
    assert w' == Next(w, step, sees);
    forall t, id | t in w'.open && id in w'.open[t]
      ensures id < w'.next && Underway(worlds, steps, n + 1, t, id, w'.open[t][id])
    {
      if step.Append? && step.t == t && id == w.next {
        JustAppended(worlds, steps, n, t, id, step.row);
      } else {
        StillUnderway(worlds, steps, n, t, id, w.open[t][id]);
      }
    }
    forall id | id in w'.rows ensures id < w'.next && Settled(worlds, steps, n + 1, id, w'.rows[id]) {
      if step.Commit? && id in w.open[step.t] {
        JustSettled(worlds, steps, n, id, w.open[step.t][id]);
      } else {
        CommittedLasts(worlds, steps, n, id, w.rows[id]);
      }
    }
  }

  lemma JustSettled(worlds: seq<World>, steps: seq<Step>, n: nat, id: nat, row: ActivityRow)
    requires n < |steps| && steps[n].Commit? && Underway(worlds, steps, n, steps[n].t, id, row)
    ensures Settled(worlds, steps, n + 1, id, row)
  {
  }

  /** What a running transaction has appended is in its own rows, and after its commit in the table, for good. */
  lemma {:induction false} AppendedIsOpen(worlds: seq<World>, steps: seq<Step>, sees: Sees, gated: bool, m: nat, n: nat,
                                          t: nat, id: nat, row: ActivityRow)
    requires IsRun(worlds, steps, sees, gated) && m < n <= |steps|
    requires Appends(worlds, steps, m, t, id, row) && Runs(steps, m, n, t)
    ensures t in worlds[n].open && id in worlds[n].open[t] && worlds[n].open[t][id] == row
    decreases n
  {
    assert worlds[n] == Next(worlds[n - 1], steps[n - 1], sees);
    if n > m + 1 {
      AppendedIsOpen(worlds, steps, sees, gated, m, n - 1, t, id, row);
      RowsAreTraced(worlds, steps, sees, gated, n - 1);
    }
  }

  lemma {:induction false} CommittedIsThere(worlds: seq<World>, steps: seq<Step>, sees: Sees, gated: bool, k: nat,
                                            n: nat, id: nat, row: ActivityRow)
    requires IsRun(worlds, steps, sees, gated) && k < n <= |steps|
    requires steps[k].Commit? && Underway(worlds, steps, k, steps[k].t, id, row)
    ensures id in worlds[n].rows
    decreases n
  {
    assert worlds[n] == Next(worlds[n - 1], steps[n - 1], sees);
    if n == k + 1 {
      var m :| 0 <= m < k && Appends(worlds, steps, m, steps[k].t, id, row) && Runs(steps, m, k, steps[k].t);
      AppendedIsOpen(worlds, steps, sees, gated, m, k, steps[k].t, id, row);
    } else {
      CommittedIsThere(worlds, steps, sees, gated, k, n - 1, id, row);
    }
  }

  /**
   The table holds exactly what committed transactions appended, as they appended it: nothing of
   a running or aborted one, and nothing is lost.
   */
  lemma RowsAreSettled(worlds: seq<World>, steps: seq<Step>, sees: Sees, gated: bool, n: nat, id: nat)
    requires IsRun(worlds, steps, sees, gated) && n <= |steps|
    ensures id in worlds[n].rows <==> exists row :: Settled(worlds, steps, n, id, row)
    ensures id in worlds[n].rows ==> Settled(worlds, steps, n, id, worlds[n].rows[id])
  {
    RowsAreTraced(worlds, steps, sees, gated, n);
    if row :| Settled(worlds, steps, n, id, row) {
      var k :| 0 <= k < n && k < |steps| && steps[k].Commit? && Underway(worlds, steps, k, steps[k].t, id, row);
      CommittedIsThere(worlds, steps, sees, gated, k, n, id, row);
    }
  }

  // ---- Without the gate

  const ROW := ActivityRow("o", None, None, "ann", IssueEntity, "x", Some(1))

  /** Transaction 1 draws an id before transaction 2 and commits after it; the consumer polls in between. */
  const OVERTAKING: seq<Step> :=
    [Begin(1), Begin(2), Append(1, ROW), Append(2, ROW), Commit(2), Poll(1), Commit(1)]

  ghost function Last(worlds: seq<World>): World
    requires worlds != []
  {
    worlds[|worlds| - 1]
  }

  /** Without the gate a committed, visible record can end up behind the cursor, never to be received. */
  lemma UngatedSkips()
    ensures exists worlds ::
              && IsRun(worlds, OVERTAKING, _ => true, false)
              && Last(worlds).rows.Keys == {1, 2} && Last(worlds).received == [2] && Last(worlds).cursor == Some("2")
  {
    var sees: Sees := _ => true;
    var w1 := Next(START, Begin(1), sees);
    var w2 := Next(w1, Begin(2), sees);
    var w3 := Next(w2, Append(1, ROW), sees);
    var w4 := Next(w3, Append(2, ROW), sees);
    var w5 := Next(w4, Commit(2), sees);
    assert w5.rows == map[2 := ROW] && w5.next == 3;
    assert Visible(w5.rows, sees, 0, 1) == [];
    assert Visible(w5.rows, sees, 0, 2) == [];
    assert Visible(w5.rows, sees, 0, 3) == [2];
    var w6 := Next(w5, Poll(1), sees);
    RevisionRoundTrip(2);
    assert w6.received == [2];
    var w7 := Next(w6, Commit(1), sees);
    assert w7.rows == map[1 := ROW, 2 := ROW];
    var worlds := [START, w1, w2, w3, w4, w5, w6, w7];
    assert IsRun(worlds, OVERTAKING, sees, false);
    assert Decimal(2) == "2" && Last(worlds) == w7;
  }
}
