/** Issue pages: four set-at-a-time queries against the loader of one issue. */
module Pages {
  import opened Prelude
  import opened Text
  import opened Tables
  import opened Sorting
  import opened Commands
  import Activity
  import Identifiers

  datatype AliasRow = AliasRow(org: Id, identifier: string, issue: Id, at: int)

  datatype LabelRow = LabelRow(org: Id, issue: Id, labelId: Id)

  /** What one statement sees: the tables, the row numbers of issues, and rows with an order of their own. */
  datatype Snapshot = Snapshot(db: Db, numbers: seq<(Id, nat)>, aliases: seq<AliasRow>, labels: seq<LabelRow>)

  /** Issue ids and row numbers are unique. */
  predicate Proper(s: Snapshot) {
    && (forall r :: r in s.numbers ==> 0 < r.1 <= I64_MAX)
    && (forall i, j :: 0 <= i < j < |s.numbers| ==>
          s.numbers[i].0 != s.numbers[j].0 && s.numbers[i].1 != s.numbers[j].1)
  }

  datatype Listed = Listed(id: Id, row: Issue, previous: seq<string>, labels: seq<Id>)

  datatype Scope = Scope(org: Id, project: Option<Id>, team: Option<Id>, state: Option<Id>, includeArchived: bool)

  datatype Query = Query(scope: Scope, after: Option<string>, limit: int)

  datatype IssuePage = IssuePage(items: seq<Listed>, next: Option<string>)

  // ---- Orders and conditions of the queries

  predicate ByTime(a: AliasRow, b: AliasRow) {
    a.at < b.at || (a.at == b.at && StrLe(a.identifier, b.identifier))
  }

  predicate ByIssueThenTime(a: AliasRow, b: AliasRow) {
    if a.issue == b.issue then ByTime(a, b) else StrLe(a.issue, b.issue)
  }

  predicate ByLabel(a: LabelRow, b: LabelRow) {
    StrLe(a.labelId, b.labelId)
  }

  predicate ByIssueThenLabel(a: LabelRow, b: LabelRow) {
    if a.issue == b.issue then ByLabel(a, b) else StrLe(a.issue, b.issue)
  }

  predicate ByNumber(a: (Id, nat), b: (Id, nat)) {
    a.1 <= b.1
  }

  /** Identifiers of one issue other than its current one. */
  function OthersOf(org: Id, issue: Id, current: string): AliasRow -> bool {
    (a: AliasRow) => a.org == org && a.issue == issue && a.identifier != current
  }

  function AliasesOf(org: Id, ids: seq<Id>): AliasRow -> bool {
    (a: AliasRow) => a.org == org && a.issue in ids
  }

  function LabelsOf(org: Id, issue: Id): LabelRow -> bool {
    (l: LabelRow) => l.org == org && l.issue == issue
  }

  function LabelsOfAll(org: Id, ids: seq<Id>): LabelRow -> bool {
    (l: LabelRow) => l.org == org && l.issue in ids
  }

  predicate Matches(db: Db, actor: Id, q: Scope, issue: Id) {
    && issue in db.issues
    && var row := db.issues[issue];
       && row.org == q.org && row.team in db.teams
       && (q.project.Some? ==> row.project == q.project.value)
       && (q.team.Some? ==> row.team == q.team.value)
       && (q.state.Some? ==> row.state == q.state.value)
       && (q.includeArchived || !row.archived)
       && IssueVisible(db, issue, actor)
  }

  function Selects(db: Db, actor: Id, q: Scope, after: nat): ((Id, nat)) -> bool {
    (r: (Id, nat)) => r.1 > after && Matches(db, actor, q, r.0)
  }

  /** The matching issues past a row number, in row order. */
  function Selected(s: Snapshot, actor: Id, q: Scope, after: nat): seq<(Id, nat)> {
    Sort(ByNumber, Filter(Selects(s.db, actor, q, after), s.numbers))
  }

  function Texts(rows: seq<AliasRow>): seq<string> {
    if rows == [] then [] else [rows[0].identifier] + Texts(rows[1..])
  }

  function Ids(rows: seq<LabelRow>): seq<Id> {
    if rows == [] then [] else [rows[0].labelId] + Ids(rows[1..])
  }

  // ---- One issue at a time

  function PreviousOf(s: Snapshot, org: Id, issue: Id, current: string): seq<string> {
    Texts(Sort(ByTime, Filter(OthersOf(org, issue, current), s.aliases)))
  }

  function LabelIds(s: Snapshot, org: Id, issue: Id): seq<Id> {
    Ids(Sort(ByLabel, Filter(LabelsOf(org, issue), s.labels)))
  }

  predicate Exists(s: Snapshot, org: Id, issue: Id) {
    issue in s.db.issues && s.db.issues[issue].org == org
  }

  /** The loader's three statements, each with what it sees. */
  function Load(rows: Snapshot, aliases: Snapshot, labels: Snapshot, org: Id, issue: Id): Option<Listed> {
    if !Exists(rows, org, issue) then None
    else
      var row := rows.db.issues[issue];
      Some(Listed(issue, row, PreviousOf(aliases, org, issue, row.identifier), LabelIds(labels, org, issue)))
  }

  function GetIssue(s: Snapshot, actor: Id, org: Id, text: string): Result<Listed, StorageError> {
    match Identifiers.Resolve(s.db, org, text)
    case None => Refuse(NotFound)
    case Some(issue) =>
      if CheckIssue(s.db, org, issue, actor).Err? then Err(CheckIssue(s.db, org, issue, actor).error)
      else if Load(s, s, s, org, issue).None? then Refuse(NotFound)
      else Ok(Load(s, s, s, org, issue).value)
  }

  // ---- A page at a time

  function IdsOf(page: seq<(Id, nat)>): seq<Id> {
    seq(|page|, i requires 0 <= i < |page| => page[i].0)
  }

  function Page(s: Snapshot, actor: Id, q: Query): seq<(Id, nat)>
    requires Activity.ValidPage(q.limit, q.after)
  {
    Limit(Selected(s, actor, q.scope, ParseCursor(q.after).value), q.limit)
  }

  function NextCursor(s: Snapshot, actor: Id, q: Query): Option<string>
    requires Activity.ValidPage(q.limit, q.after)
  {
    if |Selected(s, actor, q.scope, ParseCursor(q.after).value)| > q.limit then
      Some(Decimal(Page(s, actor, q)[q.limit - 1].1))
    else None
  }

  ghost predicate Disappeared(rows: Snapshot, org: Id, page: seq<(Id, nat)>) {
    exists k :: 0 <= k < |page| && !Exists(rows, org, page[k].0)
  }

  function Group<T>(groups: map<Id, seq<T>>, id: Id): seq<T> {
    if id in groups then groups[id] else []
  }

  function Pushed<T>(groups: map<Id, seq<T>>, id: Id, x: T): map<Id, seq<T>> {
    groups[id := Group(groups, id) + [x]]
  }

  lemma {:induction false} IdentifiersAppend(a: seq<AliasRow>, b: seq<AliasRow>)
    ensures Texts(a + b) == Texts(a) + Texts(b)
  {
    if a == [] {
      assert a + b == b;
    } else {
      assert (a + b)[1..] == a[1..] + b;
      IdentifiersAppend(a[1..], b);
    }
  }

  lemma {:induction false} LabelsAppend(a: seq<LabelRow>, b: seq<LabelRow>)
    ensures Ids(a + b) == Ids(a) + Ids(b)
  {
    if a == [] {
      assert a + b == b;
    } else {
      assert (a + b)[1..] == a[1..] + b;
      LabelsAppend(a[1..], b);
    }
  }

  function OfIssue(issue: Id, current: string): AliasRow -> bool {
    (a: AliasRow) => a.issue == issue && a.identifier != current
  }

  function LabelOfIssue(issue: Id): LabelRow -> bool {
    (l: LabelRow) => l.issue == issue
  }

  /** Groups alias rows by issue, leaving out the identifier the issue shows. */
  method GroupAliases(rows: seq<AliasRow>, issues: map<Id, Issue>) returns (previous: map<Id, seq<string>>)
    ensures forall id :: id in issues ==> Group(previous, id) == Texts(Filter(OfIssue(id, issues[id].identifier), rows))
  {
    previous := map[];
    for k := 0 to |rows|
      invariant forall id :: id in issues ==>
                  Group(previous, id) == Texts(Filter(OfIssue(id, issues[id].identifier), rows[..k]))
    {
      var a := rows[k];
      assert rows[..k + 1] == rows[..k] + [a];
      forall id | id in issues
        ensures Texts(Filter(OfIssue(id, issues[id].identifier), rows[..k + 1]))
             == Texts(Filter(OfIssue(id, issues[id].identifier), rows[..k]))
                + if a.issue == id && a.identifier != issues[id].identifier then [a.identifier] else []
      {
        var p := OfIssue(id, issues[id].identifier);
        FilterAppend(p, rows[..k], [a]);
        IdentifiersAppend(Filter(p, rows[..k]), Filter(p, [a]));
        assert Filter(p, [a]) == if p(a) then [a] else [];
      }
      if a.issue in issues && a.identifier != issues[a.issue].identifier {
        previous := Pushed(previous, a.issue, a.identifier);
      }
    }
    assert rows[..|rows|] == rows;
  }

  method GroupLabels(rows: seq<LabelRow>) returns (labels: map<Id, seq<Id>>)
    ensures forall id :: Group(labels, id) == Ids(Filter(LabelOfIssue(id), rows))
  {
    labels := map[];
    for k := 0 to |rows|
      invariant forall id :: Group(labels, id) == Ids(Filter(LabelOfIssue(id), rows[..k]))
    {
      var l := rows[k];
      assert rows[..k + 1] == rows[..k] + [l];
      forall id
        ensures Ids(Filter(LabelOfIssue(id), rows[..k + 1]))
             == Ids(Filter(LabelOfIssue(id), rows[..k])) + if l.issue == id then [l.labelId] else []
      {
        var p := LabelOfIssue(id);
        FilterAppend(p, rows[..k], [l]);
        LabelsAppend(Filter(p, rows[..k]), Filter(p, [l]));
        assert Filter(p, [l]) == if p(l) then [l] else [];
      }
      labels := Pushed(labels, l.issue, l.labelId);
    }
    assert rows[..|rows|] == rows;
  }

  // ---- Grouping a sorted batch gives each issue its own sorted rows

  lemma OrdersAreTotal()
    ensures TotalOrder(ByTime) && TotalOrder(ByIssueThenTime) && TotalOrder(ByLabel) && TotalOrder(ByIssueThenLabel)
    ensures TotalOrder(ByNumber)
  {
    forall a: string, b: string ensures StrLe(a, b) || StrLe(b, a) {
      StrLeTotal(a, b);
    }
    forall a: string, b: string, c: string | StrLe(a, b) && StrLe(b, c) ensures StrLe(a, c) {
      StrLeTransitive(a, b, c);
    }
    forall a: string, b: string | StrLe(a, b) && StrLe(b, a) ensures a == b {
      StrLeAntisymmetric(a, b);
    }
  }

  lemma AliasGroup(aliases: seq<AliasRow>, org: Id, ids: seq<Id>, id: Id, current: string)
    requires id in ids
    ensures Filter(OfIssue(id, current), Sort(ByIssueThenTime, Filter(AliasesOf(org, ids), aliases)))
         == Sort(ByTime, Filter(OthersOf(org, id, current), aliases))
  {
    OrdersAreTotal();
    var p, q, own := OfIssue(id, current), AliasesOf(org, ids), OthersOf(org, id, current);
    FilterSort(ByIssueThenTime, p, Filter(q, aliases));
    FilterFilter(p, q, own, aliases);
    forall x, y | x in Filter(own, aliases) && y in Filter(own, aliases)
      ensures ByIssueThenTime(x, y) == ByTime(x, y)
    {
      FilterMembers(own, aliases, x);
      FilterMembers(own, aliases, y);
    }
    SortSame(ByIssueThenTime, ByTime, Filter(own, aliases));
  }

  lemma LabelGroup(labels: seq<LabelRow>, org: Id, ids: seq<Id>, id: Id)
    requires id in ids
    ensures Filter(LabelOfIssue(id), Sort(ByIssueThenLabel, Filter(LabelsOfAll(org, ids), labels)))
         == Sort(ByLabel, Filter(LabelsOf(org, id), labels))
  {
    OrdersAreTotal();
    var p, q, own := LabelOfIssue(id), LabelsOfAll(org, ids), LabelsOf(org, id);
    FilterSort(ByIssueThenLabel, p, Filter(q, labels));
    FilterFilter(p, q, own, labels);
    forall x, y | x in Filter(own, labels) && y in Filter(own, labels)
      ensures ByIssueThenLabel(x, y) == ByLabel(x, y)
    {
      FilterMembers(own, labels, x);
      FilterMembers(own, labels, y);
    }
    SortSame(ByIssueThenLabel, ByLabel, Filter(own, labels));
  }

  // ---- The page loader

  /** The rows of the page's issues, keyed by id. */
  function PageRows(rows: Snapshot, org: Id, ids: seq<Id>): map<Id, Issue> {
    map id | id in rows.db.issues && id in ids && rows.db.issues[id].org == org :: rows.db.issues[id]
  }

  lemma AllFound(rows: Snapshot, org: Id, ids: seq<Id>)
    requires NoDup(ids)
    ensures |PageRows(rows, org, ids)| == |ids| <==> forall id :: id in ids ==> Exists(rows, org, id)
  {
    var found, all := PageRows(rows, org, ids), set id | id in ids;
    assert |found| == |found.Keys| && found.Keys <= all;
    MembersCount(ids);
    if |found| == |ids| {
      SameSizeSubset(found.Keys, all);
      assert forall id :: id in ids ==> id in all;
    }
    if forall id :: id in ids ==> Exists(rows, org, id) {
      assert found.Keys == all;
    }
  }

  /**
   The four statements, each of which may see a different state, and their count. The page
   is the one-at-a-time loader applied to the selected issues, unless one of them is gone.
   */
  method ListIssues(s1: Snapshot, s2: Snapshot, s3: Snapshot, s4: Snapshot, actor: Id, q: Query)
    returns (result: Result<IssuePage, StorageError>, queries: nat)
    requires Proper(s1)
    ensures !Activity.ValidPage(q.limit, q.after) <==> queries == 0
    ensures queries == 0 ==> result == Refuse(InvalidRequest)
    ensures queries == 0 <==> q.limit < 1 || q.limit > 100 || ParseCursor(q.after) == None
    ensures queries > 0 ==> (result.Err? <==> Disappeared(s2, q.scope.org, Page(s1, actor, q)))
    ensures queries > 0 ==> queries == if result.Err? then 2 else 4
    ensures queries > 0 && result.Err? ==> result.error == Runtime
    ensures queries > 0 && result.Ok? ==> result.value.next == NextCursor(s1, actor, q)
    ensures queries > 0 && result.Ok? ==>
              var page := Page(s1, actor, q);
              && |result.value.items| == |page|
              && forall k :: 0 <= k < |page| ==> Load(s2, s3, s4, q.scope.org, page[k].0) == Some(result.value.items[k])
  {
    hide Selected, Load, PageRows;
    if !Activity.ValidPage(q.limit, q.after) {
      return Refuse(InvalidRequest), 0;
    }
    var selected := Limit(Selected(s1, actor, q.scope, ParseCursor(q.after).value), q.limit + 1);
    var page := Limit(selected, q.limit);
    LookAhead(s1, actor, q);
    var ids := IdsOf(page);
    AllFound(s2, q.scope.org, ids);
    var issues := PageRows(s2, q.scope.org, ids);
    if |issues| != |page| {
      GoneIsDisappeared(s2, q.scope.org, page);
      return Err(Runtime), 2;
    }
    if Disappeared(s2, q.scope.org, page) {
      GoneIsDisappeared(s2, q.scope.org, page);
    }
    FoundRows(s2, q.scope.org, ids);
    var items := Materialize(s2, s3, s4, q.scope.org, ids, issues);
    var next := if |selected| > q.limit then Some(Decimal(page[|page| - 1].1)) else None;
    result, queries := Ok(IssuePage(items, next)), 4;
  }

  lemma FoundRows(rows: Snapshot, org: Id, ids: seq<Id>)
    ensures forall id :: id in ids && Exists(rows, org, id) ==>
              id in PageRows(rows, org, ids) && PageRows(rows, org, ids)[id] == rows.db.issues[id]
  {
  }

  lemma GoneIsDisappeared(rows: Snapshot, org: Id, page: seq<(Id, nat)>)
    ensures Disappeared(rows, org, page) <==> !forall id :: id in IdsOf(page) ==> Exists(rows, org, id)
  {
    if Disappeared(rows, org, page) {
      var k :| 0 <= k < |page| && !Exists(rows, org, page[k].0);
      assert IdsOf(page)[k] == page[k].0;
    }
  }

  /** One row beyond the page tells whether there are more. */
  lemma LookAhead(s: Snapshot, actor: Id, q: Query)
    requires Proper(s) && Activity.ValidPage(q.limit, q.after)
    ensures var selected := Selected(s, actor, q.scope, ParseCursor(q.after).value);
            var looked := Limit(selected, q.limit + 1);
            && Limit(looked, q.limit) == Page(s, actor, q)
            && (|looked| > q.limit <==> |selected| > q.limit)
            && NoDup(IdsOf(Page(s, actor, q)))
  {
    SelectedDistinct(s, actor, q.scope, ParseCursor(q.after).value);
    var ids, page := IdsOf(Page(s, actor, q)), Page(s, actor, q);
    assert forall i :: 0 <= i < |ids| ==> ids[i] == page[i].0;
  }

  /** The third and fourth statements, and the items in page order. */
  method Materialize(s2: Snapshot, s3: Snapshot, s4: Snapshot, org: Id, ids: seq<Id>, issues: map<Id, Issue>)
    returns (items: seq<Listed>)
    requires forall id :: id in ids ==> Exists(s2, org, id) && id in issues && issues[id] == s2.db.issues[id]
    ensures |items| == |ids|
    ensures forall k :: 0 <= k < |ids| ==> Load(s2, s3, s4, org, ids[k]) == Some(items[k])
  {
    hide Load, Filter, Sort, Texts, Ids, Exists;
    var previous := GroupAliases(Sort(ByIssueThenTime, Filter(AliasesOf(org, ids), s3.aliases)), issues);
    var labels := GroupLabels(Sort(ByIssueThenLabel, Filter(LabelsOfAll(org, ids), s4.labels)));
    items := [];
    for k := 0 to |ids|
      invariant |items| == k
      invariant forall i :: 0 <= i < k ==> Load(s2, s3, s4, org, ids[i]) == Some(items[i])
    {
      var id := ids[k];
      ItemLoads(s2, s3, s4, org, ids, id);
      items := items + [Listed(id, issues[id], Group(previous, id), Group(labels, id))];
    }
  }

  lemma ItemLoads(s2: Snapshot, s3: Snapshot, s4: Snapshot, org: Id, ids: seq<Id>, id: Id)
    requires id in ids && Exists(s2, org, id)
    ensures var row := s2.db.issues[id];
            Load(s2, s3, s4, org, id) == Some(Listed(id, row,
              Texts(Filter(OfIssue(id, row.identifier),
                           Sort(ByIssueThenTime, Filter(AliasesOf(org, ids), s3.aliases)))),
              Ids(Filter(LabelOfIssue(id), Sort(ByIssueThenLabel, Filter(LabelsOfAll(org, ids), s4.labels))))))
  {
    AliasGroup(s3.aliases, org, ids, id, s2.db.issues[id].identifier);
    LabelGroup(s4.labels, org, ids, id);
  }

  lemma SelectedDistinct(s: Snapshot, actor: Id, q: Scope, after: nat)
    requires Proper(s)
    ensures var r := Selected(s, actor, q, after);
            && (forall i, j :: 0 <= i < j < |r| ==> r[i].0 != r[j].0 && r[i].1 < r[j].1)
            && (forall x :: x in r <==> x in s.numbers && x.1 > after && Matches(s.db, actor, q, x.0))
  {
    var p := Selects(s.db, actor, q, after);
    var rows, r := Filter(p, s.numbers), Selected(s, actor, q, after);
    forall x ensures x in r <==> x in s.numbers && x.1 > after && Matches(s.db, actor, q, x.0) {
      SortMembers(ByNumber, rows, x);
      FilterMembers(p, s.numbers, x);
    }
    OrdersAreTotal();
    SortSorted(ByNumber, rows);
    FilterNoDup(p, s.numbers);
    SortNoDup(ByNumber, rows);
    forall i, j | 0 <= i < j < |r| ensures r[i].0 != r[j].0 && r[i].1 < r[j].1 {
      assert r[i] in r && r[j] in r && ByNumber(r[i], r[j]);
      var a :| 0 <= a < |s.numbers| && s.numbers[a] == r[i];
      var b :| 0 <= b < |s.numbers| && s.numbers[b] == r[j];
      assert a != b;
    }
  }

  // ---- Agreement with the single-issue operation

  /** On an unchanged store every listed item is what `get_issue` answers for it. */
  lemma PageAgreesWithGet(s: Snapshot, actor: Id, q: Query, k: nat)
    requires Activity.ValidPage(q.limit, q.after) && Proper(s) && k < |Page(s, actor, q)|
    ensures var id := Page(s, actor, q)[k].0;
            && Load(s, s, s, q.scope.org, id).Some?
            && GetIssue(s, actor, q.scope.org, id) == Ok(Load(s, s, s, q.scope.org, id).value)
  {
    SelectedDistinct(s, actor, q.scope, ParseCursor(q.after).value);
    var x := Page(s, actor, q)[k];
    assert x in Selected(s, actor, q.scope, ParseCursor(q.after).value);
    assert Matches(s.db, actor, q.scope, x.0);
  }

  /**
   In a reachable database an issue is visible exactly when every private Team of its Project
   has the actor as an active member; its own Team is one of them.
   */
  lemma VisibleExactly(db: Db, issue: Id, actor: Id)
    requires issue in db.issues && IssueOk(db.projects, db.states, db.issues[issue])
    requires ProjectOk(db.teams, db.statuses, db.projects[db.issues[issue].project])
    ensures IssueVisible(db, issue, actor) <==>
            forall t :: t in db.projects[db.issues[issue].project].teams && db.teams[t].private ==>
              (t, actor) in db.members && db.members[(t, actor)].active
  {
    var row := db.issues[issue];
    assert row.team in db.projects[row.project].teams && row.team in db.teams;
  }

  // ---- What an item carries

  lemma {:induction false} TextsAt(rows: seq<AliasRow>)
    ensures |Texts(rows)| == |rows| && forall k :: 0 <= k < |rows| ==> Texts(rows)[k] == rows[k].identifier
  {
    if rows != [] {
      TextsAt(rows[1..]);
    }
  }

  lemma {:induction false} IdsAt(rows: seq<LabelRow>)
    ensures |Ids(rows)| == |rows| && forall k :: 0 <= k < |rows| ==> Ids(rows)[k] == rows[k].labelId
  {
    if rows != [] {
      IdsAt(rows[1..]);
    }
  }

  /** No later than the other, and by text where both are of one time. */
  predicate Before(at: int, text: string, at': int, text': string) {
    at < at' || (at == at' && StrLe(text, text'))
  }

  /** An alias row of the issue says so, at this time. */
  predicate NamedAt(s: Snapshot, org: Id, issue: Id, text: string, at: int) {
    AliasRow(org, text, issue, at) in s.aliases
  }

  lemma PreviousRows(s: Snapshot, org: Id, issue: Id, current: string) returns (rows: seq<AliasRow>)
    ensures PreviousOf(s, org, issue, current) == Texts(rows) && |Texts(rows)| == |rows|
    ensures forall k :: 0 <= k < |rows| ==> Texts(rows)[k] == rows[k].identifier
    ensures forall a :: a in rows <==> a in s.aliases && a.org == org && a.issue == issue && a.identifier != current
    ensures forall j, k :: 0 <= j < k < |rows| ==>
              Before(rows[j].at, rows[j].identifier, rows[k].at, rows[k].identifier)
  {
    var own := Filter(OthersOf(org, issue, current), s.aliases);
    rows := Sort(ByTime, own);
    OrdersAreTotal();
    SortSorted(ByTime, own);
    TextsAt(rows);
    forall a ensures a in rows <==> a in s.aliases && a.org == org && a.issue == issue && a.identifier != current {
      SortMembers(ByTime, own, a);
      FilterMembers(OthersOf(org, issue, current), s.aliases, a);
    }
    forall j, k | 0 <= j < k < |rows|
      ensures Before(rows[j].at, rows[j].identifier, rows[k].at, rows[k].identifier)
    {
      assert ByTime(rows[j], rows[k]);
    }
  }

  /** The texts that alias rows give this very issue, without the one it shows. */
  lemma PreviousListed(s: Snapshot, org: Id, issue: Id, current: string, text: string)
    ensures text in PreviousOf(s, org, issue, current) <==>
            text != current && exists at :: NamedAt(s, org, issue, text, at)
  {
    var rows := PreviousRows(s, org, issue, current);
    hide PreviousOf, Texts;
    if text in PreviousOf(s, org, issue, current) {
      var k :| 0 <= k < |rows| && Texts(rows)[k] == text;
      assert rows[k] in rows && rows[k] == AliasRow(org, text, issue, rows[k].at);
      assert NamedAt(s, org, issue, text, rows[k].at);
    }
    if text != current && exists at :: NamedAt(s, org, issue, text, at) {
      var at :| NamedAt(s, org, issue, text, at);
      var k :| 0 <= k < |rows| && rows[k] == AliasRow(org, text, issue, at);
      assert Texts(rows)[k] == text;
    }
  }

  /** They come oldest first. */
  lemma PreviousInOrder(s: Snapshot, org: Id, issue: Id, current: string, j: nat, k: nat)
    requires j < k < |PreviousOf(s, org, issue, current)|
    ensures var listed := PreviousOf(s, org, issue, current);
            exists m, n :: NamedAt(s, org, issue, listed[j], m) && NamedAt(s, org, issue, listed[k], n)
                           && Before(m, listed[j], n, listed[k])
  {
    var rows := PreviousRows(s, org, issue, current);
    hide PreviousOf, Texts;
    assert rows[j] in rows && rows[k] in rows;
    assert rows[j] == AliasRow(org, rows[j].identifier, issue, rows[j].at);
    assert rows[k] == AliasRow(org, rows[k].identifier, issue, rows[k].at);
    assert NamedAt(s, org, issue, rows[j].identifier, rows[j].at);
    assert NamedAt(s, org, issue, rows[k].identifier, rows[k].at);
  }

  /** The labels of an issue: those of its own rows, by id. */
  lemma LabelsListed(s: Snapshot, org: Id, issue: Id)
    ensures var listed := LabelIds(s, org, issue);
            && (forall id :: id in listed <==> LabelRow(org, issue, id) in s.labels)
            && forall j, k :: 0 <= j < k < |listed| ==> StrLe(listed[j], listed[k])
  {
    var own := Filter(LabelsOf(org, issue), s.labels);
    var rows := Sort(ByLabel, own);
    OrdersAreTotal();
    SortSorted(ByLabel, own);
    IdsAt(rows);
    forall l ensures l in rows <==> l in s.labels && l.org == org && l.issue == issue {
      SortMembers(ByLabel, own, l);
      FilterMembers(LabelsOf(org, issue), s.labels, l);
    }
    hide Ids, Sort, Filter;
    var listed := LabelIds(s, org, issue);
    forall id ensures id in listed <==> LabelRow(org, issue, id) in s.labels {
      if id in listed {
        var k :| 0 <= k < |listed| && listed[k] == id;
        assert rows[k] in rows && rows[k] == LabelRow(org, issue, id);
      }
      if LabelRow(org, issue, id) in s.labels {
        var k :| 0 <= k < |rows| && rows[k] == LabelRow(org, issue, id);
        assert listed[k] == id;
      }
    }
  }

  // ---- Which issues are listed

  /** The issue has a row number. */
  ghost predicate HasNumber(s: Snapshot, id: Id) {
    exists r :: r in s.numbers && r.0 == id
  }

  /** The first issue has the smaller row number. */
  ghost predicate Earlier(s: Snapshot, a: Id, b: Id) {
    exists m, n :: (a, m) in s.numbers && (b, n) in s.numbers && m < n
  }

  lemma LoadIs(s: Snapshot, org: Id, id: Id)
    ensures Load(s, s, s, org, id).Some? <==> id in s.db.issues && s.db.issues[id].org == org
    ensures Load(s, s, s, org, id).Some? ==>
              Load(s, s, s, org, id).value.id == id && Load(s, s, s, org, id).value.row == s.db.issues[id]
  {
  }

  /** `get_issue` by id: no such issue, shut out by a private Team, or the issue itself. */
  lemma GetExactly(s: Snapshot, actor: Id, org: Id, id: Id)
    requires id in s.db.issues && s.db.issues[id].org == org
    ensures GetIssue(s, actor, org, id)
         == if s.db.issues[id].team !in s.db.teams then Refuse(NotFound)
            else if !IssueVisible(s.db, id, actor) then Refuse(PrivateTeam)
            else Ok(Load(s, s, s, org, id).value)
  {
    LoadIs(s, org, id);
    hide Load, IssueVisible;
  }

  /** Another text finds an issue through a recorded identifier, or nothing. */
  lemma GetOther(s: Snapshot, actor: Id, org: Id, text: string)
    requires !(text in s.db.issues && s.db.issues[text].org == org)
    ensures GetIssue(s, actor, org, text).Ok? ==> GetIssue(s, actor, org, text).value.id != text
  {
    match Identifiers.Resolve(s.db, org, text)
    case None =>
    case Some(issue) =>
      LoadIs(s, org, issue);
      hide Load, IssueVisible;
  }

  /**
   The issue is answered to the actor under its own id, its row passes every filter that is
   given, and it is unarchived unless archived ones are asked for.
   */
  ghost predicate Wanted(s: Snapshot, actor: Id, scope: Scope, id: Id) {
    var got := GetIssue(s, actor, scope.org, id);
    && got.Ok? && got.value.id == id
    && (scope.project == None || scope.project == Some(got.value.row.project))
    && (scope.team == None || scope.team == Some(got.value.row.team))
    && (scope.state == None || scope.state == Some(got.value.row.state))
    && (scope.includeArchived == false ==> got.value.row.archived == false)
  }

  lemma WantedExactly(s: Snapshot, actor: Id, scope: Scope, id: Id)
    ensures Matches(s.db, actor, scope, id) <==> Wanted(s, actor, scope, id)
    ensures Wanted(s, actor, scope, id) ==>
              GetIssue(s, actor, scope.org, id).value == Load(s, s, s, scope.org, id).value
    ensures Matches(s.db, actor, scope, id) ==> Load(s, s, s, scope.org, id).Some?
  {
    LoadIs(s, scope.org, id);
    if id in s.db.issues && s.db.issues[id].org == scope.org {
      GetExactly(s, actor, scope.org, id);
    } else {
      GetOther(s, actor, scope.org, id);
    }
    hide Load, IssueVisible, GetIssue;
  }

  /** The listed items are, once each and by ascending row number, the wanted issues as `get_issue` answers them. */
  ghost predicate ListsWanted(s: Snapshot, actor: Id, scope: Scope, items: seq<Listed>) {
    && (forall id :: (exists k :: 0 <= k < |items| && items[k].id == id) <==>
          HasNumber(s, id) && Wanted(s, actor, scope, id))
    && (forall k :: 0 <= k < |items| ==> GetIssue(s, actor, scope.org, items[k].id) == Ok(items[k]))
    && (forall j, k :: 0 <= j < k < |items| ==> items[j].id != items[k].id && Earlier(s, items[j].id, items[k].id))
  }

  /** The loader applied to every selected row. */
  ghost predicate Loads(s: Snapshot, actor: Id, scope: Scope, items: seq<Listed>) {
    var all := Selected(s, actor, scope, 0);
    && |items| == |all|
    && forall k :: 0 <= k < |all| ==> Load(s, s, s, scope.org, all[k].0) == Some(items[k])
  }

  lemma ItemWanted(s: Snapshot, actor: Id, scope: Scope, items: seq<Listed>, k: nat)
    requires Proper(s) && Loads(s, actor, scope, items) && k < |items|
    ensures var row := Selected(s, actor, scope, 0)[k];
            && items[k].id == row.0 && row in s.numbers && Wanted(s, actor, scope, row.0)
            && GetIssue(s, actor, scope.org, row.0) == Ok(items[k])
  {
    var all := Selected(s, actor, scope, 0);
    SelectedDistinct(s, actor, scope, 0);
    hide Selected, Load, GetIssue, Matches, Wanted;
    assert all[k] in all;
    LoadIs(s, scope.org, all[k].0);
    WantedExactly(s, actor, scope, all[k].0);
    GotWanted(s, actor, scope, all[k].0);
  }

  lemma WantedIsListed(s: Snapshot, actor: Id, scope: Scope, items: seq<Listed>, id: Id)
    requires Proper(s) && Loads(s, actor, scope, items) && HasNumber(s, id) && Wanted(s, actor, scope, id)
    ensures exists k :: 0 <= k < |items| && items[k].id == id
  {
    var all := Selected(s, actor, scope, 0);
    SelectedDistinct(s, actor, scope, 0);
    WantedExactly(s, actor, scope, id);
    var r :| r in s.numbers && r.0 == id && 0 < r.1;
    hide Selected, Load, GetIssue, Matches, Wanted;
    assert r in all;
    var k :| 0 <= k < |all| && all[k] == r;
    ItemWanted(s, actor, scope, items, k);
  }

  lemma SelectedWanted(s: Snapshot, actor: Id, scope: Scope, items: seq<Listed>)
    requires Proper(s) && Loads(s, actor, scope, items)
    ensures ListsWanted(s, actor, scope, items)
  {
    var all := Selected(s, actor, scope, 0);
    SelectedDistinct(s, actor, scope, 0);
    hide Selected, Load, GetIssue, Wanted, Matches;
    forall k | 0 <= k < |items|
      ensures items[k].id == all[k].0 && all[k] in s.numbers && Wanted(s, actor, scope, items[k].id)
              && GetIssue(s, actor, scope.org, items[k].id) == Ok(items[k])
    {
      ItemWanted(s, actor, scope, items, k);
    }
    hide Loads;
    forall id | HasNumber(s, id) && Wanted(s, actor, scope, id)
      ensures exists k :: 0 <= k < |items| && items[k].id == id
    {
      WantedIsListed(s, actor, scope, items, id);
    }
    forall j, k | 0 <= j < k < |items|
      ensures items[j].id != items[k].id && Earlier(s, items[j].id, items[k].id)
    {
      assert (all[j].0, all[j].1) == all[j] && (all[k].0, all[k].1) == all[k];
    }
  }

  lemma GotWanted(s: Snapshot, actor: Id, scope: Scope, id: Id)
    requires Wanted(s, actor, scope, id)
    ensures GetIssue(s, actor, scope.org, id).Ok?
  {
  }

  // ---- Following the cursors

  /** What is selected past the n-th selected row is the rest. */
  lemma SelectedRest(s: Snapshot, actor: Id, q: Scope, after: nat, n: nat)
    requires Proper(s) && 0 < n <= |Selected(s, actor, q, after)|
    ensures var rows := Selected(s, actor, q, after);
            rows[n - 1].1 > after && Selected(s, actor, q, rows[n - 1].1) == rows[n..]
  {
    var rows := Selected(s, actor, q, after);
    var last := rows[n - 1].1;
    SelectedDistinct(s, actor, q, after);
    assert rows[n - 1] in rows;
    var all, past := Selects(s.db, actor, q, after), Selects(s.db, actor, q, last);
    FilterFilter(past, all, past, s.numbers);
    OrdersAreTotal();
    FilterSort(ByNumber, past, Filter(all, s.numbers));
    forall i | 0 <= i < |rows| ensures past(rows[i]) <==> i >= n {
      assert rows[i] in rows;
    }
    FilterSuffix(past, rows, n);
  }

  /** The cursor exists exactly when there is more, and continues exactly after the page. */
  lemma CursorContinues(s: Snapshot, actor: Id, q: Query)
    requires Proper(s) && Activity.ValidPage(q.limit, q.after)
    ensures var rows := Selected(s, actor, q.scope, ParseCursor(q.after).value);
            && (NextCursor(s, actor, q).Some? <==> |rows| > q.limit)
            && (NextCursor(s, actor, q).Some? ==>
                  var next := ParseCursor(NextCursor(s, actor, q));
                  next.Some? && Selected(s, actor, q.scope, next.value) == rows[q.limit..])
  {
    var after := ParseCursor(q.after).value;
    var rows := Selected(s, actor, q.scope, after);
    if |rows| > q.limit {
      SelectedDistinct(s, actor, q.scope, after);
      SelectedRest(s, actor, q.scope, after, q.limit);
      assert rows[q.limit - 1] in rows;
      RevisionRoundTrip(rows[q.limit - 1].1);
    }
  }

  lemma SelectedExist(s: Snapshot, actor: Id, q: Query)
    requires Proper(s) && Activity.ValidPage(q.limit, q.after)
    ensures !Disappeared(s, q.scope.org, Page(s, actor, q))
  {
    SelectedDistinct(s, actor, q.scope, ParseCursor(q.after).value);
    var rows := Selected(s, actor, q.scope, ParseCursor(q.after).value);
    forall k | 0 <= k < |Page(s, actor, q)| ensures Exists(s, q.scope.org, Page(s, actor, q)[k].0) {
      assert rows[k] in rows;
    }
  }

  /**
   Following the cursors over an unchanged store, with any limits, ends and visits every
   matching visible issue once, in row order.
   */
  method ReadAll(s: Snapshot, actor: Id, scope: Scope, limits: nat -> int) returns (items: seq<Listed>)
    requires Proper(s) && forall n :: 1 <= limits(n) <= 100
    ensures var all := Selected(s, actor, scope, 0);
            && |items| == |all|
            && forall k :: 0 <= k < |all| ==> Load(s, s, s, scope.org, all[k].0) == Some(items[k])
    ensures ListsWanted(s, actor, scope, items)
  {
    hide Selected, Load, ListsWanted;
    ghost var all := Selected(s, actor, scope, 0);
    items := [];
    var after: Option<string> := None;
    var pages := 0;
    var more := true;
    while more
      invariant ParseCursor(after).Some? && |items| <= |all|
      invariant forall k :: 0 <= k < |items| ==> Load(s, s, s, scope.org, all[k].0) == Some(items[k])
      invariant more ==> Selected(s, actor, scope, ParseCursor(after).value) == all[|items|..]
      invariant !more ==> |items| == |all|
      decreases more, |all| - |items|
    {
      var q := Query(scope, after, limits(pages));
      CursorContinues(s, actor, q);
      SelectedExist(s, actor, q);
      var result, _ := ListIssues(s, s, s, s, actor, q);
      ghost var page := Page(s, actor, q);
      assert forall k :: 0 <= k < |page| ==> page[k] == all[|items| + k];
      items := items + result.value.items;
      after := result.value.next;
      more := after.Some?;
      pages := pages + 1;
    }
    SelectedWanted(s, actor, scope, items);
  }
}
