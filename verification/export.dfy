/** The streaming export: keyset pages of four sections through a byte-bounded writer. */
module Export {
  import opened Prelude
  import opened Text
  import opened Sorting
  import opened Json
  import Reader

  const PAGE_SIZE := 64

  /** A stored row as a statement returns it; `body` is absent when it is longer than the statement may read. */
  datatype Row =
    | CommentRow(number: nat, id: string, issue: string, body: Option<string>, deleted: bool, created: string,
                 updated: string)
    | UpdateRow(number: nat, id: string, project: string, body: Option<string>, health: string, created: string)
    | ActivityEntry(number: nat, projectId: Option<string>, issueId: Option<string>, operation: string, kind: string,
                    entity: string, revision: Option<nat>, occurred: string)
    | AssignedRow(id: string)

  datatype Cursor = Cursor(number: Option<nat>, id: Option<string>)

  const START := Cursor(None, None)

  /** The four sections in the order in which they are exported. */
  datatype Source = Source(comments: seq<Row>, updates: seq<Row>, activity: seq<Row>, assignments: seq<Row>)

  datatype ExportError = Exhausted | Failed

  function CursorOf(row: Row): Cursor {
    if row.AssignedRow? then Cursor(None, Some(row.id)) else Cursor(Some(row.number), None)
  }

  /** The range seek of the next page. */
  predicate Past(row: Row, after: Cursor) {
    if row.AssignedRow? then after.id.None? || (after.id.value != row.id && StrLe(after.id.value, row.id))
    else after.number.None? || after.number.value < row.number
  }

  /** Rows of one section by strictly ascending key, with their bodies. */
  predicate Stored(rows: seq<Row>) {
    && (forall i, j :: 0 <= i < j < |rows| ==>
          rows[i].AssignedRow? == rows[j].AssignedRow? && Past(rows[j], CursorOf(rows[i])))
    && (forall row :: row in rows && (row.CommentRow? || row.UpdateRow?) ==> row.body.Some?)
  }

  predicate StoredAll(s: Source) {
    Stored(s.comments) && Stored(s.updates) && Stored(s.activity) && Stored(s.assignments)
  }

  /** `CASE WHEN octet_length(body) <= limit THEN body END` */
  function Masked(row: Row, limit: nat): Row {
    if (row.CommentRow? || row.UpdateRow?) && row.body.Some? && Size(row.body.value) > limit then row.(body := None)
    else row
  }

  function MaskedAll(rows: seq<Row>, limit: nat): seq<Row> {
    seq(|rows|, i requires 0 <= i < |rows| => Masked(rows[i], limit))
  }

  function Beyond(after: Cursor): Row -> bool {
    (row: Row) => Past(row, after)
  }

  /** One statement: the rows past the cursor in key order, at most a page of them. */
  function FetchPage(rows: seq<Row>, after: Cursor, limit: nat): seq<Row> {
    MaskedAll(Limit(Filter(Beyond(after), rows), PAGE_SIZE), limit)
  }

  // ---- What is exported

  function Nullable(s: Option<string>): Value {
    if s.Some? then Str(s.value) else Null
  }

  /** The exported object; a row without its body has none. */
  function ValueOf(row: Row): Option<Value> {
    match row
    case CommentRow(_, id, issue, body, deleted, created, updated) =>
      if body.None? then None
      else Some(Obj([Field("comment_id", Str(id)), Field("issue_id", Str(issue)), Field("body", Str(body.value)),
                     Field("deleted", Bool(deleted)), Field("created_at", Str(created)),
                     Field("updated_at", Str(updated))]))
    case UpdateRow(_, id, project, body, health, created) =>
      if body.None? then None
      else Some(Obj([Field("update_id", Str(id)), Field("project_id", Str(project)), Field("body", Str(body.value)),
                     Field("health", Str(health)), Field("created_at", Str(created))]))
    case ActivityEntry(number, project, issue, operation, kind, entity, revision, occurred) =>
      Some(Obj([Field("activity_id", Str(Decimal(number))), Field("project_id", Nullable(project)),
                Field("issue_id", Nullable(issue)), Field("operation", Str(operation)), Field("entity_kind", Str(kind)),
                Field("entity_id", Str(entity)),
                Field("revision", if revision.Some? then Str(Decimal(revision.value)) else Null),
                Field("occurred_at", Str(occurred))]))
    case AssignedRow(id) => Some(Str(id))
  }

  function Values(rows: seq<Row>): seq<Value> {
    seq(|rows|, i requires 0 <= i < |rows| => if ValueOf(rows[i]).Some? then ValueOf(rows[i]).value else Null)
  }

  /** The whole export as one JSON value. */
  function Document(s: Source, org: string, subject: string): Value {
    Obj([Field("organization_id", Str(org)), Field("subject", Str(subject)),
         Field("comments", Arr(Values(s.comments))), Field("project_updates", Arr(Values(s.updates))),
         Field("activity", Arr(Values(s.activity))), Field("assigned_issue_ids", Arr(Values(s.assignments)))])
  }

  // ---- What a reader of the export finds

  /** Looking the key up in the object gives this value. */
  ghost predicate Has(v: Value, key: string, value: Value) {
    v.Obj? && Field(key, value) in v.fields && forall f :: f in v.fields && f.key == key ==> f.value == value
  }

  /** The keys of an object, in order. */
  ghost predicate KeysAre(v: Value, keys: seq<string>) {
    v.Obj? && |v.fields| == |keys| && forall i :: 0 <= i < |keys| ==> v.fields[i].key == keys[i]
  }

  /** An optional column is a string or null. */
  ghost predicate HasOptional(v: Value, key: string, column: Option<string>) {
    match column
    case Some(text) => Has(v, key, Str(text))
    case None => Has(v, key, Null)
  }

  /** The exported value tells the stored row, column by column. */
  ghost predicate Tells(v: Value, row: Row) {
    match row
    case CommentRow(_, id, issue, body, deleted, created, updated) =>
      && KeysAre(v, ["comment_id", "issue_id", "body", "deleted", "created_at", "updated_at"])
      && Has(v, "comment_id", Str(id)) && Has(v, "issue_id", Str(issue)) && HasOptional(v, "body", body)
      && Has(v, "deleted", Bool(deleted)) && Has(v, "created_at", Str(created)) && Has(v, "updated_at", Str(updated))
    case UpdateRow(_, id, project, body, health, created) =>
      && KeysAre(v, ["update_id", "project_id", "body", "health", "created_at"])
      && Has(v, "update_id", Str(id)) && Has(v, "project_id", Str(project)) && HasOptional(v, "body", body)
      && Has(v, "health", Str(health)) && Has(v, "created_at", Str(created))
    case ActivityEntry(number, project, issue, operation, kind, entity, revision, occurred) =>
      && KeysAre(v, ["activity_id", "project_id", "issue_id", "operation", "entity_kind", "entity_id", "revision",
                     "occurred_at"])
      && Has(v, "activity_id", Str(Decimal(number))) && HasOptional(v, "project_id", project)
      && HasOptional(v, "issue_id", issue) && Has(v, "operation", Str(operation)) && Has(v, "entity_kind", Str(kind))
      && Has(v, "entity_id", Str(entity))
      && HasOptional(v, "revision", if revision.Some? then Some(Decimal(revision.value)) else None)
      && Has(v, "occurred_at", Str(occurred))
    case AssignedRow(id) => v == Str(id)
  }

  predicate Whole(row: Row) {
    row.CommentRow? || row.UpdateRow? ==> row.body.Some?
  }

  /** Distinct keys make a member the only one of its key. */
  lemma MemberIs(v: Value, keys: seq<string>, k: nat)
    requires KeysAre(v, keys) && NoDup(keys) && k < |keys|
    ensures Has(v, keys[k], v.fields[k].value)
  {
    assert v.fields[k] in v.fields && v.fields[k] == Field(keys[k], v.fields[k].value);
  }

  lemma CommentTells(row: Row)
    requires row.CommentRow? && row.body.Some?
    ensures ValueOf(row).Some? && Tells(ValueOf(row).value, row)
  {
    var v, keys := ValueOf(row).value, ["comment_id", "issue_id", "body", "deleted", "created_at", "updated_at"];
    assert |"comment_id"| == 10 && |"issue_id"| == 8 && |"body"| == 4 && |"deleted"| == 7;
    assert "comment_id"[1] == 'o' && "created_at"[1] == 'r' && "updated_at"[1] == 'p';
    assert NoDup(keys);
    assert KeysAre(v, keys);
    hide Has, NoDup, KeysAre;
    MemberIs(v, keys, 0);
    MemberIs(v, keys, 1);
    MemberIs(v, keys, 2);
    MemberIs(v, keys, 3);
    MemberIs(v, keys, 4);
    MemberIs(v, keys, 5);
  }

  lemma UpdateTells(row: Row)
    requires row.UpdateRow? && row.body.Some?
    ensures ValueOf(row).Some? && Tells(ValueOf(row).value, row)
  {
    var v, keys := ValueOf(row).value, ["update_id", "project_id", "body", "health", "created_at"];
    assert |"update_id"| == 9 && |"project_id"| == 10 && |"body"| == 4 && |"health"| == 6 && |"created_at"| == 10;
    assert "project_id"[0] == 'p' && "created_at"[0] == 'c';
    assert NoDup(keys);
    assert KeysAre(v, keys);
    hide Has, NoDup, KeysAre;
    MemberIs(v, keys, 0);
    MemberIs(v, keys, 1);
    MemberIs(v, keys, 2);
    MemberIs(v, keys, 3);
    MemberIs(v, keys, 4);
  }

  const ACTIVITY_KEYS: seq<string> :=
    ["activity_id", "project_id", "issue_id", "operation", "entity_kind", "entity_id", "revision", "occurred_at"]

  lemma ActivityKeysDiffer()
    ensures NoDup(ACTIVITY_KEYS)
  {
    var keys := ACTIVITY_KEYS;
    assert |keys[0]| == 11 && |keys[1]| == 10 && |keys[2]| == 8 && |keys[3]| == 9;
    assert |keys[4]| == 11 && |keys[5]| == 9 && |keys[6]| == 8 && |keys[7]| == 11;
    assert keys[0][0] == 'a' && keys[4][0] == 'e' && keys[7][0] == 'o';
    assert keys[2][0] == 'i' && keys[6][0] == 'r' && keys[3][0] == 'o' && keys[5][0] == 'e';
  }

  lemma ActivityTells(row: Row)
    requires row.ActivityEntry?
    ensures ValueOf(row).Some? && Tells(ValueOf(row).value, row)
  {
    var v := ValueOf(row).value;
    ActivityKeysDiffer();
    assert KeysAre(v, ACTIVITY_KEYS);
    hide Has, NoDup, KeysAre;
    MemberIs(v, ACTIVITY_KEYS, 0);
    MemberIs(v, ACTIVITY_KEYS, 1);
    MemberIs(v, ACTIVITY_KEYS, 2);
    MemberIs(v, ACTIVITY_KEYS, 3);
    MemberIs(v, ACTIVITY_KEYS, 4);
    MemberIs(v, ACTIVITY_KEYS, 5);
    MemberIs(v, ACTIVITY_KEYS, 6);
    MemberIs(v, ACTIVITY_KEYS, 7);
  }

  /** Each row is told by the value at its place. */
  ghost predicate TellsRows(v: Value, rows: seq<Row>) {
    v.Arr? && |v.items| == |rows| && forall k :: 0 <= k < |rows| ==> Tells(v.items[k], rows[k])
  }

  lemma RowsTold(rows: seq<Row>)
    requires forall row :: row in rows ==> Whole(row)
    ensures TellsRows(Arr(Values(rows)), rows)
  {
    forall k | 0 <= k < |rows| ensures Tells(Values(rows)[k], rows[k]) {
      assert rows[k] in rows;
      match rows[k]
      case CommentRow(_, _, _, _, _, _, _) => CommentTells(rows[k]);
      case UpdateRow(_, _, _, _, _, _) => UpdateTells(rows[k]);
      case ActivityEntry(_, _, _, _, _, _, _, _) => ActivityTells(rows[k]);
      case AssignedRow(_) =>
    }
  }

  /** The document names the subject and tells every row of the four sections, in their order. */
  ghost predicate TellsAll(v: Value, s: Source, org: string, subject: string) {
    && KeysAre(v, ["organization_id", "subject", "comments", "project_updates", "activity", "assigned_issue_ids"])
    && v.fields[0].value == Str(org) && v.fields[1].value == Str(subject)
    && TellsRows(v.fields[2].value, s.comments) && TellsRows(v.fields[3].value, s.updates)
    && TellsRows(v.fields[4].value, s.activity) && TellsRows(v.fields[5].value, s.assignments)
  }

  /** Who parses the exported text finds every stored column under its documented key. */
  lemma ExportReadsBack(s: Source, org: string, subject: string)
    requires StoredAll(s)
    ensures var parsed := Reader.Parse(Compact(Document(s, org, subject)));
            parsed.Some? && TellsAll(parsed.value, s, org, subject)
  {
    Reader.CompactRoundTrip(Document(s, org, subject));
    hide Values, Tells, Compact;
    RowsTold(s.comments);
    RowsTold(s.updates);
    RowsTold(s.activity);
    RowsTold(s.assignments);
  }

  // ---- The text before each point of the stream

  function Header(org: string, subject: string): string {
    "{\"organization_id\":" + Quoted(org) + ",\"subject\":" + Quoted(subject)
  }

  function SectionStart(before: string, name: string): string {
    before + "," + Quoted(name) + ":["
  }

  function RowsText(before: string, name: string, rows: seq<Row>, k: nat): string
    requires k <= |rows|
  {
    SectionStart(before, name) + Elements(Values(rows)[..k])
  }

  /** The text in front of the k-th row's object. */
  function RowStart(before: string, name: string, rows: seq<Row>, k: nat): string
    requires k < |rows|
  {
    RowsText(before, name, rows, k) + if k > 0 then "," else ""
  }

  function SectionEnd(before: string, name: string, rows: seq<Row>): string {
    RowsText(before, name, rows, |rows|) + "]"
  }

  /** What is written when each page is fetched: after every 64 rows, also after an exact multiple. */
  function PageStarts(before: string, name: string, rows: seq<Row>): seq<string> {
    var pages := |rows| / PAGE_SIZE + 1;
    seq(pages, j requires 0 <= j < pages => RowsText(before, name, rows, PAGE_SIZE * j))
  }

  function RowStarts(before: string, name: string, rows: seq<Row>): seq<string> {
    seq(|rows|, k requires 0 <= k < |rows| => RowStart(before, name, rows, k))
  }

  /** How many of the texts fit. */
  function Fits(texts: seq<string>, max: nat): nat {
    if texts == [] then 0
    else Fits(texts[..|texts| - 1], max) + if Size(texts[|texts| - 1]) <= max then 1 else 0
  }

  predicate Growing(texts: seq<string>) {
    forall i, j :: 0 <= i < j < |texts| ==> Size(texts[i]) <= Size(texts[j])
  }

  lemma {:induction false} FitsExactly(texts: seq<string>, max: nat, n: nat)
    requires Growing(texts) && n <= |texts|
    requires n > 0 ==> Size(texts[n - 1]) <= max
    requires n < |texts| ==> Size(texts[n]) > max
    ensures Fits(texts, max) == n
  {
    hide Size;
    if texts != [] {
      var last := |texts| - 1;
      if n == |texts| {
        if last > 0 {
          assert Size(texts[last - 1]) <= Size(texts[last]);
        }
        FitsExactly(texts[..last], max, last);
      } else {
        assert n < last ==> Size(texts[n]) <= Size(texts[last]);
        FitsExactly(texts[..last], max, n);
      }
    }
  }

  lemma {:induction false} FitsAppend(a: seq<string>, b: seq<string>, max: nat)
    ensures Fits(a + b, max) == Fits(a, max) + Fits(b, max)
  {
    if b == [] {
      assert a + b == a;
    } else {
      assert (a + b)[..|a + b| - 1] == a + b[..|b| - 1];
      FitsAppend(a, b[..|b| - 1], max);
    }
  }

  /** The text through the k-th row is the text in front of it and the row. */
  lemma RowEnds(before: string, name: string, rows: seq<Row>, k: nat)
    requires k < |rows|
    ensures RowsText(before, name, rows, k + 1) == RowStart(before, name, rows, k) + Compact(Values(rows)[k])
  {
    hide Quoted, Compact;
    assert Values(rows)[..k + 1][..k] == Values(rows)[..k];
  }

  lemma RowsGrow(before: string, name: string, rows: seq<Row>, i: nat, j: nat)
    requires i <= j <= |rows|
    ensures Size(RowsText(before, name, rows, i)) <= Size(RowsText(before, name, rows, j))
  {
    hide Size, Quoted;
    ElementsGrow(Values(rows)[..j], i);
    assert Values(rows)[..j][..i] == Values(rows)[..i];
    SizeAppend(SectionStart(before, name), Elements(Values(rows)[..i]));
    SizeAppend(SectionStart(before, name), Elements(Values(rows)[..j]));
  }

  lemma StartsBetween(before: string, name: string, rows: seq<Row>, k: nat)
    requires k < |rows|
    ensures Size(RowsText(before, name, rows, k)) <= Size(RowStart(before, name, rows, k))
    ensures Size(RowStart(before, name, rows, k)) <= Size(RowsText(before, name, rows, k + 1))
  {
    hide Size, Quoted;
    SizeAppend(RowsText(before, name, rows, k), if k > 0 then "," else "");
    RowEnds(before, name, rows, k);
    SizeAppend(RowStart(before, name, rows, k), Compact(Values(rows)[k]));
  }

  lemma SectionBounds(before: string, name: string, rows: seq<Row>, k: nat)
    requires k <= |rows|
    ensures Size(before) <= Size(SectionStart(before, name)) <= Size(RowsText(before, name, rows, k))
    ensures Size(RowsText(before, name, rows, k)) <= Size(SectionEnd(before, name, rows))
    ensures RowsText(before, name, rows, 0) == SectionStart(before, name)
  {
    hide Size, Quoted;
    assert SectionStart(before, name) == before + ("," + Quoted(name) + ":[");
    SizeAppend(before, "," + Quoted(name) + ":[");
    SizeAppend(SectionStart(before, name), Elements(Values(rows)[..k]));
    RowsGrow(before, name, rows, k, |rows|);
    SizeAppend(RowsText(before, name, rows, |rows|), "]");
    assert Values(rows)[..0] == [];
  }

  lemma PagesGrow(before: string, name: string, rows: seq<Row>)
    ensures Growing(PageStarts(before, name, rows))
  {
    var texts := PageStarts(before, name, rows);
    forall i, j | 0 <= i < j < |texts| ensures Size(texts[i]) <= Size(texts[j]) {
      RowsGrow(before, name, rows, PAGE_SIZE * i, PAGE_SIZE * j);
    }
  }

  lemma StartsGrow(before: string, name: string, rows: seq<Row>)
    ensures Growing(RowStarts(before, name, rows))
  {
    var texts := RowStarts(before, name, rows);
    forall i, j | 0 <= i < j < |texts| ensures Size(texts[i]) <= Size(texts[j]) {
      StartsBetween(before, name, rows, i);
      RowsGrow(before, name, rows, i + 1, j);
      StartsBetween(before, name, rows, j);
    }
  }

  // ---- Pages

  function CursorAfter(rows: seq<Row>, k: nat): Cursor
    requires k <= |rows|
  {
    if k == 0 then START else CursorOf(rows[k - 1])
  }

  lemma NotPast(rows: seq<Row>, i: nat, k: nat)
    requires Stored(rows) && i < k <= |rows|
    ensures !Past(rows[i], CursorOf(rows[k - 1]))
  {
    if i < k - 1 && rows[i].AssignedRow? && StrLe(rows[k - 1].id, rows[i].id) {
      assert Past(rows[k - 1], CursorOf(rows[i]));
      StrLeAntisymmetric(rows[k - 1].id, rows[i].id);
    }
  }

  /** Seeking past the k-th row continues with the row after it. */
  lemma PageContinues(rows: seq<Row>, k: nat, limit: nat)
    requires Stored(rows) && k <= |rows|
    ensures var n := if |rows| - k <= PAGE_SIZE then |rows| - k else PAGE_SIZE;
            FetchPage(rows, CursorAfter(rows, k), limit) == MaskedAll(rows[k..k + n], limit)
  {
    var p := Beyond(CursorAfter(rows, k));
    forall i | 0 <= i < k ensures !p(rows[i]) {
      NotPast(rows, i, k);
    }
    FilterSuffix(p, rows, k);
    assert Limit(rows[k..], PAGE_SIZE) == rows[k..k + if |rows| - k <= PAGE_SIZE then |rows| - k else PAGE_SIZE];
  }

  // ---- A body that is too long for the statement is too long for the export

  lemma MemberSize(fields: seq<Field>, k: nat)
    requires k < |fields|
    ensures Size(Compact(Obj(fields))) >= Size(Compact(fields[k].value))
  {
    hide Size, Quoted;
    var opening := ObjectOpening(fields, k) + (if k > 0 then "," else "") + Quoted(fields[k].key) + ":";
    NextMember(fields, k);
    SizeAppend(opening, Compact(fields[k].value));
  }

  lemma QuotedSize(s: string)
    ensures Size(Quoted(s)) >= Size(s)
  {
    hide Size, Escaped;
    EscapedSize(s);
    SizeAppend("\"" + Escaped(s), "\"");
    SizeAppend("\"", Escaped(s));
  }

  lemma BodyIsMember(row: Row)
    requires (row.CommentRow? || row.UpdateRow?) && row.body.Some?
    ensures ValueOf(row).Some? && ValueOf(row).value.Obj? && |ValueOf(row).value.fields| > 2
    ensures ValueOf(row).value.fields[2].value == Str(row.body.value)
  {
  }

  lemma BodySize(row: Row)
    requires (row.CommentRow? || row.UpdateRow?) && row.body.Some?
    ensures Size(Compact(ValueOf(row).value)) >= Size(row.body.value)
  {
    hide Size, Quoted, ValueOf, Members;
    BodyIsMember(row);
    MemberSize(ValueOf(row).value.fields, 2);
    QuotedSize(row.body.value);
  }

  /** A row whose body was withheld would not have fitted behind what was written when its page was fetched. */
  lemma WithheldDoesNotFit(before: string, name: string, rows: seq<Row>, start: nat, k: nat, max: nat)
    requires Stored(rows) && start <= k < |rows|
    requires Size(RowsText(before, name, rows, start)) <= max
    requires ValueOf(Masked(rows[k], max - Size(RowsText(before, name, rows, start)))).None?
    ensures Size(RowsText(before, name, rows, k + 1)) > max
  {
    hide Size, Quoted;
    assert rows[k] in rows;
    BodySize(rows[k]);
    RowsGrow(before, name, rows, start, k);
    StartsBetween(before, name, rows, k);
    RowEnds(before, name, rows, k);
    SizeAppend(RowStart(before, name, rows, k), Compact(Values(rows)[k]));
  }

  // ---- The collector

  /** Decodes and writes one row; a withheld body is exhaustion. */
  method WriteRow(w: Writer, row: Row, ghost done: string) returns (ok: bool)
    requires w.Valid() && !w.exhausted && w.bytes == Utf8(done)
    modifies w
    ensures w.Valid()
    ensures ok ==> ValueOf(row).Some? && !w.exhausted && w.bytes == Utf8(done + Compact(ValueOf(row).value))
    ensures !ok ==> ValueOf(row).None? || Size(done + Compact(ValueOf(row).value)) > w.max
  {
    hide Utf8, Compact, ValueOf;
    var value := ValueOf(row);
    if value.None? {
      return false;
    }
    assert w.bytes == [] + Utf8(done);
    ok := w.Nested([], done, value.value);
    assert [] + Utf8(done + Compact(value.value)) == Utf8(done + Compact(value.value));
  }

  ghost predicate Reached(w: Writer, done: string)
    reads w
  {
    w.Valid() && !w.exhausted && w.bytes == Utf8(done)
  }

  method WriteText(w: Writer, ghost done: string, chunk: string) returns (ok: bool)
    requires Reached(w, done) && chunk != ""
    modifies w
    ensures w.Valid()
    ensures ok ==> Reached(w, done + chunk)
    ensures !ok ==> Size(done + chunk) > w.max
  {
    hide Utf8;
    assert w.bytes == [] + Utf8(done);
    ok := w.Step([], done, chunk);
    assert [] + Utf8(done + chunk) == Utf8(done + chunk);
  }

  lemma MaskedValue(rows: seq<Row>, k: nat, limit: nat)
    requires k < |rows| && ValueOf(Masked(rows[k], limit)).Some?
    ensures ValueOf(Masked(rows[k], limit)).value == Values(rows)[k]
  {
  }

  /**
   The rows of one page, each preceded by a comma unless it is the first of its section.
   `decoded` counts the rows handed to the row writer.
   */
  method WritePage(w: Writer, page: seq<Row>, first: bool, ghost before: string, ghost name: string,
                   ghost rows: seq<Row>,
                   ghost k: nat)
    returns (ok: bool, decoded: nat, after: Cursor)
    requires Stored(rows) && k + |page| <= |rows| && Reached(w, RowsText(before, name, rows, k))
    requires page == MaskedAll(rows[k..k + |page|], w.Remaining())
    requires first <==> k == 0
    modifies w
    ensures w.Valid() && decoded <= |page|
    ensures ok ==> decoded == |page| && Reached(w, RowsText(before, name, rows, k + |page|))
    ensures ok && page != [] ==> after == CursorAfter(rows, k + |page|)
    ensures !ok ==> Size(RowsText(before, name, rows, k + |page|)) > w.max
    ensures !ok && decoded > 0 ==> Size(RowStart(before, name, rows, k + decoded - 1)) <= w.max
    ensures !ok && k + decoded < |rows| ==> Size(RowStart(before, name, rows, k + decoded)) > w.max
  {
    hide Utf8, Elements, Quoted, ValueOf, Values, RowsText, Stored;
    ghost var limit := w.Remaining();
    assert limit == w.max - Size(RowsText(before, name, rows, k));
    ok, decoded, after := true, 0, START;
    for i := 0 to |page|
      invariant ok && decoded == i && Reached(w, RowsText(before, name, rows, k + i))
      invariant i > 0 ==> after == CursorAfter(rows, k + i)
    {
      assert page[i] == Masked(rows[k + i], limit);
      ghost var done := RowsText(before, name, rows, k + i);
      StartsBetween(before, name, rows, k + i);
      RowsGrow(before, name, rows, k + i + 1, k + |page|);
      if i > 0 {
        StartsBetween(before, name, rows, k + i - 1);
      }
      if !first || i > 0 {
        ok := WriteText(w, done, ",");
        if !ok {
          return;
        }
      } else {
        assert RowStart(before, name, rows, k + i) == done;
      }
      decoded := decoded + 1;
      ok := WriteRow(w, page[i], RowStart(before, name, rows, k + i));
      RowEnds(before, name, rows, k + i);
      if !ok {
        RowDoesNotFit(before, name, rows, k, k + i, w.max);
        return;
      }
      MaskedValue(rows, k + i, limit);
      after := CursorOf(page[i]);
    }
  }

  lemma RowDoesNotFit(before: string, name: string, rows: seq<Row>, start: nat, k: nat, max: nat)
    requires Stored(rows) && start <= k < |rows| && Size(RowsText(before, name, rows, start)) <= max
    requires var row := Masked(rows[k], max - Size(RowsText(before, name, rows, start)));
             ValueOf(row).None? || Size(RowStart(before, name, rows, k) + Compact(ValueOf(row).value)) > max
    ensures Size(RowsText(before, name, rows, k + 1)) > max
    ensures k + 1 < |rows| ==> Size(RowStart(before, name, rows, k + 1)) > max
  {
    hide Size, Quoted;
    var limit := max - Size(RowsText(before, name, rows, start));
    if ValueOf(Masked(rows[k], limit)).None? {
      WithheldDoesNotFit(before, name, rows, start, k, max);
    } else {
      MaskedValue(rows, k, limit);
      RowEnds(before, name, rows, k);
    }
    if k + 1 < |rows| {
      StartsBetween(before, name, rows, k + 1);
    }
  }

  /** One section: its name, its rows page by page until a page is not full, and the closing bracket. */
  method CollectSection(w: Writer, name: string, rows: seq<Row>, ghost before: string)
    returns (ok: bool, fetched: nat, decoded: nat)
    requires Stored(rows) && Reached(w, before)
    modifies w
    ensures w.Valid()
    ensures ok ==> Reached(w, SectionEnd(before, name, rows))
    ensures !ok ==> Size(SectionEnd(before, name, rows)) > w.max
    ensures fetched == Fits(PageStarts(before, name, rows), w.max)
    ensures decoded == Fits(RowStarts(before, name, rows), w.max)
  {
    hide Utf8, Elements, Quoted, Values, Stored, FetchPage;
    fetched, decoded := 0, 0;
    ok := SectionOpens(w, name, rows, before);
    if !ok {
      return;
    }
    var after, first, more := START, true, true;
    ghost var k: nat := 0;
    while more
      invariant k <= |rows| && Reached(w, RowsText(before, name, rows, k)) && decoded == k
      invariant more ==> k == PAGE_SIZE * fetched && after == CursorAfter(rows, k) && (first <==> k == 0)
      invariant !more ==> k == |rows| && fetched == |rows| / PAGE_SIZE + 1
      decreases more, |rows| - k
    {
      PageContinues(rows, k, w.Remaining());
      var page := FetchPage(rows, after, w.Remaining());
      fetched := fetched + 1;
      ghost var started := k;
      assert |page| == if |rows| - k <= PAGE_SIZE then |rows| - k else PAGE_SIZE;
      var n;
      ok, n, after := WritePage(w, page, first, before, name, rows, k);
      decoded := decoded + n;
      if !ok {
        StoppedInPage(before, name, rows, k, |page|, n, w.max);
        return;
      }
      k := k + |page|;
      first := first && page == [];
      more := |page| == PAGE_SIZE;
    }
    AllRead(before, name, rows, w.max);
    ok := WriteText(w, RowsText(before, name, rows, |rows|), "]");
  }

  method SectionOpens(w: Writer, name: string, ghost rows: seq<Row>, ghost before: string) returns (ok: bool)
    requires Reached(w, before)
    modifies w
    ensures w.Valid()
    ensures ok ==> Reached(w, RowsText(before, name, rows, 0))
    ensures !ok ==> Size(SectionEnd(before, name, rows)) > w.max
    ensures !ok ==> Fits(PageStarts(before, name, rows), w.max) == 0 && Fits(RowStarts(before, name, rows), w.max) == 0
  {
    hide Utf8, Elements, Quoted, Values;
    OpeningBounds(before, name, rows, w.max);
    ok := WriteText(w, before, ",");
    if ok {
      ok := WriteString(w, before + ",", name);
    }
    if ok {
      ok := WriteText(w, before + "," + Quoted(name), ":[");
    }
    SectionBounds(before, name, rows, 0);
  }

  method WriteString(w: Writer, ghost done: string, s: string) returns (ok: bool)
    requires Reached(w, done)
    modifies w
    ensures w.Valid()
    ensures ok ==> Reached(w, done + Quoted(s))
    ensures !ok ==> Size(done + Quoted(s)) > w.max
  {
    hide Utf8, Quoted;
    assert w.bytes == [] + Utf8(done);
    Utf8Append(done, Quoted(s));
    ok := w.String(s);
  }

  /** Nothing of a section is fetched or decoded when its opening does not fit. */
  lemma OpeningBounds(before: string, name: string, rows: seq<Row>, max: nat)
    ensures Size(before + ",") <= Size(SectionStart(before, name))
    ensures Size(before + "," + Quoted(name)) <= Size(SectionStart(before, name))
    ensures Size(SectionStart(before, name)) <= Size(SectionEnd(before, name, rows))
    ensures Size(SectionStart(before, name)) > max ==>
              Fits(PageStarts(before, name, rows), max) == 0 && Fits(RowStarts(before, name, rows), max) == 0
  {
    hide Size, Quoted;
    assert SectionStart(before, name) == before + "," + (Quoted(name) + ":[");
    SizeAppend(before + ",", Quoted(name) + ":[");
    SizeAppend(before + "," + Quoted(name), ":[");
    SectionBounds(before, name, rows, 0);
    if Size(SectionStart(before, name)) > max {
      PagesGrow(before, name, rows);
      FitsExactly(PageStarts(before, name, rows), max, 0);
      StartsGrow(before, name, rows);
      if rows != [] {
        StartsBetween(before, name, rows, 0);
      }
      FitsExactly(RowStarts(before, name, rows), max, 0);
    }
  }

  lemma StoppedInPage(before: string, name: string, rows: seq<Row>, k: nat, page: nat, n: nat, max: nat)
    requires k % PAGE_SIZE == 0 && k <= |rows| && page == if |rows| - k <= PAGE_SIZE then |rows| - k else PAGE_SIZE
    requires n <= page && Size(RowsText(before, name, rows, k)) <= max < Size(RowsText(before, name, rows, k + page))
    requires n > 0 ==> Size(RowStart(before, name, rows, k + n - 1)) <= max
    requires k + n < |rows| ==> Size(RowStart(before, name, rows, k + n)) > max
    ensures Fits(PageStarts(before, name, rows), max) == k / PAGE_SIZE + 1
    ensures Fits(RowStarts(before, name, rows), max) == k + n
    ensures Size(SectionEnd(before, name, rows)) > max
  {
    hide Size, Quoted, Elements;
    PagesGrow(before, name, rows);
    FitsExactly(PageStarts(before, name, rows), max, k / PAGE_SIZE + 1);
    StartsGrow(before, name, rows);
    if n == 0 && k > 0 {
      StartsBetween(before, name, rows, k - 1);
    }
    FitsExactly(RowStarts(before, name, rows), max, k + n);
    SectionBounds(before, name, rows, k + page);
  }

  lemma AllRead(before: string, name: string, rows: seq<Row>, max: nat)
    requires Size(RowsText(before, name, rows, |rows|)) <= max
    ensures Fits(PageStarts(before, name, rows), max) == |rows| / PAGE_SIZE + 1
    ensures Fits(RowStarts(before, name, rows), max) == |rows|
  {
    hide Size, Quoted, Elements;
    PagesGrow(before, name, rows);
    RowsGrow(before, name, rows, PAGE_SIZE * (|rows| / PAGE_SIZE), |rows|);
    FitsExactly(PageStarts(before, name, rows), max, |rows| / PAGE_SIZE + 1);
    StartsGrow(before, name, rows);
    if rows != [] {
      StartsBetween(before, name, rows, |rows| - 1);
    }
    FitsExactly(RowStarts(before, name, rows), max, |rows|);
  }

  // ---- The whole export

  datatype Section = Section(name: string, rows: seq<Row>)

  function Sections(s: Source): seq<Section> {
    [Section("comments", s.comments), Section("project_updates", s.updates), Section("activity", s.activity),
     Section("assigned_issue_ids", s.assignments)]
  }

  /** The text in front of section `i`. */
  function Before(head: string, sections: seq<Section>, i: nat): string
    requires i <= |sections|
  {
    if i == 0 then head else SectionEnd(Before(head, sections, i - 1), sections[i - 1].name, sections[i - 1].rows)
  }

  /** The texts in front of every page of the first `i` sections, and of every row. */
  function AllPageStarts(head: string, sections: seq<Section>, i: nat): seq<string>
    requires i <= |sections|
  {
    if i == 0 then []
    else AllPageStarts(head, sections, i - 1)
         + PageStarts(Before(head, sections, i - 1), sections[i - 1].name, sections[i - 1].rows)
  }

  function AllRowStarts(head: string, sections: seq<Section>, i: nat): seq<string>
    requires i <= |sections|
  {
    if i == 0 then []
    else AllRowStarts(head, sections, i - 1)
         + RowStarts(Before(head, sections, i - 1), sections[i - 1].name, sections[i - 1].rows)
  }

  lemma SectionAdds(head: string, sections: seq<Section>, i: nat, max: nat)
    requires i < |sections|
    ensures var before, section := Before(head, sections, i), sections[i];
            && Fits(AllPageStarts(head, sections, i + 1), max)
               == Fits(AllPageStarts(head, sections, i), max)
                   + Fits(PageStarts(before, section.name, section.rows), max)
            && Fits(AllRowStarts(head, sections, i + 1), max)
               == Fits(AllRowStarts(head, sections, i), max) + Fits(RowStarts(before, section.name, section.rows), max)
            && Size(before) <= Size(Before(head, sections, i + 1))
            && (Size(before) > max ==>
                  Fits(PageStarts(before, section.name, section.rows), max) == 0
                  && Fits(RowStarts(before, section.name, section.rows), max) == 0)
  {
    hide Size, Fits, PageStarts, RowStarts, SectionStart, SectionEnd, RowsText;
    var before, section := Before(head, sections, i), sections[i];
    FitsAppend(AllPageStarts(head, sections, i), PageStarts(before, section.name, section.rows), max);
    FitsAppend(AllRowStarts(head, sections, i), RowStarts(before, section.name, section.rows), max);
    SectionBounds(before, section.name, section.rows, |section.rows|);
    OpeningBounds(before, section.name, section.rows, max);
  }

  /** Once a section's opening does not fit, nothing later is fetched or decoded. */
  lemma {:induction false} NothingLater(head: string, sections: seq<Section>, i: nat, j: nat, max: nat)
    requires i <= j <= |sections| && Size(Before(head, sections, i)) > max
    ensures Size(Before(head, sections, j)) > max
    ensures Fits(AllPageStarts(head, sections, j), max) == Fits(AllPageStarts(head, sections, i), max)
    ensures Fits(AllRowStarts(head, sections, j), max) == Fits(AllRowStarts(head, sections, i), max)
    decreases j
  {
    hide Size, Fits, AllPageStarts, AllRowStarts, Before;
    if i < j {
      NothingLater(head, sections, i, j - 1, max);
      SectionAdds(head, sections, j - 1, max);
    }
  }

  predicate Names(sections: seq<Section>, fields: seq<Field>) {
    && |fields| == |sections| + 2
    && forall i :: 0 <= i < |sections| ==> fields[i + 2] == Field(sections[i].name, Arr(Values(sections[i].rows)))
  }

  lemma {:induction false} StreamIsDocument(org: string, subject: string, sections: seq<Section>, fields: seq<Field>,
                                            i: nat)
    requires Names(sections, fields)
    requires fields[0] == Field("organization_id", Str(org)) && fields[1] == Field("subject", Str(subject))
    requires i <= |sections|
    ensures Before(Header(org, subject), sections, i) == ObjectOpening(fields, i + 2)
  {
    hide Size, Quoted, Compact, SectionEnd, Header, ObjectOpening;
    if i == 0 {
      HeaderIsOpening(org, subject, fields);
    } else {
      StreamIsDocument(org, subject, sections, fields, i - 1);
      assert fields[i + 1] == Field(sections[i - 1].name, Arr(Values(sections[i - 1].rows)));
      NextMember(fields, i + 1);
      SectionText(ObjectOpening(fields, i + 1), sections[i - 1].name, sections[i - 1].rows);
    }
  }

  lemma FirstField(fields: seq<Field>, org: string)
    requires |fields| >= 2 && fields[0] == Field("organization_id", Str(org))
    ensures ObjectOpening(fields, 1) == "{\"organization_id\":" + Quoted(org)
  {
    hide Size, Quoted, ObjectOpening;
    PlainNames();
    ObjectFits(fields);
    NextMember(fields, 0);
    assert "{" + "\"organization_id\"" + ":" == "{\"organization_id\":";
  }

  lemma SecondField(fields: seq<Field>, subject: string)
    requires |fields| >= 2 && fields[1] == Field("subject", Str(subject))
    ensures ObjectOpening(fields, 2) == ObjectOpening(fields, 1) + (",\"subject\":" + Quoted(subject))
  {
    hide Size, Quoted, ObjectOpening;
    PlainNames();
    NextMember(fields, 1);
    assert "," + "\"subject\"" + ":" == ",\"subject\":";
  }

  lemma HeaderIsOpening(org: string, subject: string, fields: seq<Field>)
    requires |fields| >= 2
    requires fields[0] == Field("organization_id", Str(org)) && fields[1] == Field("subject", Str(subject))
    ensures Header(org, subject) == ObjectOpening(fields, 2)
  {
    hide Quoted, ObjectOpening;
    FirstField(fields, org);
    SecondField(fields, subject);
  }

  lemma SectionText(before: string, name: string, rows: seq<Row>)
    ensures SectionEnd(before, name, rows) == before + "," + Quoted(name) + ":" + Compact(Arr(Values(rows)))
  {
    hide Quoted, Elements;
    assert Values(rows)[..|rows|] == Values(rows);
  }

  lemma PlainNames()
    ensures Quoted("organization_id") == "\"organization_id\"" && Quoted("subject") == "\"subject\""
  {
    hide Escaped;
    var a, b := "organization_id", "subject";
    assert forall i :: 0 <= i < |a| ==> 'a' <= a[i] <= 'z' || a[i] == '_';
    assert forall i :: 0 <= i < |b| ==> 'a' <= b[i] <= 'z';
    EscapedPlain(a);
    EscapedPlain(b);
  }

  function Fields(s: Source, org: string, subject: string): seq<Field> {
    Document(s, org, subject).fields
  }

  /** The stream of the four sections and a brace is the document. */
  lemma WholeText(s: Source, org: string, subject: string)
    ensures Before(Header(org, subject), Sections(s), 4) + "}" == Compact(Document(s, org, subject))
    ensures Size(Before(Header(org, subject), Sections(s), 4)) <= Size(Compact(Document(s, org, subject)))
  {
    hide Size, Quoted, ObjectOpening, Before, Header, Values;
    StreamIsDocument(org, subject, Sections(s), Fields(s, org, subject), 4);
    ObjectFits(Fields(s, org, subject));
  }

  lemma HeaderFirst(s: Source, org: string, subject: string, max: nat)
    ensures var a := "{\"organization_id\":";
            Size(a) <= Size(a + Quoted(org)) <= Size(a + Quoted(org) + ",\"subject\":") <= Size(Header(org, subject))
  {
    hide Size, Quoted;
    var a := "{\"organization_id\":";
    SizeAppend(a, Quoted(org));
    SizeAppend(a + Quoted(org), ",\"subject\":");
    SizeAppend(a + Quoted(org) + ",\"subject\":", Quoted(subject));
  }

  method WriteHeader(w: Writer, org: string, subject: string) returns (ok: bool)
    requires Reached(w, "")
    modifies w
    ensures w.Valid()
    ensures ok ==> Reached(w, Header(org, subject))
    ensures !ok ==> Size(Header(org, subject)) > w.max
  {
    hide Utf8, Quoted, Size;
    HeaderFirst(Source([], [], [], []), org, subject, w.max);
    var a := "{\"organization_id\":";
    assert "" + a == a;
    ok := WriteText(w, "", a);
    if ok {
      ok := WriteString(w, a, org);
    }
    if ok {
      ok := WriteText(w, a + Quoted(org), ",\"subject\":");
    }
    if ok {
      ok := WriteString(w, a + Quoted(org) + ",\"subject\":", subject);
    }
  }

  /**
   The export succeeds exactly when the whole document fits, and then is that document. It
   fetches exactly the pages and decodes exactly the rows in front of which the text so far fits.
   */
  method CollectExport(s: Source, org: string, subject: string, max: nat)
    returns (result: Result<string, ExportError>, fetched: nat, decoded: nat)
    requires StoredAll(s)
    ensures result == if Size(Compact(Document(s, org, subject))) <= max then Ok(Compact(Document(s, org, subject)))
                      else Err(Exhausted)
    ensures result.Ok? ==>
              var parsed := Reader.Parse(result.value);
              parsed.Some? && TellsAll(parsed.value, s, org, subject)
    ensures fetched == Fits(AllPageStarts(Header(org, subject), Sections(s), 4), max)
    ensures decoded == Fits(AllRowStarts(Header(org, subject), Sections(s), 4), max)
  {
    hide Utf8, Size, Quoted, Header, Compact, Document, Fits, SectionEnd, PageStarts, RowStarts, Stored, Before;
    ExportReadsBack(s, org, subject);
    hide TellsAll, Reader.Parse;
    ghost var head := Header(org, subject);
    var sections := Sections(s);
    WholeText(s, org, subject);
    HeadStart(head, sections, max);
    fetched, decoded := 0, 0;
    var w := new Writer(max);
    assert Utf8("") == [] by { EmptyUtf8(); }
    var ok := WriteHeader(w, org, subject);
    if !ok {
      NothingLater(head, sections, 0, 4, max);
      return Err(Exhausted), 0, 0;
    }
    for i := 0 to 4
      invariant fresh(w) && w.max == max && Reached(w, Before(head, sections, i))
      invariant fetched == Fits(AllPageStarts(head, sections, i), max)
      invariant decoded == Fits(AllRowStarts(head, sections, i), max)
    {
      var pages, rows;
      SectionAdds(head, sections, i, max);
      NextBefore(head, sections, i);
      ok, pages, rows := CollectSection(w, sections[i].name, sections[i].rows, Before(head, sections, i));
      fetched, decoded := fetched + pages, decoded + rows;
      if !ok {
        NothingLater(head, sections, i + 1, 4, max);
        return Err(Exhausted), fetched, decoded;
      }
    }
    ok := WriteText(w, Before(head, sections, 4), "}");
    if !ok {
      return Err(Exhausted), fetched, decoded;
    }
    Utf8RoundTrip(Compact(Document(s, org, subject)));
    SizeIs(Compact(Document(s, org, subject)));
    match FromUtf8(w.bytes) {
      case Some(payload) => result := Ok(payload);
      case None => result := Err(Failed);
    }
  }

  lemma EmptyUtf8()
    ensures Utf8("") == []
  {
  }

  lemma SizeIs(s: string)
    ensures Size(s) == |Utf8(s)|
  {
  }

  lemma HeadStart(head: string, sections: seq<Section>, max: nat)
    ensures Before(head, sections, 0) == head
    ensures Fits(AllPageStarts(head, sections, 0), max) == 0 && Fits(AllRowStarts(head, sections, 0), max) == 0
  {
  }

  lemma NextBefore(head: string, sections: seq<Section>, i: nat)
    requires i < |sections|
    ensures Before(head, sections, i + 1) == SectionEnd(Before(head, sections, i), sections[i].name, sections[i].rows)
  {
  }

  /** How many statements a section of `n` rows takes: one more than its full pages. */
  function Fetches(sections: seq<Section>, i: nat): nat
    requires i <= |sections|
  {
    if i == 0 then 0 else Fetches(sections, i - 1) + |sections[i - 1].rows| / 64 + 1
  }

  function RowCount(sections: seq<Section>, i: nat): nat
    requires i <= |sections|
  {
    if i == 0 then 0 else RowCount(sections, i - 1) + |sections[i - 1].rows|
  }

  /** A complete export decodes every row once and ends each section with a page that is not full. */
  lemma {:induction false} CompleteCounts(head: string, sections: seq<Section>, i: nat, max: nat)
    requires i <= |sections| && Size(Before(head, sections, i)) <= max
    ensures Fits(AllPageStarts(head, sections, i), max) == Fetches(sections, i)
    ensures Fits(AllRowStarts(head, sections, i), max) == RowCount(sections, i)
  {
    hide Size, Fits, PageStarts, RowStarts, SectionStart, SectionEnd, RowsText, AllPageStarts, AllRowStarts, Before;
    HeadStart(head, sections, max);
    if i > 0 {
      var before, section := Before(head, sections, i - 1), sections[i - 1];
      SectionAdds(head, sections, i - 1, max);
      NextBefore(head, sections, i - 1);
      SectionBounds(before, section.name, section.rows, |section.rows|);
      CompleteCounts(head, sections, i - 1, max);
      AllRead(before, section.name, section.rows, max);
    }
  }
}
