/** The agent web endpoint: links added to tool results, and the size-bounded reply. */
module Web {
  import opened Prelude
  import opened Codec
  import Json

  // ---- Links

  const LINKED_TOOLS: seq<string> :=
    ["projects_get_issue", "projects_list_issues", "projects_create_issue", "projects_update_issue",
     "projects_move_issue"]

  /** The parser, the printer and the link builder of the libraries used; what is printed parses back. */
  datatype Library = Library(clean: string -> bool, parse: string -> Option<Tree>, pretty: Tree -> string,
                             url: (string, string, string) -> string)

  ghost predicate Faithful(lib: Library) {
    forall v :: lib.parse(lib.pretty(v)) == Some(v)
  }

  function TextAt(v: Tree, key: string): Option<string> {
    if v.Obj? && key in v.entries && v.entries[key].Str? then Some(v.entries[key].s) else None
  }

  predicate WellFormed(issue: Tree) {
    TextAt(issue, "issue_id").Some? && TextAt(issue, "organization_id").Some? && TextAt(issue, "title").Some?
  }

  function Link(lib: Library, origin: string, issue: Tree): Option<Tree> {
    if !WellFormed(issue) then None
    else
      var id := TextAt(issue, "issue_id").value;
      Some(Obj(map["title" := Str(TextAt(issue, "title").value),
                   "url" := Str(lib.url(origin, TextAt(issue, "organization_id").value, id)),
                   "issue_id" := Str(id)]))
  }

  /** One link per well-formed item, in item order. */
  function LinksOf(lib: Library, origin: string, items: seq<Tree>): seq<Tree> {
    if items == [] then []
    else
      var last := |items| - 1;
      var before := LinksOf(lib, origin, items[..last]);
      if WellFormed(items[last]) then before + [Link(lib, origin, items[last]).value] else before
  }

  /** The items that are linked: those of a list, or the body itself. */
  function Items(body: Tree): seq<Tree> {
    if body.Obj? && "items" in body.entries && body.entries["items"].Arr? then body.entries["items"].items else [body]
  }

  function Projected(lib: Library, origin: string, tool: string, content: string): string {
    if tool !in LINKED_TOOLS || !lib.clean(origin) || lib.parse(content).None? then content
    else
      var body := lib.parse(content).value;
      var links := LinksOf(lib, origin, Items(body));
      if links == [] || !body.Obj? then content
      else lib.pretty(Obj(body.entries["_links" := Arr(links)]))
  }

  class Response {
    var content: string

    constructor (content: string)
      ensures this.content == content
    {
      this.content := content;
    }

    /** `project_issue_links`: the object is changed in place and printed back into the response. */
    method ProjectIssueLinks(lib: Library, origin: string, tool: string)
      modifies this
      ensures content == Projected(lib, origin, tool, old(content))
    {
      if tool !in LINKED_TOOLS || !lib.clean(origin) {
        return;
      }
      var parsed := lib.parse(content);
      if parsed.None? {
        return;
      }
      var body := parsed.value;
      var items := Items(body);
      var links := [];
      for i := 0 to |items|
        invariant links == LinksOf(lib, origin, items[..i])
      {
        assert items[..i + 1][..i] == items[..i];
        var link := Link(lib, origin, items[i]);
        if link.Some? {
          links := links + [link.value];
        }
      }
      assert items[..|items|] == items;
      if links != [] && body.Obj? {
        var fields := body.entries;
        fields := fields["_links" := Arr(links)];
        content := lib.pretty(Obj(fields));
      }
    }
  }

  lemma {:induction false} LinksFollowItems(lib: Library, origin: string, items: seq<Tree>)
    ensures LinksOf(lib, origin, items) == [] <==> forall i :: 0 <= i < |items| ==> !WellFormed(items[i])
    ensures |LinksOf(lib, origin, items)| <= |items|
  {
    if items != [] {
      var last := |items| - 1;
      LinksFollowItems(lib, origin, items[..last]);
      assert forall i :: 0 <= i < last ==> items[..last][i] == items[i];
    }
  }

  /** Only `_links` is added or replaced; without a well-formed issue the content is untouched. */
  lemma OnlyLinksChange(lib: Library, origin: string, tool: string, content: string)
    requires Faithful(lib)
    ensures var after := Projected(lib, origin, tool, content);
            after != content ==>
              var body, changed := lib.parse(content), lib.parse(after);
              && body.Some? && changed.Some? && body.value.Obj? && changed.value.Obj?
              && (exists i :: 0 <= i < |Items(body.value)| && WellFormed(Items(body.value)[i]))
              && changed.value.entries.Keys == body.value.entries.Keys + {"_links"}
              && forall k :: k in body.value.entries && k != "_links" ==>
                   changed.value.entries[k] == body.value.entries[k]
  {
    if lib.parse(content).Some? {
      LinksFollowItems(lib, origin, Items(lib.parse(content).value));
    }
  }

  /** Projecting twice is projecting once. */
  lemma ProjectionIsIdempotent(lib: Library, origin: string, tool: string, content: string)
    requires Faithful(lib)
    ensures Projected(lib, origin, tool, Projected(lib, origin, tool, content)) == Projected(lib, origin, tool, content)
  {
    var after := Projected(lib, origin, tool, content);
    if tool in LINKED_TOOLS && lib.clean(origin) && lib.parse(content).Some? {
      var body := lib.parse(content).value;
      var links := LinksOf(lib, origin, Items(body));
      if links != [] && body.Obj? {
        var changed := Obj(body.entries["_links" := Arr(links)]);
        assert lib.parse(after) == Some(changed);
        if !("items" in body.entries && body.entries["items"].Arr?) {
          SameLink(lib, origin, body, changed);
        }
        assert changed.entries["_links" := Arr(links)] == changed.entries;
      }
    }
  }

  lemma SameLink(lib: Library, origin: string, body: Tree, changed: Tree)
    requires body.Obj? && changed.Obj?
    requires forall k :: k != "_links" ==>
               (k in body.entries <==> k in changed.entries)
               && (k in body.entries ==> body.entries[k] == changed.entries[k])
    ensures LinksOf(lib, origin, [changed]) == LinksOf(lib, origin, [body])
  {
    assert TextAt(body, "issue_id") == TextAt(changed, "issue_id");
    assert TextAt(body, "organization_id") == TextAt(changed, "organization_id");
    assert TextAt(body, "title") == TextAt(changed, "title");
    assert [changed][..0] == [body][..0] == [];
  }

  /** The number of well-formed items in front of item `k`. */
  function Rank(items: seq<Tree>, k: nat): nat
    requires k <= |items|
  {
    if k == 0 then 0 else Rank(items, k - 1) + if WellFormed(items[k - 1]) then 1 else 0
  }

  /** A link names the item: its title, its id, and the page that the origin has for it. */
  ghost predicate LinksTo(lib: Library, origin: string, link: Tree, item: Tree) {
    && item.Obj? && "issue_id" in item.entries && "organization_id" in item.entries && "title" in item.entries
    && item.entries["issue_id"].Str? && item.entries["organization_id"].Str?
    && link == Obj(map["issue_id" := item.entries["issue_id"],
                       "title" := item.entries["title"],
                       "url" := Str(lib.url(origin, item.entries["organization_id"].s, item.entries["issue_id"].s))])
  }

  lemma LinkIs(lib: Library, origin: string, item: Tree)
    requires WellFormed(item)
    ensures Link(lib, origin, item).Some? && LinksTo(lib, origin, Link(lib, origin, item).value, item)
  {
    assert "title" != "url" && "title" != "issue_id" && "url" != "issue_id" by {
      assert |"title"| == 5 && |"url"| == 3 && |"issue_id"| == 8;
    }
  }

  /** The links are those of the well-formed items, in their order. */
  lemma {:induction false} LinksInOrder(lib: Library, origin: string, items: seq<Tree>)
    ensures |LinksOf(lib, origin, items)| == Rank(items, |items|)
    ensures forall k :: 0 <= k < |items| && WellFormed(items[k]) ==>
              && Rank(items, k) < |LinksOf(lib, origin, items)|
              && LinksTo(lib, origin, LinksOf(lib, origin, items)[Rank(items, k)], items[k])
  {
    if items != [] {
      var last := |items| - 1;
      LinksInOrder(lib, origin, items[..last]);
      SameRanks(items, last, last);
      if WellFormed(items[last]) {
        LinkIs(lib, origin, items[last]);
      }
      forall k | 0 <= k < |items| && WellFormed(items[k])
        ensures Rank(items, k) < |LinksOf(lib, origin, items)|
        ensures LinksTo(lib, origin, LinksOf(lib, origin, items)[Rank(items, k)], items[k])
      {
        if k < last {
          SameRanks(items, last, k);
          assert items[..last][k] == items[k];
        }
      }
    }
  }

  lemma {:induction false} SameRanks(items: seq<Tree>, n: nat, k: nat)
    requires k <= n <= |items|
    ensures Rank(items[..n], k) == Rank(items, k)
  {
    if k > 0 {
      SameRanks(items, n, k - 1);
    }
  }

  /** The tools whose results carry issues. */
  predicate IssueTool(tool: string) {
    || tool == "projects_get_issue" || tool == "projects_list_issues" || tool == "projects_create_issue"
    || tool == "projects_update_issue" || tool == "projects_move_issue"
  }

  /** What is looked at: the list under `items`, or else the object itself. */
  lemma LinkedExactly(lib: Library, origin: string, tool: string, content: string)
    requires Faithful(lib)
    ensures var after, body := Projected(lib, origin, tool, content), lib.parse(content);
            if IssueTool(tool) && lib.clean(origin) && body.Some? && body.value.Obj? then
              var own := body.value.entries;
              var items := if "items" in own && own["items"].Arr? then own["items"].items else [body.value];
              if forall k :: 0 <= k < |items| ==> !WellFormed(items[k]) then after == content
              else
                var changed := lib.parse(after);
                && changed.Some? && changed.value.Obj?
                && changed.value.entries.Keys == own.Keys + {"_links"}
                && (forall key :: key in own && key != "_links" ==> changed.value.entries[key] == own[key])
                && changed.value.entries["_links"].Arr?
                && var links := changed.value.entries["_links"].items;
                   && |links| == Rank(items, |items|)
                   && (forall k :: 0 <= k < |items| && WellFormed(items[k]) ==>
                         Rank(items, k) < |links| && LinksTo(lib, origin, links[Rank(items, k)], items[k]))
            else after == content
  {
    hide LinksTo, Rank, WellFormed, LinksOf, IssueTool;
    LinkedTools(tool);
    if lib.parse(content).Some? {
      LinksInOrder(lib, origin, Items(lib.parse(content).value));
      LinksFollowItems(lib, origin, Items(lib.parse(content).value));
    }
  }

  lemma LinkedTools(tool: string)
    ensures tool in LINKED_TOOLS <==> IssueTool(tool)
  {
    if IssueTool(tool) {
      assert LINKED_TOOLS[0] == "projects_get_issue" && LINKED_TOOLS[1] == "projects_list_issues";
      assert LINKED_TOOLS[2] == "projects_create_issue" && LINKED_TOOLS[3] == "projects_update_issue";
      assert LINKED_TOOLS[4] == "projects_move_issue";
    }
  }

  /** An item is well formed when its id, its Organization and its title are strings. */
  lemma WellFormedExactly(item: Tree)
    ensures WellFormed(item) <==>
            item.Obj? && forall key :: key in {"issue_id", "organization_id", "title"} ==>
              key in item.entries && item.entries[key].Str?
  {
    assert TextAt(item, "issue_id").Some? <==> item.Obj? && "issue_id" in item.entries && item.entries["issue_id"].Str?;
  }

  // ---- Replies

  const MAX_RESPONSE := 2_097_152

  datatype Reply = Reply(status: int, body: string)

  function ErrorValue(code: string): Json.Value {
    Json.Obj([Json.Field("error", Json.Str(code))])
  }

  /** An answer that is too large is replaced by a short one; the recursion stops there. */
  function Replied(status: int, value: Json.Value): (r: Reply)
    ensures Json.Size(r.body) <= MAX_RESPONSE
    decreases Json.Size(Json.Compact(value)) > MAX_RESPONSE, 0
  {
    var body := Json.Compact(value);
    if Json.Size(body) > MAX_RESPONSE then
      ShortError();
      Problem(413, "response_too_large")
    else Reply(status, body)
  }

  function Problem(status: int, code: string): (r: Reply)
    ensures Json.Size(r.body) <= MAX_RESPONSE
    decreases Json.Size(Json.Compact(ErrorValue(code))) > MAX_RESPONSE, 1
  {
    Replied(status, ErrorValue(code))
  }

  lemma {:induction false} SizeBound(s: string)
    ensures Json.Size(s) <= 4 * |s|
  {
    if s != [] {
      SizeBound(s[1..]);
    }
  }

  lemma ShortText(key: string, text: string)
    requires forall i :: 0 <= i < |key| ==> 'a' <= key[i] <= 'z'
    requires forall i :: 0 <= i < |text| ==> 'a' <= text[i] <= 'z' || text[i] == '_'
    ensures Json.Compact(Json.Obj([Json.Field(key, Json.Str(text))])) == "{\"" + key + "\":\"" + text + "\"}"
  {
    hide Json.Escaped;
    Json.EscapedPlain(key);
    Json.EscapedPlain(text);
    var fields := [Json.Field(key, Json.Str(text))];
    assert Json.Members(fields[..0]) == "";
    assert Json.Members(fields) == Json.Quoted(key) + ":" + Json.Compact(Json.Str(text));
  }

  lemma ShortError()
    ensures Json.Size(Json.Compact(ErrorValue("response_too_large"))) <= MAX_RESPONSE
  {
    hide Json.Size, Json.Compact;
    var text := "response_too_large";
    assert forall i :: 0 <= i < |text| ==> 'a' <= text[i] <= 'z' || text[i] == '_';
    ShortText("error", text);
    SizeBound(Json.Compact(ErrorValue(text)));
  }

  lemma ShortBody()
    ensures Json.Compact(ErrorValue("response_too_large")) == "{\"error\":\"" + "response_too_large" + "\"}"
  {
    hide Json.Compact;
    var text := "response_too_large";
    assert forall i :: 0 <= i < |text| ==> 'a' <= text[i] <= 'z' || text[i] == '_';
    ShortText("error", text);
    assert "{\"" + "error" + "\":\"" == "{\"error\":\"";
  }

  /** A body that fits is sent as it is; any other is answered with the same short error, whatever its status. */
  lemma ReplyExactly(status: int, value: Json.Value)
    ensures Replied(status, value) ==
            if Json.Size(Json.Compact(value)) <= 2_097_152 then Reply(status, Json.Compact(value))
            else Reply(413, "{\"error\":\"" + "response_too_large" + "\"}")
  {
    hide Json.Size, Json.Compact;
    ShortError();
    ShortBody();
  }
}
