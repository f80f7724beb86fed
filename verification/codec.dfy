/** The wire form of domain errors and the adapters between nested and flat results. */
module Codec {
  import opened Prelude
  import opened Sorting
  import Json

  /** A JSON value after parsing: an object keeps one value per key and no order of its members. */
  datatype Tree =
    | Null | Truth(b: bool) | Number(n: Json.NumberToken) | Str(s: string) | Arr(items: seq<Tree>)
    | Obj(entries: map<string, Tree>)

  const CODES: seq<string> :=
    ["cycle_not_found", "forbidden", "idempotency_conflict", "identifier_conflict", "invalid_request",
     "label_not_found",
     "milestone_not_found", "not_found", "parent_not_found", "private_team", "project_status_not_found",
     "revision_conflict", "team_not_found", "unauthenticated", "workflow_state_not_found"]

  type Code = c: string | c in CODES witness "forbidden"

  datatype DomainError = Known(code: Code) | Unknown(text: string, payload: Option<Tree>, extra: map<string, Tree>)

  datatype Entry = Entry(key: string, value: Tree)

  /** A map under construction: a later entry replaces an earlier one of the same key. */
  function Collected(entries: seq<Entry>): map<string, Tree> {
    if entries == [] then map[]
    else
      var last := |entries| - 1;
      Collected(entries[..last])[entries[last].key := entries[last].value]
  }

  /** Neither of the keys that the wire form uses itself. */
  predicate Separate(e: DomainError) {
    e.Unknown? ==> "code" !in e.extra && "payload" !in e.extra
  }

  /** The entries as they are emitted, the rest of them in key order. */
  ghost function Entries(e: DomainError): seq<Entry>
    requires e.Unknown?
  {
    [Entry("code", Str(e.text))]
    + (if e.payload.Some? then [Entry("payload", e.payload.value)] else [])
    + Rest(e.extra, Ascending(e.extra.Keys))
  }

  function Rest(extra: map<string, Tree>, keys: seq<string>): seq<Entry>
    requires forall k :: k in keys ==> k in extra
  {
    seq(|keys|, i requires 0 <= i < |keys| => Entry(keys[i], extra[keys[i]]))
  }

  ghost function Encode(e: DomainError): Tree {
    match e
    case Known(code) => Str(code)
    case Unknown(_, _, _) => Obj(Collected(Entries(e)))
  }

  function Decode(wire: Tree): Result<DomainError, ()> {
    match wire
    case Str(code) => Ok(if code in CODES then Known(code) else Unknown(code, None, map[]))
    case Obj(fields) =>
      if "code" in fields && fields["code"].Str? then
        Ok(Unknown(fields["code"].s, if "payload" in fields then Some(fields["payload"]) else None,
                   fields - {"code", "payload"}))
      else Err(())
    case _ => Err(())
  }

  /** The serializer: the length it declares is the number of entries it emits. */
  method Serialize(e: DomainError) returns (wire: Tree, declared: nat, emitted: nat)
    ensures wire == Encode(e) && declared == emitted
    ensures e.Unknown? ==> emitted == |Entries(e)|
  {
    hide Ascending, Collected;
    if e.Known? {
      return Str(e.code), 0, 0;
    }
    declared := 1 + (if e.payload.Some? then 1 else 0) + |e.extra.Keys|;
    var entries := [Entry("code", Str(e.text))];
    if e.payload.Some? {
      entries := entries + [Entry("payload", e.payload.value)];
    }
    ghost var first := entries;
    var keys := OrderById(e.extra.Keys);
    for i := 0 to |keys|
      invariant entries == first + Rest(e.extra, keys[..i])
    {
      assert keys[i] in keys;
      entries := entries + [Entry(keys[i], e.extra[keys[i]])];
      assert Rest(e.extra, keys[..i + 1]) == Rest(e.extra, keys[..i]) + [Entry(keys[i], e.extra[keys[i]])];
    }
    assert keys[..|keys|] == keys;
    wire, emitted := Obj(Collected(entries)), |entries|;
  }

  /** The deserializer takes `code` and `payload` out of the object and keeps what is left. */
  method Deserialize(wire: Tree) returns (e: Result<DomainError, ()>)
    ensures e == Decode(wire)
  {
    match wire {
      case Str(code) =>
        e := Ok(if code in CODES then Known(code) else Unknown(code, None, map[]));
      case Obj(entries) =>
        var fields := entries;
        if !("code" in fields && fields["code"].Str?) {
          return Err(());
        }
        var code := fields["code"].s;
        fields := fields - {"code"};
        var payload := None;
        if "payload" in fields {
          payload := Some(fields["payload"]);
          fields := fields - {"payload"};
        }
        assert fields == entries - {"code", "payload"};
        e := Ok(Unknown(code, payload, fields));
      case _ =>
        e := Err(());
    }
  }

  lemma {:induction false} CollectedAppend(a: seq<Entry>, b: seq<Entry>)
    ensures Collected(a + b) == Collected(a) + Collected(b)
  {
    if b == [] {
      assert a + b == a;
    } else {
      var last := |b| - 1;
      assert (a + b)[..|a + b| - 1] == a + b[..last];
      CollectedAppend(a, b[..last]);
    }
  }

  lemma {:induction false} RestCollects(extra: map<string, Tree>, keys: seq<string>)
    requires forall k :: k in keys ==> k in extra
    ensures Collected(Rest(extra, keys)).Keys == set k | k in keys
    ensures forall k :: k in keys ==> Collected(Rest(extra, keys))[k] == extra[k]
  {
    if keys != [] {
      var last := |keys| - 1;
      RestCollects(extra, keys[..last]);
      assert Rest(extra, keys)[..last] == Rest(extra, keys[..last]);
      assert forall k :: k in keys <==> k in keys[..last] || k == keys[last];
    }
  }

  function Own(e: DomainError): map<string, Tree>
    requires e.Unknown?
  {
    map["code" := Str(e.text)] + (if e.payload.Some? then map["payload" := e.payload.value] else map[])
  }

  lemma OwnCollects(e: DomainError)
    requires e.Unknown?
    ensures Collected([Entry("code", Str(e.text))]
                      + (if e.payload.Some? then [Entry("payload", e.payload.value)] else []))
         == Own(e)
  {
    var code := [Entry("code", Str(e.text))];
    assert Collected(code) == Collected(code[..0])["code" := Str(e.text)] == map["code" := Str(e.text)];
    if e.payload.Some? {
      var both := code + [Entry("payload", e.payload.value)];
      assert both[..1] == code;
      assert Collected(both) == Collected(code)["payload" := e.payload.value];
    } else {
      assert code + [] == code;
    }
  }

  lemma RestIsExtra(extra: map<string, Tree>)
    ensures Collected(Rest(extra, Ascending(extra.Keys))) == extra
  {
    hide Collected, Ascending;
    RestCollects(extra, Ascending(extra.Keys));
  }

  /** The encoded object: the error's own keys, over which its extra entries win. */
  lemma EncodedObject(e: DomainError)
    requires e.Unknown?
    ensures Encode(e) == Obj(Own(e) + e.extra)
  {
    hide Collected, Ascending, Own, Rest;
    OwnCollects(e);
    RestIsExtra(e.extra);
    CollectedAppend([Entry("code", Str(e.text))]
                    + (if e.payload.Some? then [Entry("payload", e.payload.value)] else []),
                    Rest(e.extra, Ascending(e.extra.Keys)));
  }

  lemma OwnEntries(e: DomainError)
    requires e.Unknown? && Separate(e)
    ensures var all := Own(e) + e.extra;
            && all.Keys == {"code"} + (if e.payload.Some? then {"payload"} else {}) + e.extra.Keys
            && all["code"] == Str(e.text) && (e.payload.Some? ==> all["payload"] == e.payload.value)
            && (forall key :: key in e.extra ==> all[key] == e.extra[key])
  {
    assert |"code"| == 4 && |"payload"| == 7;
  }

  /** A known error is its bare code; any other is an object of its code, its payload if any, and its extra entries. */
  lemma EncodedExactly(e: DomainError)
    ensures e.Known? ==> Encode(e) == Str(e.code)
    ensures e.Unknown? && Separate(e) ==>
              && Encode(e).Obj?
              && var own := Encode(e).entries;
                 && own.Keys == {"code"} + (if e.payload.Some? then {"payload"} else {}) + e.extra.Keys
                 && own["code"] == Str(e.text) && (e.payload.Some? ==> own["payload"] == e.payload.value)
                 && (forall key :: key in e.extra ==> own[key] == e.extra[key])
  {
    if e.Unknown? && Separate(e) {
      EncodedObject(e);
      OwnEntries(e);
      hide Encode, Own, Separate;
    }
  }

  /** The errors of the contract; a client takes any other code as one it does not know. */
  predicate Contracted(code: string) {
    || code == "cycle_not_found" || code == "forbidden" || code == "idempotency_conflict"
    || code == "identifier_conflict" || code == "invalid_request" || code == "label_not_found"
    || code == "milestone_not_found" || code == "not_found" || code == "parent_not_found" || code == "private_team"
    || code == "project_status_not_found" || code == "revision_conflict" || code == "team_not_found"
    || code == "unauthenticated" || code == "workflow_state_not_found"
  }

  lemma CodesAreContracted(code: string)
    ensures code in CODES <==> Contracted(code)
  {
    if Contracted(code) {
      assert CODES[0] == "cycle_not_found" && CODES[1] == "forbidden" && CODES[2] == "idempotency_conflict";
      assert CODES[3] == "identifier_conflict" && CODES[4] == "invalid_request" && CODES[5] == "label_not_found";
      assert CODES[6] == "milestone_not_found" && CODES[7] == "not_found" && CODES[8] == "parent_not_found";
      assert CODES[9] == "private_team" && CODES[10] == "project_status_not_found";
      assert CODES[11] == "revision_conflict" && CODES[12] == "team_not_found" && CODES[13] == "unauthenticated";
      assert CODES[14] == "workflow_state_not_found";
    }
  }

  /** What a bare string and an object with a code are taken for. */
  lemma DecodedExactly(wire: Tree)
    ensures Decode(wire).Ok? <==>
            wire.Str? || (wire.Obj? && "code" in wire.entries && wire.entries["code"].Str?)
    ensures wire.Str? && Contracted(wire.s) ==> Decode(wire).value.Known? && Decode(wire).value.code == wire.s
    ensures wire.Str? && !Contracted(wire.s) ==> Decode(wire) == Ok(Unknown(wire.s, None, map[]))
    ensures wire.Obj? && Decode(wire).Ok? ==>
              var e := Decode(wire).value;
              && e.Unknown? && wire.entries["code"] == Str(e.text)
              && (if "payload" in wire.entries then e.payload == Some(wire.entries["payload"]) else e.payload == None)
              && (forall key :: key in e.extra <==> key in wire.entries && key != "code" && key != "payload")
              && (forall key :: key in e.extra ==> e.extra[key] == wire.entries[key])
  {
    if wire.Str? {
      CodesAreContracted(wire.s);
    }
  }

  lemma SeparateComesBack(e: DomainError)
    requires e.Unknown? && Separate(e)
    ensures Decode(Obj(Own(e) + e.extra)) == Ok(e)
  {
    assert (Own(e) + e.extra) - {"code", "payload"} == e.extra;
  }

  lemma OthersDoNot(e: DomainError)
    requires e.Unknown? && !Separate(e)
    ensures Decode(Obj(Own(e) + e.extra)) != Ok(e)
  {
    var fields := Own(e) + e.extra;
    assert "code" !in fields - {"code", "payload"} && "payload" !in fields - {"code", "payload"};
  }

  /** Decoding undoes encoding exactly for the errors whose extra entries are separate. */
  lemma RoundTripExactly(e: DomainError)
    ensures Decode(Encode(e)) == Ok(e) <==> Separate(e)
  {
    hide Collected;
    if e.Unknown? {
      EncodedObject(e);
      if Separate(e) {
        SeparateComesBack(e);
      } else {
        OthersDoNot(e);
      }
    }
  }

  /** Whatever was decoded survives another trip. */
  lemma DecodedIsStable(wire: Tree)
    ensures Decode(wire).Ok? ==> Separate(Decode(wire).value) && Decode(Encode(Decode(wire).value)) == Decode(wire)
  {
    if Decode(wire).Ok? {
      RoundTripExactly(Decode(wire).value);
    }
  }
}
