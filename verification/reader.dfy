/** A reader of JSON text (RFC 8259), against which the text that is written is judged. */
module Reader {
  import opened Prelude
  import opened Json

  /** What was read, and the text after it. */
  type Read<T> = Option<(T, string)>

  predicate IsDigit(c: char) {
    '0' <= c <= '9'
  }

  // ---- Strings

  /** The rest of a string after its opening quote, through its closing one. */
  function ReadText(t: string): (r: Read<string>)
    ensures r.Some? ==> |r.value.1| < |t|
  {
    if t == "" then None
    else if t[0] == '"' then Some(("", t[1..]))
    else
      match ReadChar(t)
      case None => None
      case Some((c, n)) =>
        if n > |t| then None
        else
          match ReadText(t[n..])
          case None => None
          case Some((s, rest)) => Some(([c] + s, rest))
  }

  lemma {:induction false} TextReadsBack(s: string, rest: string)
    ensures ReadText(Escaped(s) + "\"" + rest) == Some((s, rest))
  {
    var t := Escaped(s) + "\"" + rest;
    if s == "" {
      assert t == "\"" + rest;
      assert t[1..] == rest;
    } else {
      var first := EscapeChar(s[0]);
      var tail := Escaped(s[1..]) + "\"" + rest;
      assert t == first + tail;
      ReadEscaped(s[0], tail);
      assert t[|first|..] == tail;
      TextReadsBack(s[1..], rest);
      assert s == [s[0]] + s[1..];
    }
  }

  // ---- Numbers

  /** The digits that the text starts with. */
  function DigitRun(t: string): (r: string)
    ensures |r| <= |t| && r == t[..|r|] && forall c :: c in r ==> IsDigit(c)
  {
    if t == "" || !IsDigit(t[0]) then "" else [t[0]] + DigitRun(t[1..])
  }

  predicate NoDigitFirst(t: string) {
    t == "" || !IsDigit(t[0])
  }

  lemma {:induction false} RunStops(d: string, rest: string)
    requires (forall c :: c in d ==> IsDigit(c)) && NoDigitFirst(rest)
    ensures DigitRun(d + rest) == d
  {
    if d == "" {
      assert d + rest == rest;
    } else {
      assert (d + rest)[1..] == d[1..] + rest;
      RunStops(d[1..], rest);
      assert d == [d[0]] + d[1..];
    }
  }

  function ReadFraction(t: string): (r: Read<Option<Digits>>)
    ensures r.Some? ==> |r.value.1| <= |t|
  {
    if t == "" || t[0] != '.' then Some((None, t))
    else
      var d := DigitRun(t[1..]);
      if d == "" then None else Some((Some(d), t[1 + |d|..]))
  }

  /** `e` or `E` and a sign, if there is one. */
  function Marker(t: string): string
    requires t != ""
  {
    if |t| > 1 && (t[1] == '+' || t[1] == '-') then t[..2] else t[..1]
  }

  function ReadExponent(t: string): (r: Read<Option<(string, Digits)>>)
    ensures r.Some? ==> |r.value.1| <= |t|
  {
    if t == "" || (t[0] != 'e' && t[0] != 'E') then Some((None, t))
    else
      var m := Marker(t);
      var d := DigitRun(t[|m|..]);
      if d == "" then None else Some((Some((m, d)), t[|m| + |d|..]))
  }

  function ReadNumber(t: string): (r: Read<Numeral>)
    ensures r.Some? ==> |r.value.1| < |t|
  {
    var negative := t != "" && t[0] == '-';
    var u := if negative then t[1..] else t;
    var whole := DigitRun(u);
    if whole == "" then None
    else
      match ReadFraction(u[|whole|..])
      case None => None
      case Some((fraction, v)) =>
        match ReadExponent(v)
        case None => None
        case Some((exponent, rest)) => Some((Numeral(negative, whole, fraction, exponent), rest))
  }

  /** Text that cannot continue a number. */
  predicate EndsNumber(t: string) {
    t == "" || t[0] == ',' || t[0] == ']' || t[0] == '}'
  }

  function FractionText(f: Option<Digits>): string {
    if f.Some? then "." + f.value else ""
  }

  function ExponentText(e: Option<(string, Digits)>): string {
    if e.Some? then e.value.0 + e.value.1 else ""
  }

  lemma FractionReadsBack(f: Option<Digits>, rest: string)
    requires NoDigitFirst(rest) && (rest == "" || rest[0] != '.')
    ensures ReadFraction(FractionText(f) + rest) == Some((f, rest))
  {
    var t := FractionText(f) + rest;
    if f.Some? {
      assert t[1..] == f.value + rest;
      RunStops(f.value, rest);
      assert t[1 + |f.value|..] == rest;
    } else {
      assert t == rest;
    }
  }

  lemma ExponentReadsBack(e: Option<(string, Digits)>, rest: string)
    requires EndsNumber(rest)
    requires e.Some? ==> e.value.0 in {"e", "E", "e+", "E+", "e-", "E-"}
    ensures ReadExponent(ExponentText(e) + rest) == Some((e, rest))
  {
    var t := ExponentText(e) + rest;
    if e.Some? {
      var (m, d) := e.value;
      assert t == m + (d + rest);
      assert IsDigit(d[0]) && t[|m|] == d[0];
      assert Marker(t) == m;
      assert t[|m|..] == d + rest;
      RunStops(d, rest);
      assert t[|m| + |d|..] == rest;
    } else {
      assert t == rest;
    }
  }

  lemma ExponentStarts(e: Option<(string, Digits)>, rest: string)
    requires EndsNumber(rest)
    requires e.Some? ==> e.value.0 in {"e", "E", "e+", "E+", "e-", "E-"}
    ensures var t := ExponentText(e) + rest;
            t == "" || (!IsDigit(t[0]) && t[0] != '.')
  {
    if e.Some? {
      assert (ExponentText(e) + rest)[0] == e.value.0[0];
    } else {
      assert ExponentText(e) + rest == rest;
    }
  }

  lemma UnsignedReadsBack(n: NumberToken, rest: string)
    requires EndsNumber(rest)
    ensures var u := n.whole + (FractionText(n.fraction) + (ExponentText(n.exponent) + rest));
            && DigitRun(u) == n.whole && IsDigit(u[0])
            && ReadFraction(u[|n.whole|..]) == Some((n.fraction, ExponentText(n.exponent) + rest))
            && ReadExponent(ExponentText(n.exponent) + rest) == Some((n.exponent, rest))
  {
    var e := ExponentText(n.exponent) + rest;
    var f := FractionText(n.fraction) + e;
    var u := n.whole + f;
    ExponentStarts(n.exponent, rest);
    ExponentReadsBack(n.exponent, rest);
    FractionReadsBack(n.fraction, e);
    assert NoDigitFirst(f) by {
      if n.fraction.Some? {
        assert f[0] == '.';
      } else {
        assert f == e;
      }
    }
    hide ReadFraction, ReadExponent, DigitRun;
    RunStops(n.whole, f);
    assert u[|n.whole|..] == f;
    assert n.whole[0] in n.whole && u[0] == n.whole[0];
  }

  lemma NumberReadsBack(n: NumberToken, rest: string)
    requires EndsNumber(rest)
    ensures ReadNumber(n.Text() + rest) == Some((n, rest))
    ensures var c := (n.Text() + rest)[0]; c == '-' || IsDigit(c)
  {
    var u := n.whole + (FractionText(n.fraction) + (ExponentText(n.exponent) + rest));
    UnsignedReadsBack(n, rest);
    NumberText(n, rest);
    hide ReadFraction, ReadExponent, DigitRun, FractionText, ExponentText;
    if n.negative {
      assert ("-" + u)[1..] == u;
    } else {
      assert "" + u == u;
    }
  }

  lemma NumberText(n: NumberToken, rest: string)
    ensures n.Text() + rest
         == (if n.negative then "-" else "")
            + (n.whole + (FractionText(n.fraction) + (ExponentText(n.exponent) + rest)))
  {
    var sign, f, e := if n.negative then "-" else "", FractionText(n.fraction), ExponentText(n.exponent);
    assert n.Text() == sign + n.whole + f + e;
    assert sign + n.whole + f + e + rest == sign + (n.whole + (f + (e + rest)));
  }

  // ---- Values

  /** The value that the text starts with. */
  function ReadValue(t: string): (r: Read<Value>)
    ensures r.Some? ==> |r.value.1| < |t|
    decreases |t|, 2
  {
    if |t| >= 4 && t[..4] == "null" then Some((Null, t[4..]))
    else if |t| >= 4 && t[..4] == "true" then Some((Bool(true), t[4..]))
    else if |t| >= 5 && t[..5] == "false" then Some((Bool(false), t[5..]))
    else if t == "" then None
    else if t[0] == '"' then
      match ReadText(t[1..])
      case None => None
      case Some((s, rest)) => Some((Str(s), rest))
    else if t[0] == '[' then
      if |t| > 1 && t[1] == ']' then Some((Arr([]), t[2..]))
      else
        match ReadElements(t[1..])
        case None => None
        case Some((items, rest)) => Some((Arr(items), rest))
    else if t[0] == '{' then
      if |t| > 1 && t[1] == '}' then Some((Obj([]), t[2..]))
      else
        match ReadMembers(t[1..])
        case None => None
        case Some((fields, rest)) => Some((Obj(fields), rest))
    else
      match ReadNumber(t)
      case None => None
      case Some((n, rest)) => if n.Valid() then Some((Number(n), rest)) else None
  }

  /** At least one value, separated by commas, and the closing bracket. */
  function ReadElements(t: string): (r: Read<seq<Value>>)
    ensures r.Some? ==> |r.value.1| < |t|
    decreases |t|, 3
  {
    match ReadValue(t)
    case None => None
    case Some((v, rest)) =>
      if rest == "" then None
      else if rest[0] == ']' then Some(([v], rest[1..]))
      else if rest[0] != ',' then None
      else
        match ReadElements(rest[1..])
        case None => None
        case Some((items, end)) => Some(([v] + items, end))
  }

  /** A member name, its colon and its value. */
  function ReadMember(t: string): (r: Read<Field>)
    ensures r.Some? ==> |r.value.1| < |t|
    decreases |t|, 3
  {
    if t == "" || t[0] != '"' then None
    else
      match ReadText(t[1..])
      case None => None
      case Some((key, rest)) =>
        if rest == "" || rest[0] != ':' then None
        else
          match ReadValue(rest[1..])
          case None => None
          case Some((v, end)) => Some((Field(key, v), end))
  }

  function ReadMembers(t: string): (r: Read<seq<Field>>)
    ensures r.Some? ==> |r.value.1| < |t|
    decreases |t|, 4
  {
    match ReadMember(t)
    case None => None
    case Some((f, rest)) =>
      if rest == "" then None
      else if rest[0] == '}' then Some(([f], rest[1..]))
      else if rest[0] != ',' then None
      else
        match ReadMembers(rest[1..])
        case None => None
        case Some((fields, end)) => Some(([f] + fields, end))
  }

  // ---- What is written is read back

  lemma {:induction false} ElementsFirst(items: seq<Value>)
    requires items != []
    ensures Elements(items)
         == Compact(items[0]) + if |items| == 1 then "" else "," + Elements(items[1..])
  {
    hide Compact;
    var last := |items| - 1;
    if last == 0 {
      assert items[..0] == [];
    } else {
      ElementsFirst(items[..last]);
      assert items[..last][1..] == items[1..][..last - 1];
      assert items[1..][last - 1] == items[last];
      if last > 1 {
        assert Elements(items)
            == Compact(items[0]) + ("," + Elements(items[1..][..last - 1]) + "," + Compact(items[last]));
      } else {
        assert items[1..][..0] == [];
      }
    }
  }

  function MemberText(f: Field): string {
    Quoted(f.key) + ":" + Compact(f.value)
  }

  lemma Regroup(a: string, b: string, c: string, d: string)
    ensures a + b + c + d == a + (b + c + d) && a + b + c + d == a + (b + (c + d))
  {
  }

  lemma RegroupFirst(all: string, first: string, others: string, close: string, rest: string)
    requires all == first + ("," + others)
    ensures all + close + rest == first + ("," + (others + close + rest))
  {
  }

  lemma RegroupOnly(all: string, first: string, close: string, rest: string)
    requires all == first + ""
    ensures all + close + rest == first + (close + rest)
  {
  }

  lemma RegroupBody(all: string, open: string, inner: string, close: string, rest: string)
    requires all == open + inner + close
    ensures all + rest == open + (inner + close + rest)
    ensures inner + close + rest == inner + (close + rest)
  {
  }

  lemma MembersLast(fields: seq<Field>)
    requires fields != []
    ensures var last := |fields| - 1;
            Members(fields) == Members(fields[..last]) + (if last == 0 then "" else ",") + MemberText(fields[last])
  {
    hide Compact, Quoted;
    var last := |fields| - 1;
    var before := Members(fields[..last]) + (if last == 0 then "" else ",");
    var f := fields[last];
    assert Members(fields) == before + Quoted(f.key) + ":" + Compact(f.value);
    Regroup(before, Quoted(f.key), ":", Compact(f.value));
  }

  lemma {:induction false} MembersFirst(fields: seq<Field>)
    requires fields != []
    ensures Members(fields) == MemberText(fields[0]) + if |fields| == 1 then "" else "," + Members(fields[1..])
  {
    var last := |fields| - 1;
    NoMembers();
    hide Members, MemberText;
    MembersLast(fields);
    if last == 0 {
      assert fields[..0] == [];
      assert "" + "" + MemberText(fields[0]) == MemberText(fields[0]) + "";
    } else {
      MembersFirst(fields[..last]);
      MembersLast(fields[1..]);
      assert fields[..last][1..] == fields[1..][..last - 1];
      assert fields[1..][last - 1] == fields[last];
      var first, middle, end := MemberText(fields[0]), Members(fields[1..][..last - 1]), MemberText(fields[last]);
      if last > 1 {
        Regroup(first, "," + middle, ",", end);
        Regroup(",", middle, ",", end);
      } else {
        assert fields[1..][..0] == [];
        assert first + "" + "," + end == first + ("," + ("" + "" + end));
      }
    }
  }

  lemma NoMembers()
    ensures Members([]) == ""
  {
  }

  /** A value starts with a character that no closing bracket is. */
  lemma ValueStarts(v: Value, rest: string)
    ensures Compact(v) != "" && (Compact(v) + rest)[0] == Compact(v)[0]
    ensures Compact(v)[0] != ']' && Compact(v)[0] != '}'
  {
    if v.Number? {
      NumberReadsBack(v.n, "");
      assert v.n.Text() + "" == v.n.Text();
    }
  }

  lemma PlainReadsBack(v: Value, rest: string)
    requires v.Null? || v.Bool?
    ensures ReadValue(Compact(v) + rest) == Some((v, rest))
  {
    var t := Compact(v) + rest;
    if v.Null? {
      assert t[..4] == "null" && t[4..] == rest;
    } else if v.b {
      assert t[..4] == "true" && t[4..] == rest;
      assert "true"[0] != "null"[0];
    } else {
      assert t[..5] == "false" && t[5..] == rest;
      assert t[..4][0] == 'f' && "true"[0] == 't' && "null"[0] == 'n';
    }
  }

  /** What is not a word is told by its first character. */
  lemma NoWord(t: string)
    requires t != "" && t[0] != 'n' && t[0] != 't' && t[0] != 'f'
    ensures |t| >= 4 ==> t[..4] != "null" && t[..4] != "true"
    ensures |t| >= 5 ==> t[..5] != "false"
  {
    if |t| >= 4 {
      assert t[..4][0] == t[0];
    }
    if |t| >= 5 {
      assert t[..5][0] == t[0];
    }
  }

  lemma StringReadsBack(s: string, rest: string)
    ensures ReadValue(Quoted(s) + rest) == Some((Str(s), rest))
    ensures ReadText((Quoted(s) + rest)[1..]) == Some((s, rest))
  {
    hide Escaped, ReadText;
    var t := Quoted(s) + rest;
    assert t == "\"" + (Escaped(s) + "\"" + rest);
    assert t[1..] == Escaped(s) + "\"" + rest;
    TextReadsBack(s, rest);
    NoWord(t);
  }

  lemma NumberValueReadsBack(n: NumberToken, rest: string)
    requires EndsNumber(rest)
    ensures ReadValue(Compact(Number(n)) + rest) == Some((Number(n), rest))
  {
    NumberReadsBack(n, rest);
    hide ReadNumber;
    NoWord(n.Text() + rest);
  }

  /** Whatever is written is read back, and reading stops where writing did. */
  lemma {:induction false} ValueReadsBack(v: Value, rest: string)
    requires EndsNumber(rest)
    ensures ReadValue(Compact(v) + rest) == Some((v, rest))
    decreases v, 2
  {
    match v
    case Null => PlainReadsBack(v, rest);
    case Bool(_) => PlainReadsBack(v, rest);
    case Number(n) => NumberValueReadsBack(n, rest);
    case Str(s) => StringReadsBack(s, rest);
    case Arr(items) =>
      if items == [] {
        EmptyReadsBack(rest);
      } else {
        ElementsReadBack(items, rest);
        ArrayReadsBack(items, rest);
      }
    case Obj(fields) =>
      if fields == [] {
        EmptyReadsBack(rest);
      } else {
        MembersReadBack(fields, rest);
        ObjectReadsBack(fields, rest);
      }
  }

  lemma EmptyReadsBack(rest: string)
    ensures ReadValue(Compact(Arr([])) + rest) == Some((Arr([]), rest))
    ensures ReadValue(Compact(Obj([])) + rest) == Some((Obj([]), rest))
  {
    assert Compact(Arr([])) == "[]" && Compact(Obj([])) == "{}";
    NoWord("[]" + rest);
    NoWord("{}" + rest);
    assert ("[]" + rest)[2..] == rest && ("{}" + rest)[2..] == rest;
  }

  lemma ReadArray(body: string, items: seq<Value>, rest: string)
    requires body != "" && body[0] != ']' && ReadElements(body) == Some((items, rest))
    ensures ReadValue("[" + body) == Some((Arr(items), rest))
  {
    hide ReadElements, ReadMembers, ReadText, ReadNumber;
    var t := "[" + body;
    assert t[1..] == body && t[1] == body[0];
    NoWord(t);
  }

  lemma ReadObject(body: string, fields: seq<Field>, rest: string)
    requires body != "" && body[0] != '}' && ReadMembers(body) == Some((fields, rest))
    ensures ReadValue("{" + body) == Some((Obj(fields), rest))
  {
    hide ReadElements, ReadMembers, ReadText, ReadNumber;
    var t := "{" + body;
    assert t[1..] == body && t[1] == body[0];
    NoWord(t);
  }

  lemma ArrayReadsBack(items: seq<Value>, rest: string)
    requires items != [] && ReadElements(Elements(items) + "]" + rest) == Some((items, rest))
    ensures ReadValue(Compact(Arr(items)) + rest) == Some((Arr(items), rest))
  {
    ArrayText(items);
    ElementsStart(items, "]" + rest);
    hide Elements, Compact, ReadElements, ReadValue;
    RegroupBody(Compact(Arr(items)), "[", Elements(items), "]", rest);
    ReadArray(Elements(items) + "]" + rest, items, rest);
  }

  lemma ElementsStart(items: seq<Value>, rest: string)
    requires items != []
    ensures var t := Elements(items) + rest; t != "" && t[0] != ']'
  {
    ElementsFirst(items);
    ValueStarts(items[0], "");
    hide Elements, Compact;
    assert Elements(items)[0] == Compact(items[0])[0];
  }

  lemma ArrayText(items: seq<Value>)
    ensures Compact(Arr(items)) == "[" + Elements(items) + "]"
  {
  }

  lemma ObjectText(fields: seq<Field>)
    ensures Compact(Obj(fields)) == "{" + Members(fields) + "}"
  {
  }

  lemma ObjectReadsBack(fields: seq<Field>, rest: string)
    requires fields != [] && ReadMembers(Members(fields) + "}" + rest) == Some((fields, rest))
    ensures ReadValue(Compact(Obj(fields)) + rest) == Some((Obj(fields), rest))
  {
    ObjectText(fields);
    MembersStart(fields, "}" + rest);
    hide Members, Compact, ReadMembers, ReadValue;
    RegroupBody(Compact(Obj(fields)), "{", Members(fields), "}", rest);
    ReadObject(Members(fields) + "}" + rest, fields, rest);
  }

  lemma MembersStart(fields: seq<Field>, rest: string)
    requires fields != []
    ensures var t := Members(fields) + rest; t != "" && t[0] != '}'
  {
    MembersFirst(fields);
    MemberStarts(fields[0]);
    hide Members, MemberText;
    assert Members(fields)[0] == MemberText(fields[0])[0];
  }

  lemma MemberStarts(f: Field)
    ensures MemberText(f) != "" && MemberText(f)[0] == '"'
  {
  }

  lemma LastElement(t: string, v: Value, rest: string)
    requires ReadValue(t) == Some((v, "]" + rest))
    ensures ReadElements(t) == Some(([v], rest))
  {
    hide ReadValue;
    assert ("]" + rest)[1..] == rest;
  }

  lemma NextElement(t: string, v: Value, more: string, items: seq<Value>, rest: string)
    requires ReadValue(t) == Some((v, "," + more)) && ReadElements(more) == Some((items, rest))
    ensures ReadElements(t) == Some(([v] + items, rest))
  {
    hide ReadValue;
    assert ("," + more)[1..] == more;
  }

  lemma {:induction false} ElementsReadBack(items: seq<Value>, rest: string)
    requires items != []
    ensures ReadElements(Elements(items) + "]" + rest) == Some((items, rest))
    decreases items, 1
  {
    ElementsFirst(items);
    hide Elements, Compact, ReadValue, ReadElements;
    if |items| == 1 {
      ValueReadsBack(items[0], "]" + rest);
      RegroupOnly(Elements(items), Compact(items[0]), "]", rest);
      LastElement(Elements(items) + "]" + rest, items[0], rest);
      assert items == [items[0]];
    } else {
      var more := Elements(items[1..]) + "]" + rest;
      ValueReadsBack(items[0], "," + more);
      ElementsReadBack(items[1..], rest);
      RegroupFirst(Elements(items), Compact(items[0]), Elements(items[1..]), "]", rest);
      NextElement(Elements(items) + "]" + rest, items[0], more, items[1..], rest);
      assert items == [items[0]] + items[1..];
    }
  }

  lemma MemberReadsBack(f: Field, rest: string)
    requires ReadValue(Compact(f.value) + rest) == Some((f.value, rest))
    ensures ReadMember(MemberText(f) + rest) == Some((f, rest))
  {
    hide Quoted, Compact, ReadValue, ReadText;
    var tail := ":" + (Compact(f.value) + rest);
    assert MemberText(f) + rest == Quoted(f.key) + tail;
    StringReadsBack(f.key, tail);
    QuoteFirst(f.key, tail);
    assert tail[1..] == Compact(f.value) + rest;
  }

  lemma QuoteFirst(s: string, rest: string)
    ensures Quoted(s) + rest != "" && (Quoted(s) + rest)[0] == '"'
  {
  }

  lemma LastMember(t: string, f: Field, rest: string)
    requires ReadMember(t) == Some((f, "}" + rest))
    ensures ReadMembers(t) == Some(([f], rest))
  {
    hide ReadMember;
    assert ("}" + rest)[1..] == rest;
  }

  lemma NextMember(t: string, f: Field, more: string, fields: seq<Field>, rest: string)
    requires ReadMember(t) == Some((f, "," + more)) && ReadMembers(more) == Some((fields, rest))
    ensures ReadMembers(t) == Some(([f] + fields, rest))
  {
    hide ReadMember;
    assert ("," + more)[1..] == more;
  }

  lemma {:induction false} MembersReadBack(fields: seq<Field>, rest: string)
    requires fields != []
    ensures ReadMembers(Members(fields) + "}" + rest) == Some((fields, rest))
    decreases fields, 1
  {
    MembersFirst(fields);
    hide Members, MemberText, ReadMember, ReadMembers;
    if |fields| == 1 {
      ValueReadsBack(fields[0].value, "}" + rest);
      MemberReadsBack(fields[0], "}" + rest);
      RegroupOnly(Members(fields), MemberText(fields[0]), "}", rest);
      LastMember(Members(fields) + "}" + rest, fields[0], rest);
      assert fields == [fields[0]];
    } else {
      var more := Members(fields[1..]) + "}" + rest;
      ValueReadsBack(fields[0].value, "," + more);
      MemberReadsBack(fields[0], "," + more);
      MembersReadBack(fields[1..], rest);
      RegroupFirst(Members(fields), MemberText(fields[0]), Members(fields[1..]), "}", rest);
      NextMember(Members(fields) + "}" + rest, fields[0], more, fields[1..], rest);
      assert fields == [fields[0]] + fields[1..];
    }
  }

  /** `from_str`: a value and nothing after it. */
  function Parse(t: string): Option<Value> {
    match ReadValue(t)
    case None => None
    case Some((v, rest)) => if rest == "" then Some(v) else None
  }

  /** Every value is the only one that its text stands for. */
  lemma CompactRoundTrip(v: Value)
    ensures Parse(Compact(v)) == Some(v)
  {
    ValueReadsBack(v, "");
    assert Compact(v) + "" == Compact(v);
  }
}
