/** JSON text as serde_json writes it (section 7 of RFC 8259) and its UTF-8 bytes. */
module Json {
  import opened Prelude

  type Byte = b: int | 0 <= b < 256

  // ---- UTF-8

  function Utf8Char(c: char): (r: seq<Byte>)
    ensures 1 <= |r| <= 4
  {
    var n := c as int;
    if n < 0x80 then [n]
    else if n < 0x800 then [0xC0 + n / 64, 0x80 + n % 64]
    else if n < 0x1_0000 then [0xE0 + n / 4096, 0x80 + n / 64 % 64, 0x80 + n % 64]
    else [0xF0 + n / 262144, 0x80 + n / 4096 % 64, 0x80 + n / 64 % 64, 0x80 + n % 64]
  }

  function Utf8(s: string): seq<Byte> {
    if s == [] then [] else Utf8Char(s[0]) + Utf8(s[1..])
  }

  predicate Continuation(b: Byte) {
    0x80 <= b < 0xC0
  }

  predicate Scalar(n: int) {
    0 <= n < 0xD800 || 0xE000 <= n < 0x11_0000
  }

  /** The first character and its length, if the bytes start with the shortest form of a scalar value. */
  function DecodeFirst(b: seq<Byte>): Option<(char, nat)>
    requires b != []
  {
    if b[0] < 0x80 then Some((b[0] as char, 1))
    else if 0xC0 <= b[0] < 0xE0 && |b| > 1 && Continuation(b[1]) then
      var n := 64 * (b[0] as int - 0xC0) + (b[1] as int - 0x80);
      if n >= 0x80 then Some((n as char, 2)) else None
    else if 0xE0 <= b[0] < 0xF0 && |b| > 2 && Continuation(b[1]) && Continuation(b[2]) then
      var n := 4096 * (b[0] as int - 0xE0) + 64 * (b[1] as int - 0x80) + (b[2] as int - 0x80);
      if n >= 0x800 && Scalar(n) then Some((n as char, 3)) else None
    else if 0xF0 <= b[0] < 0xF8 && |b| > 3 && Continuation(b[1]) && Continuation(b[2]) && Continuation(b[3]) then
      var n := 262144 * (b[0] as int - 0xF0) + 4096 * (b[1] as int - 0x80) + 64 * (b[2] as int - 0x80)
          + (b[3] as int - 0x80);
      if n >= 0x1_0000 && Scalar(n) then Some((n as char, 4)) else None
    else None
  }

  /** `String::from_utf8` */
  function FromUtf8(b: seq<Byte>): Option<string> {
    if b == [] then Some("")
    else
      match DecodeFirst(b)
      case None => None
      case Some((c, n)) =>
        if n > |b| then None
        else
          match FromUtf8(b[n..])
          case None => None
          case Some(rest) => Some([c] + rest)
  }

  lemma SixBitGroups(n: nat)
    ensures n == 64 * (n / 64) + n % 64
    ensures n == 4096 * (n / 4096) + 64 * (n / 64 % 64) + n % 64
    ensures n == 262144 * (n / 262144) + 4096 * (n / 4096 % 64) + 64 * (n / 64 % 64) + n % 64
  {
    assert n / 64 / 64 == n / 4096;
    assert n / 4096 / 64 == n / 262144;
  }

  lemma FirstOfEncoded(c: char, rest: seq<Byte>)
    ensures DecodeFirst(Utf8Char(c) + rest) == Some((c, |Utf8Char(c)|))
  {
    var n, b := c as int, Utf8Char(c) + rest;
    SixBitGroups(n);
    if n < 0x80 {
      assert b[0] == n;
    } else if n < 0x800 {
      assert b[0] == 0xC0 + n / 64 && b[1] == 0x80 + n % 64;
    } else if n < 0x1_0000 {
      assert b[0] == 0xE0 + n / 4096 && b[1] == 0x80 + n / 64 % 64 && b[2] == 0x80 + n % 64;
    } else {
      assert b[0] == 0xF0 + n / 262144 && b[1] == 0x80 + n / 4096 % 64 && b[2] == 0x80 + n / 64 % 64
             && b[3] == 0x80 + n % 64;
    }
  }

  lemma {:induction false} Utf8RoundTrip(s: string)
    ensures FromUtf8(Utf8(s)) == Some(s)
  {
    if s != [] {
      var first, rest := Utf8Char(s[0]), Utf8(s[1..]);
      FirstOfEncoded(s[0], rest);
      assert (first + rest)[|first|..] == rest;
      Utf8RoundTrip(s[1..]);
      assert s == [s[0]] + s[1..];
    }
  }

  lemma {:induction false} Utf8Append(a: string, b: string)
    ensures Utf8(a + b) == Utf8(a) + Utf8(b)
  {
    if a == [] {
      assert a + b == b;
    } else {
      assert (a + b)[1..] == a[1..] + b;
      Utf8Append(a[1..], b);
    }
  }

  /** Length in bytes. */
  function Size(s: string): nat {
    |Utf8(s)|
  }

  lemma SizeAppend(a: string, b: string)
    ensures Size(a + b) == Size(a) + Size(b)
  {
    Utf8Append(a, b);
  }

  // ---- Values and their compact text

  /** At least one digit. */
  type Digits = t: string | t != "" && forall c :: c in t ==> '0' <= c <= '9'
    witness "0"

  /** A number token of section 6 of RFC 8259; what it stands for plays no part here. */
  datatype Numeral = Numeral(negative: bool, whole: Digits, fraction: Option<Digits>,
                             exponent: Option<(string, Digits)>) {
    predicate Valid() {
      && (|whole| > 1 ==> whole[0] != '0')
      && (exponent.Some? ==> exponent.value.0 in {"e", "E", "e+", "E+", "e-", "E-"})
    }

    function Text(): (r: string)
      ensures r != ""
    {
      (if negative then "-" else "") + whole
      + (if fraction.Some? then "." + fraction.value else "")
      + (if exponent.Some? then exponent.value.0 + exponent.value.1 else "")
    }
  }

  type NumberToken = n: Numeral | n.Valid()
    witness Numeral(false, "0", None, None)

  /** What a serializer writes out: the members of an object in the order in which it visits them. */
  datatype Value =
    | Null | Bool(b: bool) | Number(n: NumberToken) | Str(s: string) | Arr(items: seq<Value>) | Obj(fields: seq<Field>)

  datatype Field = Field(key: string, value: Value)

  function HexDigit(n: nat): char
    requires n < 16
  {
    "0123456789abcdef"[n]
  }

  /** The escape sequence of a character that needs one. */
  function Escape(c: char): Option<string> {
    if c == '"' then Some("\\\"")
    else if c == '\\' then Some("\\\\")
    else if c as int == 0x08 then Some("\\b")
    else if c as int == 0x09 then Some("\\t")
    else if c as int == 0x0A then Some("\\n")
    else if c as int == 0x0C then Some("\\f")
    else if c as int == 0x0D then Some("\\r")
    else if c as int < 0x20 then Some("\\u00" + [HexDigit(c as int / 16), HexDigit(c as int % 16)])
    else None
  }

  function EscapeChar(c: char): string {
    if Escape(c).Some? then Escape(c).value else [c]
  }

  function Escaped(s: string): string {
    if s == [] then "" else EscapeChar(s[0]) + Escaped(s[1..])
  }

  function Quoted(s: string): string {
    "\"" + Escaped(s) + "\""
  }

  function Compact(v: Value): string
    decreases v
  {
    match v
    case Null => "null"
    case Bool(b) => if b then "true" else "false"
    case Number(n) => n.Text()
    case Str(s) => Quoted(s)
    case Arr(items) => "[" + Elements(items) + "]"
    case Obj(fields) => "{" + Members(fields) + "}"
  }

  function Elements(items: seq<Value>): string
    decreases items
  {
    if items == [] then ""
    else
      var last := |items| - 1;
      Elements(items[..last]) + (if last == 0 then "" else ",") + Compact(items[last])
  }

  function Members(fields: seq<Field>): string
    decreases fields
  {
    if fields == [] then ""
    else
      var last := |fields| - 1;
      Members(fields[..last]) + (if last == 0 then "" else ",") + Quoted(fields[last].key) + ":"
          + Compact(fields[last].value)
  }

  lemma {:induction false} EscapedAppend(a: string, b: string)
    ensures Escaped(a + b) == Escaped(a) + Escaped(b)
  {
    if a == [] {
      assert a + b == b;
    } else {
      assert (a + b)[1..] == a[1..] + b;
      EscapedAppend(a[1..], b);
    }
  }

  lemma {:induction false} EscapedPlain(s: string)
    requires forall c :: c in s ==> Escape(c).None?
    ensures Escaped(s) == s
  {
    if s != [] {
      EscapedPlain(s[1..]);
      assert s == [s[0]] + s[1..];
    }
  }

  /** Escaping never makes a string shorter. */
  lemma {:induction false} EscapedSize(s: string)
    ensures Size(Escaped(s)) >= Size(s)
  {
    if s != [] {
      EscapedSize(s[1..]);
      SizeAppend(EscapeChar(s[0]), Escaped(s[1..]));
      if Escape(s[0]).Some? {
        AsciiSize(EscapeChar(s[0]));
      } else {
        assert Utf8([s[0]]) == Utf8Char(s[0]) + Utf8([s[0]][1..]) == Utf8Char(s[0]);
      }
    }
  }

  lemma {:induction false} AsciiSize(s: string)
    ensures Size(s) >= |s|
  {
    if s != [] {
      AsciiSize(s[1..]);
    }
  }

  // ---- Nothing is lost: the text of a string can be read back

  predicate IsHex(c: char) {
    '0' <= c <= '9' || 'a' <= c <= 'f'
  }

  function HexValue(c: char): nat
    requires IsHex(c)
  {
    if c <= '9' then c as int - '0' as int else c as int - 'a' as int + 10
  }

  /** The character that an escape sequence without `u` stands for. */
  function ShortEscape(c: char): Option<char> {
    if c == '"' || c == '\\' || c == '/' then Some(c)
    else if c == 'b' then Some(8 as char)
    else if c == 't' then Some(9 as char)
    else if c == 'n' then Some(10 as char)
    else if c == 'f' then Some(12 as char)
    else if c == 'r' then Some(13 as char)
    else None
  }

  /** The first character that the inside of a JSON string stands for, and how many characters spell it. */
  function ReadChar(t: string): Option<(char, nat)>
    requires t != ""
  {
    if t[0] == '"' || t[0] as int < 0x20 then None
    else if t[0] != '\\' then Some((t[0], 1))
    else if |t| < 2 then None
    else if t[1] == 'u' then
      if |t| < 6 || !(IsHex(t[2]) && IsHex(t[3]) && IsHex(t[4]) && IsHex(t[5])) then None
      else
        var n := 4096 * HexValue(t[2]) + 256 * HexValue(t[3]) + 16 * HexValue(t[4]) + HexValue(t[5]);
        if Scalar(n) then Some((n as char, 6)) else None
    else if ShortEscape(t[1]).Some? then Some((ShortEscape(t[1]).value, 2))
    else None
  }

  function Unescape(t: string): Option<string> {
    if t == "" then Some("")
    else
      match ReadChar(t)
      case None => None
      case Some((c, n)) =>
        if n > |t| then None
        else
          match Unescape(t[n..])
          case None => None
          case Some(rest) => Some([c] + rest)
  }

  lemma HexDigits(n: nat)
    requires n < 16
    ensures IsHex(HexDigit(n)) && HexValue(HexDigit(n)) == n
  {
  }

  lemma ReadEscaped(c: char, rest: string)
    ensures ReadChar(EscapeChar(c) + rest) == Some((c, |EscapeChar(c)|))
  {
    var t := EscapeChar(c) + rest;
    if Escape(c).Some? && t[1] == 'u' {
      HexDigits(c as int / 16);
      HexDigits(c as int % 16);
      assert t[2] == '0' && t[3] == '0' && t[4] == HexDigit(c as int / 16) && t[5] == HexDigit(c as int % 16);
    }
  }

  lemma {:induction false} UnescapeRoundTrip(s: string)
    ensures Unescape(Escaped(s)) == Some(s)
  {
    if s != [] {
      var first, rest := EscapeChar(s[0]), Escaped(s[1..]);
      ReadEscaped(s[0], rest);
      assert (first + rest)[|first|..] == rest;
      UnescapeRoundTrip(s[1..]);
      assert s == [s[0]] + s[1..];
    }
  }

  /** Which characters are escaped, and how: two of them and five controls shortly, the other controls by number. */
  lemma EscapeTable(c: char)
    ensures EscapeChar('"') == "\\\"" && EscapeChar('\\') == "\\\\"
    ensures EscapeChar(8 as char) == "\\b" && EscapeChar(9 as char) == "\\t" && EscapeChar(10 as char) == "\\n"
    ensures EscapeChar(12 as char) == "\\f" && EscapeChar(13 as char) == "\\r"
    ensures c as int < 32 && c as int !in {8, 9, 10, 12, 13} ==>
              |EscapeChar(c)| == 6 && EscapeChar(c)[..4] == "\\u00"
              && EscapeChar(c)[4] == (if c as int < 16 then '0' else '1')
              && EscapeChar(c)[5] in "0123456789abcdef"
    ensures c as int >= 32 && c != '"' && c != '\\' ==> EscapeChar(c) == [c]
  {
    var text := EscapeChar(c);
    if c as int < 32 && c as int !in {8, 9, 10, 12, 13} {
      assert text[..4] == "\\u00";
      assert c as int % 16 < 16 && text[5] == "0123456789abcdef"[c as int % 16];
    }
  }

  // ---- The bounded writer

  class Writer {
    var bytes: seq<Byte>
    const max: nat
    var exhausted: bool

    constructor (max: nat)
      ensures bytes == [] && !exhausted && this.max == max
    {
      bytes, exhausted, this.max := [], false, max;
    }

    predicate Valid()
      reads this
    {
      |bytes| <= max
    }

    function Remaining(): nat
      requires Valid()
      reads this
    {
      max - |bytes|
    }

    /** Writing `text` succeeds exactly when nothing failed before and all of it fits. */
    twostate predicate Wrote(text: string, ok: bool)
      reads this
    {
      && Valid()
      && (ok <==> !old(exhausted) && |old(bytes)| + Size(text) <= max)
      && (ok ==> bytes == old(bytes) + Utf8(text) && !exhausted)
      && (!ok ==> exhausted && old(bytes) <= bytes)
      && (old(exhausted) ==> bytes == old(bytes))
    }

    /** `write_all`: the flag, once set, stays set. */
    method Raw(text: string) returns (ok: bool)
      requires Valid() && text != ""
      modifies this
      ensures Wrote(text, ok)
      ensures !ok ==> bytes == old(bytes)
    {
      var chunk := Utf8(text);
      if exhausted || |chunk| > max - |bytes| {
        exhausted := true;
        return false;
      }
      bytes := bytes + chunk;
      ok := true;
    }

    /** One more chunk after `done`, which was written from `base` on. */
    method Step(ghost base: seq<Byte>, ghost done: string, chunk: string) returns (ok: bool)
      requires Valid() && !exhausted && bytes == base + Utf8(done) && chunk != ""
      modifies this
      ensures Valid()
      ensures ok ==> !exhausted && bytes == base + Utf8(done + chunk)
      ensures !ok ==> exhausted && base <= bytes && |base| + Size(done + chunk) > max
    {
      hide Utf8;
      Utf8Append(done, chunk);
      assert base + Utf8(done) + Utf8(chunk) == base + Utf8(done + chunk);
      ok := Raw(chunk);
    }

    /** The plain run up to `i`, if it is not empty. */
    method PlainRun(ghost base: seq<Byte>, s: string, start: nat, i: nat) returns (ok: bool)
      requires Valid() && !exhausted && start <= i <= |s| && bytes == base + Utf8(Opening(s, start))
      requires forall k :: start <= k < i ==> Escape(s[k]).None?
      modifies this
      ensures Valid()
      ensures ok ==> !exhausted && bytes == base + Utf8(Opening(s, i))
      ensures !ok ==> exhausted && base <= bytes && |base| + Size(Opening(s, i)) > max
    {
      hide Utf8, Escaped;
      PlainOpening(s, start, i);
      if start == i {
        return true;
      }
      ok := Step(base, Opening(s, start), s[start..i]);
    }

    /** A string goes out as a quote, its plain runs and escapes one by one, and a quote. */
    method String(s: string) returns (ok: bool)
      requires Valid()
      modifies this
      ensures Wrote(Quoted(s), ok)
    {
      hide Utf8, Escaped;
      OpeningFits(s);
      if exhausted {
        ok := Raw("\"");
        return;
      }
      ghost var base := bytes;
      assert base + Utf8("") == base;
      ok := Step(base, "", "\"");
      if !ok {
        return;
      }
      var start := 0;
      for i := 0 to |s|
        invariant Valid() && !exhausted && start <= i && bytes == base + Utf8(Opening(s, start))
        invariant forall k :: start <= k < i ==> Escape(s[k]).None?
      {
        if Escape(s[i]).Some? {
          ok := PlainRun(base, s, start, i);
          if !ok {
            return;
          }
          EscapeOpening(s, i);
          ok := Step(base, Opening(s, i), Escape(s[i]).value);
          if !ok {
            return;
          }
          start := i + 1;
        }
      }
      ok := PlainRun(base, s, start, |s|);
      if ok {
        ok := Step(base, Opening(s, |s|), "\"");
      }
    }

    /** A value after `done`. */
    method Nested(ghost base: seq<Byte>, ghost done: string, v: Value) returns (ok: bool)
      requires Valid() && !exhausted && bytes == base + Utf8(done)
      modifies this
      ensures Valid()
      ensures ok ==> !exhausted && bytes == base + Utf8(done + Compact(v))
      ensures !ok ==> exhausted && base <= bytes && |base| + Size(done + Compact(v)) > max
      decreases v, 2
    {
      hide Utf8, Compact;
      Utf8Append(done, Compact(v));
      assert base + Utf8(done) + Utf8(Compact(v)) == base + Utf8(done + Compact(v));
      ok := Json(v);
    }

    /** `to_writer`: the text of the value goes out exactly when all of it fits. */
    method Json(v: Value) returns (ok: bool)
      requires Valid()
      modifies this
      ensures Wrote(Compact(v), ok)
      decreases v, 1
    {
      if exhausted {
        ok := Raw("x");
        return;
      }
      match v {
        case Null => ok := Raw("null");
        case Bool(b) => ok := Raw(if b then "true" else "false");
        case Number(n) => ok := Raw(n.Text());
        case Str(s) => ok := String(s);
        case Arr(items) => ok := Array(v);
        case Obj(fields) => ok := Object(v);
      }
    }

    method Array(v: Value) returns (ok: bool)
      requires Valid() && !exhausted && v.Arr?
      modifies this
      ensures Wrote(Compact(v), ok)
      decreases v, 0
    {
      hide Utf8, Elements, Members, Quoted;
      ghost var base := bytes;
      ArrayFits(v.items);
      assert base + Utf8("") == base;
      ok := Step(base, "", "[");
      if !ok {
        return;
      }
      for k := 0 to |v.items|
        invariant Valid() && !exhausted && bytes == base + Utf8(ArrayOpening(v.items, k))
      {
        NextElement(v.items, k);
        ghost var done := ArrayOpening(v.items, k);
        if k > 0 {
          ok := Step(base, done, ",");
          if !ok {
            return;
          }
          done := done + ",";
        }
        ok := Nested(base, done, v.items[k]);
        if !ok {
          return;
        }
      }
      ok := Step(base, ArrayOpening(v.items, |v.items|), "]");
    }

    method Object(v: Value) returns (ok: bool)
      requires Valid() && !exhausted && v.Obj?
      modifies this
      ensures Wrote(Compact(v), ok)
      decreases v, 0
    {
      hide Utf8, Elements, Members;
      ghost var base := bytes;
      ObjectFits(v.fields);
      assert base + Utf8("") == base;
      ok := Step(base, "", "{");
      if !ok {
        return;
      }
      for k := 0 to |v.fields|
        invariant Valid() && !exhausted && bytes == base + Utf8(ObjectOpening(v.fields, k))
      {
        NextMember(v.fields, k);
        ghost var done := ObjectOpening(v.fields, k);
        if k > 0 {
          ok := Step(base, done, ",");
          if !ok {
            return;
          }
          done := done + ",";
        }
        ok := Key(base, done, v.fields[k].key);
        if !ok {
          return;
        }
        ok := Nested(base, done + Quoted(v.fields[k].key) + ":", v.fields[k].value);
        if !ok {
          return;
        }
      }
      ok := Step(base, ObjectOpening(v.fields, |v.fields|), "}");
    }

    /** A member name and its colon after `done`. */
    method Key(ghost base: seq<Byte>, ghost done: string, key: string) returns (ok: bool)
      requires Valid() && !exhausted && bytes == base + Utf8(done)
      modifies this
      ensures Valid()
      ensures ok ==> !exhausted && bytes == base + Utf8(done + Quoted(key) + ":")
      ensures !ok ==> exhausted && base <= bytes && |base| + Size(done + Quoted(key) + ":") > max
    {
      hide Utf8, Quoted;
      Utf8Append(done, Quoted(key));
      Utf8Append(done + Quoted(key), ":");
      assert base + Utf8(done) + Utf8(Quoted(key)) == base + Utf8(done + Quoted(key));
      ok := String(key);
      if ok {
        ok := Step(base, done + Quoted(key), ":");
      }
    }
  }

  // ---- Every prefix of a value's text that the writer passes through fits if the whole does

  function ArrayOpening(items: seq<Value>, k: nat): string
    requires k <= |items|
  {
    "[" + Elements(items[..k])
  }

  lemma NextElement(items: seq<Value>, k: nat)
    requires k < |items|
    ensures ArrayOpening(items, k + 1) == ArrayOpening(items, k) + (if k > 0 then "," else "") + Compact(items[k])
    ensures Size(ArrayOpening(items, k) + ",") <= Size(Compact(Arr(items))) || k == 0
    ensures Size(ArrayOpening(items, k + 1)) <= Size(Compact(Arr(items)))
  {
    hide Size, Quoted;
    assert items[..k + 1][..k] == items[..k];
    ArrayFits(items);
    if k > 0 {
      SizeAppend(ArrayOpening(items, k) + ",", Compact(items[k]));
    }
  }

  lemma {:induction false} ElementsGrow(items: seq<Value>, k: nat)
    requires k <= |items|
    ensures Size(Elements(items[..k])) <= Size(Elements(items))
  {
    hide Size, Quoted;
    if k < |items| {
      var last := |items| - 1;
      ElementsGrow(items[..last], k);
      assert items[..last][..k] == items[..k];
      var comma := if last == 0 then "" else ",";
      SizeAppend(Elements(items[..last]) + comma, Compact(items[last]));
      SizeAppend(Elements(items[..last]), comma);
    } else {
      assert items[..k] == items;
    }
  }

  lemma ArrayFits(items: seq<Value>)
    ensures ArrayOpening(items, 0) == "[" && ArrayOpening(items, |items|) + "]" == Compact(Arr(items))
    ensures forall k :: 0 <= k <= |items| ==> Size(ArrayOpening(items, k)) <= Size(Compact(Arr(items)))
    ensures Utf8("") == [] && "" + "[" == "[" && Size("[") <= Size(Compact(Arr(items)))
  {
    hide Size, Quoted;
    assert items[..|items|] == items && items[..0] == [];
    forall k | 0 <= k <= |items| ensures Size(ArrayOpening(items, k)) <= Size(Compact(Arr(items))) {
      ElementsGrow(items, k);
      SizeAppend("[", Elements(items[..k]));
      SizeAppend("[", Elements(items));
      SizeAppend("[" + Elements(items), "]");
    }
    assert ArrayOpening(items, 0) == "[";
  }

  function ObjectOpening(fields: seq<Field>, k: nat): string
    requires k <= |fields|
  {
    "{" + Members(fields[..k])
  }

  lemma NextMember(fields: seq<Field>, k: nat)
    requires k < |fields|
    ensures var done := ObjectOpening(fields, k) + (if k > 0 then "," else "");
            && ObjectOpening(fields, k + 1) == done + Quoted(fields[k].key) + ":" + Compact(fields[k].value)
            && Size(done) <= Size(Compact(Obj(fields)))
            && Size(done + Quoted(fields[k].key) + ":") <= Size(Compact(Obj(fields)))
            && Size(ObjectOpening(fields, k + 1)) <= Size(Compact(Obj(fields)))
  {
    hide Size, Quoted;
    assert fields[..k + 1][..k] == fields[..k];
    ObjectFits(fields);
    var done := ObjectOpening(fields, k) + (if k > 0 then "," else "");
    SizeAppend(done + Quoted(fields[k].key) + ":", Compact(fields[k].value));
    SizeAppend(done, Quoted(fields[k].key) + ":");
    assert done + Quoted(fields[k].key) + ":" == done + (Quoted(fields[k].key) + ":");
  }

  lemma {:induction false} MembersGrow(fields: seq<Field>, k: nat)
    requires k <= |fields|
    ensures Size(Members(fields[..k])) <= Size(Members(fields))
  {
    hide Size, Quoted;
    if k < |fields| {
      var last := |fields| - 1;
      MembersGrow(fields[..last], k);
      assert fields[..last][..k] == fields[..k];
      var comma := if last == 0 then "" else ",";
      var member := Quoted(fields[last].key) + ":" + Compact(fields[last].value);
      assert Members(fields) == Members(fields[..last]) + (comma + member);
      SizeAppend(Members(fields[..last]), comma + member);
    } else {
      assert fields[..k] == fields;
    }
  }

  lemma ObjectFits(fields: seq<Field>)
    ensures ObjectOpening(fields, 0) == "{" && ObjectOpening(fields, |fields|) + "}" == Compact(Obj(fields))
    ensures forall k :: 0 <= k <= |fields| ==> Size(ObjectOpening(fields, k)) <= Size(Compact(Obj(fields)))
    ensures Utf8("") == [] && "" + "{" == "{" && Size("{") <= Size(Compact(Obj(fields)))
  {
    hide Size, Quoted;
    assert fields[..|fields|] == fields && fields[..0] == [];
    forall k | 0 <= k <= |fields| ensures Size(ObjectOpening(fields, k)) <= Size(Compact(Obj(fields))) {
      MembersGrow(fields, k);
      SizeAppend("{", Members(fields[..k]));
      SizeAppend("{", Members(fields));
      SizeAppend("{" + Members(fields), "}");
    }
    assert ObjectOpening(fields, 0) == "{";
  }

  /** The quote and the first `k` characters. */
  function Opening(s: string, k: nat): string
    requires k <= |s|
  {
    "\"" + Escaped(s[..k])
  }

  lemma OpeningFits(s: string)
    ensures Opening(s, 0) == "\"" && Opening(s, |s|) + "\"" == Quoted(s)
    ensures forall k :: 0 <= k <= |s| ==> Size(Opening(s, k)) <= Size(Quoted(s))
    ensures Utf8("") == [] && "" + "\"" == "\"" && Size("\"") <= Size(Quoted(s))
  {
    assert s[..|s|] == s && s[..0] == "";
    forall k | 0 <= k <= |s| ensures Size(Opening(s, k)) <= Size(Quoted(s)) {
      assert s == s[..k] + s[k..];
      EscapedAppend(s[..k], s[k..]);
      assert Quoted(s) == Opening(s, k) + (Escaped(s[k..]) + "\"");
      SizeAppend(Opening(s, k), Escaped(s[k..]) + "\"");
    }
    assert Opening(s, 0) == "\"";
  }

  lemma PlainOpening(s: string, start: nat, i: nat)
    requires start <= i <= |s| && forall k :: start <= k < i ==> Escape(s[k]).None?
    ensures Opening(s, i) == Opening(s, start) + s[start..i]
  {
    hide Escaped;
    EscapedAppend(s[..start], s[start..i]);
    EscapedPlain(s[start..i]);
    assert s[..i] == s[..start] + s[start..i];
    assert Opening(s, i) == "\"" + (Escaped(s[..start]) + s[start..i]);
  }

  lemma EscapeOpening(s: string, i: nat)
    requires i < |s| && Escape(s[i]).Some?
    ensures Opening(s, i + 1) == Opening(s, i) + Escape(s[i]).value
  {
    assert s[..i + 1] == s[..i] + [s[i]];
    EscapedAppend(s[..i], [s[i]]);
    assert Escaped([s[i]]) == EscapeChar(s[i]) + Escaped([s[i]][1..]);
  }
}
