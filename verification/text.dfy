/** Decimal text as Rust prints and parses it: revisions, cursors and issue identifiers. */
module Text {
  import opened Prelude

  const I64_MAX: int := 0x7FFF_FFFF_FFFF_FFFF

  predicate IsDigit(c: char) {
    '0' <= c <= '9'
  }

  predicate AllDigits(s: string) {
    forall c :: c in s ==> IsDigit(c)
  }

  function DigitOf(d: nat): (c: char)
    requires d < 10
    ensures IsDigit(c)
  {
    ('0' as int + d) as char
  }

  function DigitValue(c: char): (d: nat)
    requires IsDigit(c)
    ensures d < 10
  {
    c as int - '0' as int
  }

  /** `i64::to_string` on a value that is not negative. */
  function Decimal(n: nat): (s: string)
    ensures |s| > 0 && AllDigits(s)
  {
    if n < 10 then [DigitOf(n)] else Decimal(n / 10) + [DigitOf(n % 10)]
  }

  function ValueOf(s: string): nat
    requires AllDigits(s)
  {
    if s == [] then 0 else 10 * ValueOf(s[..|s| - 1]) + DigitValue(s[|s| - 1])
  }

  /** Rust's `str::parse::<i64>`: one optional sign, at least one digit, no overflow. */
  function ParseI64(s: string): Option<int> {
    if s == "" then None
    else
      var digits := if s[0] == '-' || s[0] == '+' then s[1..] else s;
      if digits == "" || !AllDigits(digits) then None
      else
        var v: int := ValueOf(digits);
        if s[0] == '-' then (if v <= I64_MAX + 1 then Some(-v) else None)
        else if v <= I64_MAX then Some(v) else None
  }

  function ParseRevision(s: string): Option<nat> {
    match ParseI64(s)
    case Some(v) => if v > 0 then Some(v) else None
    case None => None
  }

  function ParseCursor(after: Option<string>): Option<nat> {
    match after
    case None => Some(0)
    case Some(s) => ParseRevision(s)
  }

  lemma {:induction false} DecimalValue(n: nat)
    ensures ValueOf(Decimal(n)) == n
  {
    if n >= 10 {
      DecimalValue(n / 10);
      var s := Decimal(n);
      assert s[..|s| - 1] == Decimal(n / 10);
    } else {
      assert Decimal(n)[..0] == [];
    }
  }

  /** Every revision or row number that the provider prints is read back as itself. */
  lemma RevisionRoundTrip(n: nat)
    requires 0 < n <= I64_MAX
    ensures ParseRevision(Decimal(n)) == Some(n)
    ensures ParseCursor(Some(Decimal(n))) == Some(n)
  {
    DecimalValue(n);
    assert Decimal(n)[0] in Decimal(n);
  }

  function Zeros(z: nat): string {
    if z == 0 then "" else "0" + Zeros(z - 1)
  }

  lemma {:induction false} ZerosAreDigits(z: nat)
    ensures AllDigits(Zeros(z)) && |Zeros(z)| == z
  {
    if z > 0 {
      ZerosAreDigits(z - 1);
    }
  }

  lemma {:induction false} ValueAppend(a: string, c: char)
    requires AllDigits(a) && IsDigit(c)
    ensures AllDigits(a + [c]) && ValueOf(a + [c]) == 10 * ValueOf(a) + DigitValue(c)
  {
    assert (a + [c])[..|a|] == a;
  }

  lemma {:induction false} ZerosDoNotCount(z: nat, n: nat)
    ensures AllDigits(Zeros(z) + Decimal(n)) && ValueOf(Zeros(z) + Decimal(n)) == n
  {
    ZerosAreDigits(z);
    if n < 10 {
      ZeroValue(z);
      ValueAppend(Zeros(z), DigitOf(n));
    } else {
      ZerosDoNotCount(z, n / 10);
      ValueAppend(Zeros(z) + Decimal(n / 10), DigitOf(n % 10));
      assert Zeros(z) + Decimal(n) == Zeros(z) + Decimal(n / 10) + [DigitOf(n % 10)];
    }
  }

  lemma {:induction false} ZeroValue(z: nat)
    ensures AllDigits(Zeros(z)) && ValueOf(Zeros(z)) == 0
  {
    ZerosAreDigits(z);
    if z > 0 {
      ZeroValue(z - 1);
      ZerosEnd(z - 1);
      ValueAppend(Zeros(z - 1), '0');
    }
  }

  lemma {:induction false} ZerosEnd(z: nat)
    ensures Zeros(z + 1) == Zeros(z) + "0"
  {
    if z > 0 {
      ZerosEnd(z - 1);
    }
  }

  /** A text of digits is its number's decimal form behind some zeros. */
  lemma {:induction false} DigitsAreDecimal(s: string) returns (z: nat)
    requires s != "" && AllDigits(s)
    ensures s == Zeros(z) + Decimal(ValueOf(s))
    decreases |s|
  {
    var front, c := s[..|s| - 1], s[|s| - 1];
    assert s == front + [c];
    assert forall d :: d in front ==> d in s;
    var v := ValueOf(front);
    assert DigitOf(DigitValue(c)) == c;
    if front == "" {
      z := 0;
      assert Decimal(ValueOf(s)) == [c];
    } else {
      z := DigitsAreDecimal(front);
      if v == 0 {
        z := |front|;
        AllZeros(front);
        assert Decimal(ValueOf(s)) == [c];
      } else {
        assert Decimal(10 * v + DigitValue(c)) == Decimal(v) + [c];
        assert Zeros(z) + Decimal(v) + [c] == Zeros(z) + (Decimal(v) + [c]);
      }
    }
  }

  lemma {:induction false} AllZeros(s: string)
    requires AllDigits(s) && ValueOf(s) == 0
    ensures s == Zeros(|s|)
  {
    if s != "" {
      var front := s[..|s| - 1];
      assert forall d :: d in front ==> d in s;
      AllZeros(front);
      ZerosEnd(|front|);
      assert s == front + [s[|s| - 1]];
    }
  }

  /** How a positive number can be written: with a plus sign or without, with zeros in front or without. */
  ghost predicate Written(s: string, n: nat) {
    exists z: nat :: s == Zeros(z) + Decimal(n) || s == "+" + (Zeros(z) + Decimal(n))
  }

  /**
   A revision or cursor is accepted exactly when it is a positive number that 64 bits with a sign
   can hold, written in decimal.
   */
  lemma ParsesExactly(s: string, n: nat)
    ensures ParseRevision(s) == Some(n) <==> 0 < n <= 9_223_372_036_854_775_807 && Written(s, n)
    ensures ParseCursor(Some(s)) == ParseRevision(s) && ParseCursor(None) == Some(0)
  {
    if ParseRevision(s) == Some(n) {
      var digits := if s[0] == '+' then s[1..] else s;
      assert s[0] != '-';
      var z := DigitsAreDecimal(digits);
      if s[0] == '+' {
        assert s == "+" + s[1..];
      }
    }
    if 0 < n <= 9_223_372_036_854_775_807 && Written(s, n) {
      var z: nat :| s == Zeros(z) + Decimal(n) || s == "+" + (Zeros(z) + Decimal(n));
      ZerosDoNotCount(z, n);
      var digits := Zeros(z) + Decimal(n);
      assert digits[0] in digits && digits != "";
      if s != digits {
        assert s[1..] == digits;
      }
    }
  }

  /** `format!("{team_key}-{number}")` */
  function Identifier(key: string, number: nat): string {
    key + "-" + Decimal(number)
  }

  /** The CHECK constraint on `team_key`: `^[A-Z][A-Z0-9]{1,9}$`. */
  predicate ValidKey(key: string) {
    && 2 <= |key| <= 10
    && 'A' <= key[0] <= 'Z'
    && forall c :: c in key ==> 'A' <= c <= 'Z' || IsDigit(c)
  }

  lemma DashPosition(key: string, number: nat)
    requires ValidKey(key)
    ensures |key| < |Identifier(key, number)| && Identifier(key, number)[|key|] == '-'
    ensures forall i :: 0 <= i < |key| ==> Identifier(key, number)[i] != '-'
  {
    forall i | 0 <= i < |key|
      ensures Identifier(key, number)[i] != '-'
    {
      assert key[i] in key;
    }
  }

  /** The text of an identifier determines both the key and the number. */
  lemma IdentifierInjective(k1: string, n1: nat, k2: string, n2: nat)
    requires ValidKey(k1) && ValidKey(k2)
    requires Identifier(k1, n1) == Identifier(k2, n2)
    ensures k1 == k2 && n1 == n2
  {
    var s := Identifier(k1, n1);
    DashPosition(k1, n1);
    DashPosition(k2, n2);
    assert k1 == s[..|k1|] == s[..|k2|] == k2;
    assert Decimal(n1) == s[|k1| + 1..] == Decimal(n2);
    DecimalValue(n1);
    DecimalValue(n2);
  }
}
