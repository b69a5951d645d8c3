/**
 * .NET's 32-bit signed integer, `Int32.TryParse` under `NumberStyles.Integer`
 * (leading and trailing white space, an optional leading sign, decimal digits)
 * and its inverse `Int32.ToString()`.
 */
module Int32 {
  import opened Wrappers

  newtype int32 = x: int | -0x8000_0000 <= x < 0x8000_0000

  const MinValue: int32 := -0x8000_0000
  const MaxValue: int32 := 0x7FFF_FFFF

  /** The characters `NumberStyles.AllowLeadingWhite`/`AllowTrailingWhite` skip: U+0009 to U+000D and U+0020. */
  predicate IsWhite(c: char) {
    c == ' ' || '\t' <= c <= '\r'
  }

  predicate IsDigit(c: char) {
    '0' <= c <= '9'
  }

  predicate AllDigits(s: string) {
    forall i :: 0 <= i < |s| ==> IsDigit(s[i])
  }

  function TrimStart(s: string): (r: string)
    ensures |r| <= |s| && r == s[|s| - |r|..]
    ensures r != [] ==> !IsWhite(r[0])
    ensures forall i :: 0 <= i < |s| - |r| ==> IsWhite(s[i])
  {
    if s != [] && IsWhite(s[0]) then TrimStart(s[1..]) else s
  }

  function TrimEnd(s: string): (r: string)
    ensures |r| <= |s| && r == s[..|r|]
    ensures r != [] ==> !IsWhite(r[|r| - 1])
    ensures forall i :: |r| <= i < |s| ==> IsWhite(s[i])
  {
    if s != [] && IsWhite(s[|s| - 1]) then TrimEnd(s[..|s| - 1]) else s
  }

  function DigitValue(c: char): nat
    requires IsDigit(c)
  {
    (c - '0') as nat
  }

  function DigitChar(d: nat): (c: char)
    requires d < 10
    ensures IsDigit(c) && DigitValue(c) == d
  {
    ('0' as int + d) as char
  }

  /** The value of a string of decimal digits, most significant first; leading zeros allowed. */
  function DigitsValue(s: string): nat
    requires AllDigits(s)
  {
    if s == [] then 0 else DigitsValue(s[..|s| - 1]) * 10 + DigitValue(s[|s| - 1])
  }

  /**
   * `Int32.TryParse(s, out result)`: `Some(n)` when it returns true with `result == n`,
   * `None` when it returns false.
   */
  function TryParse(s: string): (r: Option<int32>)
    ensures r.Some? ==> exists i :: 0 <= i < |s| && IsDigit(s[i])
  {
    var t := TrimEnd(TrimStart(s));
    if t == [] then None
    else
      var negative := t[0] == '-';
      var digits := if t[0] == '-' || t[0] == '+' then t[1..] else t;
      if digits == [] || !AllDigits(digits) then None
      else
        var magnitude: int := DigitsValue(digits);
        var v: int := if negative then -magnitude else magnitude;
        if MinValue as int <= v <= MaxValue as int then
          assert IsDigit(digits[0]);
          Some(v as int32)
        else None
  }

  /** Decimal digits of a natural number, no leading zeros. */
  function NatToString(n: nat): (s: string)
    ensures s != [] && AllDigits(s)
    ensures |s| > 1 ==> s[0] != '0'
  {
    if n < 10 then [DigitChar(n)] else NatToString(n / 10) + [DigitChar(n % 10)]
  }

  /** `Int32.ToString()` in the invariant culture. */
  function ToString(n: int32): (s: string)
    ensures s != []
  {
    if n < 0 then "-" + NatToString(-(n as int)) else NatToString(n as nat)
  }

  lemma {:induction false} DigitsOfNatToString(n: nat)
    ensures DigitsValue(NatToString(n)) == n
  {
    var s := NatToString(n);
    if n >= 10 {
      DigitsOfNatToString(n / 10);
      assert s[..|s| - 1] == NatToString(n / 10);
    }
  }

  lemma NoWhiteIsTrimmed(s: string)
    requires forall i :: 0 <= i < |s| ==> !IsWhite(s[i])
    ensures TrimEnd(TrimStart(s)) == s
  {
  }

  /** Parsing what `ToString` printed gives back the number. */
  lemma {:induction false} TryParseToString(n: int32)
    ensures TryParse(ToString(n)) == Some(n)
  {
    var s := ToString(n);
    var m := if n < 0 then -(n as int) else n as int;
    DigitsOfNatToString(m);
    assert forall i :: 0 <= i < |s| ==> !IsWhite(s[i]);
    NoWhiteIsTrimmed(s);
    if n < 0 {
      assert s[1..] == NatToString(m);
    }
  }

  /** A string without any digit never parses. */
  lemma TryParseNeedsDigit(s: string)
    requires forall i :: 0 <= i < |s| ==> !IsDigit(s[i])
    ensures TryParse(s) == None
  {
  }

  /** The value stored by the field in FieldsHelperTests: "123" parses to 123. */
  lemma TryParse123()
    ensures TryParse("123") == Some(123)
  {
    assert ToString(123) == "123" by {
      assert NatToString(12) == "12" by {
        assert NatToString(1) == "1";
      }
    }
    TryParseToString(123);
  }
}
