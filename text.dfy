/**
 * The string operations the helpers apply to URLs and ids:
 * `String.Replace(" ", "%20")`, `StringUtil.EnsurePrefix` and removing the
 * matches of the regular expression `[-{}]+`.
 */
module Text {

  /** The escape `String.Replace(" ", "%20")` substitutes for one space. */
  const EscapedSpace: string := "%20"

  /** The text `Replace(" ", "%20")` produces for one character. */
  function EscapeChar(c: char): string {
    if c == ' ' then EscapedSpace else [c]
  }

  /** `s.Replace(" ", "%20")`: every space replaced by "%20", everything else kept. */
  function ReplaceSpaces(s: string): (r: string)
    ensures ' ' !in r
    ensures |r| >= |s|
  {
    if s == [] then [] else EscapeChar(s[0]) + ReplaceSpaces(s[1..])
  }

  function CountSpaces(s: string): nat {
    if s == [] then 0 else (if s[0] == ' ' then 1 else 0) + CountSpaces(s[1..])
  }

  /** Each space grows by two characters. */
  lemma {:induction false} ReplaceSpacesLength(s: string)
    ensures |ReplaceSpaces(s)| == |s| + 2 * CountSpaces(s)
  {
    if s != [] {
      ReplaceSpacesLength(s[1..]);
    }
  }

  /** Escaping works piecewise, so the order of the kept characters is unchanged. */
  lemma {:induction false} ReplaceSpacesAppend(a: string, b: string)
    ensures ReplaceSpaces(a + b) == ReplaceSpaces(a) + ReplaceSpaces(b)
  {
    if a == [] {
      assert a + b == b;
    } else {
      assert (a + b)[1..] == a[1..] + b;
      ReplaceSpacesAppend(a[1..], b);
    }
  }

  /** A string without spaces is left as it is. */
  lemma {:induction false} ReplaceSpacesNoSpace(s: string)
    requires ' ' !in s
    ensures ReplaceSpaces(s) == s
  {
    if s != [] {
      assert s == [s[0]] + s[1..];
      ReplaceSpacesNoSpace(s[1..]);
    }
  }

  /** Escaping twice is escaping once. */
  lemma ReplaceSpacesIdempotent(s: string)
    ensures ReplaceSpaces(ReplaceSpaces(s)) == ReplaceSpaces(s)
  {
    ReplaceSpacesNoSpace(ReplaceSpaces(s));
  }

  /** `StringUtil.EnsurePrefix(c, s)`: `s` if it already starts with `c`, otherwise `c` before `s`. */
  function EnsurePrefix(c: char, s: string): (r: string)
    ensures |r| > 0 && r[0] == c
    ensures r == s || r == [c] + s
    ensures |s| > 0 && s[0] == c ==> r == s
  {
    if |s| > 0 && s[0] == c then s else [c] + s
  }

  /** Prefixing an already prefixed string changes nothing. */
  lemma EnsurePrefixIdempotent(c: char, s: string)
    ensures EnsurePrefix(c, EnsurePrefix(c, s)) == EnsurePrefix(c, s)
  {
  }

  /** The characters the character class `[-{}]` matches. */
  predicate IsIdSeparator(c: char) {
    c == '-' || c == '{' || c == '}'
  }

  /**
   * `Regex("[-{}]+").Replace(s, "")`: every maximal run of separators is replaced by
   * nothing, which is the same as dropping each separator on its own.
   */
  function RemoveIdSeparators(s: string): (r: string)
    ensures forall i :: 0 <= i < |r| ==> !IsIdSeparator(r[i])
    ensures |r| <= |s|
  {
    if s == [] then []
    else (if IsIdSeparator(s[0]) then [] else [s[0]]) + RemoveIdSeparators(s[1..])
  }

  /** Every character other than a separator is kept, as often as it occurs. */
  lemma {:induction false} RemoveIdSeparatorsKeeps(s: string, c: char)
    requires !IsIdSeparator(c)
    ensures multiset(RemoveIdSeparators(s))[c] == multiset(s)[c]
  {
    if s != [] {
      RemoveIdSeparatorsKeeps(s[1..], c);
      assert s == [s[0]] + s[1..];
    }
  }

  /** Removal works piecewise, so the kept characters stay in their order. */
  lemma {:induction false} RemoveIdSeparatorsAppend(a: string, b: string)
    ensures RemoveIdSeparators(a + b) == RemoveIdSeparators(a) + RemoveIdSeparators(b)
  {
    if a == [] {
      assert a + b == b;
    } else {
      assert (a + b)[1..] == a[1..] + b;
      RemoveIdSeparatorsAppend(a[1..], b);
    }
  }

  /** A string without separators is left as it is. */
  lemma {:induction false} RemoveIdSeparatorsClean(s: string)
    requires forall i :: 0 <= i < |s| ==> !IsIdSeparator(s[i])
    ensures RemoveIdSeparators(s) == s
  {
    if s != [] {
      assert s == [s[0]] + s[1..];
      RemoveIdSeparatorsClean(s[1..]);
    }
  }

  /** Removing the separators a second time changes nothing. */
  lemma RemoveIdSeparatorsIdempotent(s: string)
    ensures RemoveIdSeparators(RemoveIdSeparators(s)) == RemoveIdSeparators(s)
  {
    RemoveIdSeparatorsClean(RemoveIdSeparators(s));
  }
}
