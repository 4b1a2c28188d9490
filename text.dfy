/** The pieces of Python's string handling the application relies on:
    `str()` of an integer, `str.strip()`, `sep.join(items)` and substring search. */
module Text {

  // ---------------------------------------------------------------------------
  // Substrings
  // ---------------------------------------------------------------------------

  /** `needle` occurs in `hay` starting at position `k`. */
  predicate OccursAt(hay: string, needle: string, k: int) {
    0 <= k && k + |needle| <= |hay| && hay[k..k + |needle|] == needle
  }

  /** Python's `needle in hay` on strings. */
  ghost predicate Contains(hay: string, needle: string) {
    exists k :: OccursAt(hay, needle, k)
  }

  predicate StartsWith(s: string, prefix: string) {
    |prefix| <= |s| && s[..|prefix|] == prefix
  }

  predicate EndsWith(s: string, suffix: string) {
    |suffix| <= |s| && s[|s| - |suffix|..] == suffix
  }

  lemma ConcatOccurs(a: string, b: string, c: string)
    ensures OccursAt(a + b + c, b, |a|)
  {
    assert (a + b + c)[|a|..|a| + |b|] == b;
  }

  lemma ConcatStartsWith(a: string, b: string)
    ensures StartsWith(a + b, a)
  {
    assert (a + b)[..|a|] == a;
  }

  lemma ConcatEndsWith(a: string, b: string)
    ensures EndsWith(a + b, b)
  {
    assert (a + b)[|a + b| - |b|..] == b;
  }

  // ---------------------------------------------------------------------------
  // str(n) for integers, and its inverse int(s)
  // ---------------------------------------------------------------------------

  predicate IsDigit(c: char) {
    '0' <= c <= '9'
  }

  predicate AllDigits(s: string) {
    forall i :: 0 <= i < |s| ==> IsDigit(s[i])
  }

  function DigitValue(c: char): (d: nat)
    requires IsDigit(c)
    ensures d < 10
  {
    c as int - '0' as int
  }

  function DigitChar(d: nat): (c: char)
    requires d < 10
    ensures IsDigit(c) && DigitValue(c) == d
  {
    (d + '0' as int) as char
  }

  /** Decimal digits of `n`, most significant first, without leading zeros. */
  function NatToString(n: nat): (s: string)
    ensures AllDigits(s)
    ensures 1 <= |s| && (|s| == 1 <==> n < 10)
    ensures |s| > 1 ==> s[0] != '0'
  {
    if n < 10 then [DigitChar(n)] else NatToString(n / 10) + [DigitChar(n % 10)]
  }

  /** The value of a string of decimal digits (`int(s)` for such strings). */
  function ParseNat(s: string): nat
    requires AllDigits(s)
  {
    if s == [] then 0 else ParseNat(s[..|s| - 1]) * 10 + DigitValue(s[|s| - 1])
  }

  lemma {:induction false} ParseNatToString(n: nat)
    ensures ParseNat(NatToString(n)) == n
  {
    var s := NatToString(n);
    if n >= 10 {
      assert s[..|s| - 1] == NatToString(n / 10);
      ParseNatToString(n / 10);
    }
  }

  /** Python's `str(i)` for an integer `i`: an optional minus sign, then the digits. */
  function IntToString(i: int): (s: string)
    ensures IsDecimalInt(s)
  {
    if i < 0 then "-" + NatToString(-i) else NatToString(i)
  }

  predicate IsDecimalInt(s: string) {
    if |s| > 0 && s[0] == '-' then 2 <= |s| && AllDigits(s[1..]) else 1 <= |s| && AllDigits(s)
  }

  function ParseInt(s: string): int
    requires IsDecimalInt(s)
  {
    if |s| > 0 && s[0] == '-' then -(ParseNat(s[1..]) as int) else ParseNat(s)
  }

  lemma ParseIntToString(i: int)
    ensures ParseInt(IntToString(i)) == i
  {
    var s := IntToString(i);
    if i < 0 {
      var d := NatToString(-i);
      assert s == "-" + d;
      assert s[0] == '-' && s[1..] == d;
      ParseNatToString(-i);
    } else {
      var d := NatToString(i);
      assert s == d;
      assert IsDigit(d[0]);
      ParseNatToString(i);
    }
  }

  /** Different integers print differently. */
  lemma IntToStringInjective(a: int, b: int)
    ensures IntToString(a) == IntToString(b) ==> a == b
  {
    ParseIntToString(a);
    ParseIntToString(b);
  }

  lemma NatToStringInjective(a: nat, b: nat)
    ensures NatToString(a) == NatToString(b) ==> a == b
  {
    ParseNatToString(a);
    ParseNatToString(b);
  }

  // ---------------------------------------------------------------------------
  // str.strip() with no arguments
  // ---------------------------------------------------------------------------

  /** The characters for which Python's `str.isspace()` holds. */
  predicate IsSpace(c: char) {
    || c == '\t' || c == '\n' || c == '\U{0B}' || c == '\U{0C}' || c == '\r'
    || ('\U{1C}' <= c <= '\U{1F}') || c == ' ' || c == '\U{85}' || c == '\U{A0}'
    || c == '\U{1680}' || ('\U{2000}' <= c <= '\U{200A}') || c == '\U{2028}' || c == '\U{2029}'
    || c == '\U{202F}' || c == '\U{205F}' || c == '\U{3000}'
  }

  predicate IsBlank(s: string) {
    forall i :: 0 <= i < |s| ==> IsSpace(s[i])
  }

  /** `s` without its leading whitespace: the longest suffix that does not start with a space. */
  function TrimLeft(s: string): (r: string)
    ensures |r| <= |s| && r == s[|s| - |r|..]
    ensures IsBlank(s[..|s| - |r|])
    ensures r != [] ==> !IsSpace(r[0])
  {
    if s != [] && IsSpace(s[0]) then
      var r := TrimLeft(s[1..]);
      assert s[..|s| - |r|] == [s[0]] + s[1..][..|s| - 1 - |r|];
      r
    else
      s
  }

  /** `s` without its trailing whitespace: the longest prefix that does not end with a space. */
  function TrimRight(s: string): (r: string)
    ensures |r| <= |s| && r == s[..|r|]
    ensures IsBlank(s[|r|..])
    ensures r != [] ==> !IsSpace(r[|r| - 1])
  {
    if s != [] && IsSpace(s[|s| - 1]) then
      var r := TrimRight(s[..|s| - 1]);
      assert s[|r|..] == s[..|s| - 1][|r|..] + [s[|s| - 1]];
      r
    else
      s
  }

  /** Python's `s.strip()`. */
  function Strip(s: string): (r: string)
    ensures |r| <= |s|
  {
    TrimRight(TrimLeft(s))
  }

  /** Neither end of `s.strip()` is whitespace. */
  lemma StripEnds(s: string)
    ensures var r := Strip(s); r == [] || (!IsSpace(r[0]) && !IsSpace(r[|r| - 1]))
  {
    var t := TrimLeft(s);
    var r := TrimRight(t);
    if r != [] {
      assert r[0] == t[0];
    }
  }

  /** `s.strip()` is the part of `s` between a blank prefix and a blank suffix. */
  lemma StripBetweenBlanks(s: string)
    ensures exists k :: OccursAt(s, Strip(s), k) && IsBlank(s[..k]) && IsBlank(s[k + |Strip(s)|..])
  {
    var t := TrimLeft(s);
    var r := TrimRight(t);
    var k := |s| - |t|;
    assert t == s[k..] && r == t[..|r|];
    assert s[k..k + |r|] == r;
    assert s[k + |r|..] == t[|r|..];
    assert OccursAt(s, r, k);
  }

  /** `not s.strip()` holds exactly when `s` is made of whitespace only. */
  lemma StripEmptyIffBlank(s: string)
    ensures Strip(s) == [] <==> IsBlank(s)
  {
    var t := TrimLeft(s);
    if Strip(s) == [] {
      assert IsBlank(t[0..]);
      assert s == s[..|s| - |t|] + t;
    }
  }

  // ---------------------------------------------------------------------------
  // sep.join(items)
  // ---------------------------------------------------------------------------

  /** Python's `sep.join(items)`: the items in order with `sep` between neighbours. */
  function Join(sep: string, items: seq<string>): (r: string)
    ensures |items| == 0 ==> r == ""
    ensures |items| > 0 ==> StartsWith(r, items[0]) && EndsWith(r, items[|items| - 1])
  {
    if |items| == 0 then ""
    else if |items| == 1 then items[0]
    else
      var rest := Join(sep, items[1..]);
      var head := items[0] + sep;
      assert (head + rest)[..|items[0]|] == items[0];
      assert (head + rest)[|head + rest| - |items[|items| - 1]|..] == rest[|rest| - |items[|items| - 1]|..];
      head + rest
  }

  /** Where `items[i]` starts inside `Join(sep, items)`. */
  function JoinOffset(sep: string, items: seq<string>, i: nat): nat
    requires i <= |items|
  {
    if i == 0 then 0 else |items[0]| + |sep| + JoinOffset(sep, items[1..], i - 1)
  }

  /** An occurrence inside `b` is an occurrence inside `a + b`, shifted by `|a|`. */
  lemma OccursAtShift(a: string, b: string, needle: string, k: int)
    requires OccursAt(b, needle, k)
    ensures OccursAt(a + b, needle, |a| + k)
  {
    assert (a + b)[|a| + k..|a| + k + |needle|] == b[k..k + |needle|];
  }

  /** Each offset is the previous one plus the previous item and one separator. */
  lemma {:induction false} JoinOffsetStep(sep: string, items: seq<string>, i: nat)
    requires i + 1 <= |items|
    ensures JoinOffset(sep, items, i + 1) == JoinOffset(sep, items, i) + |items[i]| + |sep|
  {
    if i > 0 {
      JoinOffsetStep(sep, items[1..], i - 1);
      assert items[1..][i - 1] == items[i];
    }
  }

  /** Every item appears in the joined text at its offset. */
  lemma {:induction false} JoinItemAt(sep: string, items: seq<string>, i: nat)
    requires i < |items|
    ensures OccursAt(Join(sep, items), items[i], JoinOffset(sep, items, i))
  {
    if |items| > 1 {
      var rest := Join(sep, items[1..]);
      var head := items[0] + sep;
      assert Join(sep, items) == head + rest;
      if i > 0 {
        JoinItemAt(sep, items[1..], i - 1);
        assert items[1..][i - 1] == items[i];
        OccursAtShift(head, rest, items[i], JoinOffset(sep, items[1..], i - 1));
      } else {
        assert (head + rest)[..|items[0]|] == items[0];
      }
    }
  }

  /** The separator stands right after every item but the last. */
  lemma {:induction false} JoinSeparatorAfter(sep: string, items: seq<string>, i: nat)
    requires i + 1 < |items|
    ensures OccursAt(Join(sep, items), sep, JoinOffset(sep, items, i) + |items[i]|)
  {
    var rest := Join(sep, items[1..]);
    var head := items[0] + sep;
    assert Join(sep, items) == head + rest;
    if i > 0 {
      JoinSeparatorAfter(sep, items[1..], i - 1);
      assert items[1..][i - 1] == items[i];
      OccursAtShift(head, rest, sep, JoinOffset(sep, items[1..], i - 1) + |items[i]|);
    } else {
      assert (head + rest)[|items[0]|..|items[0]| + |sep|] == sep;
    }
  }

  /** Later items start further right: the items keep their list order. */
  lemma {:induction false} JoinOffsetIncreasing(sep: string, items: seq<string>, i: nat, j: nat)
    requires |sep| > 0 && i < j < |items|
    ensures JoinOffset(sep, items, i) < JoinOffset(sep, items, j)
  {
    JoinOffsetStep(sep, items, j - 1);
    if i < j - 1 {
      JoinOffsetIncreasing(sep, items, i, j - 1);
    }
  }

  /** The joined text is exactly as long as the items plus one separator between each pair. */
  lemma {:induction false} JoinLength(sep: string, items: seq<string>)
    requires |items| > 0
    ensures |Join(sep, items)| == JoinOffset(sep, items, |items| - 1) + |items[|items| - 1]|
  {
    if |items| > 1 {
      var rest := items[1..];
      JoinLength(sep, rest);
      assert Join(sep, items) == items[0] + sep + Join(sep, rest);
      assert rest[|rest| - 1] == items[|items| - 1];
      assert JoinOffset(sep, items, |items| - 1) == |items[0]| + |sep| + JoinOffset(sep, rest, |rest| - 1);
    }
  }
}
