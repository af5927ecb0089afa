/** The string operations of Python's `str` that the core relies on: `strip`, `rstrip`,
    `lower`, `startswith`, `in`, and the decimal text of integers. */
module Text {
  import opened Base

  /** Python's `str.isspace()` for one character. */
  predicate IsSpace(c: char) {
    || ('\t' <= c <= '\r')
    || ('\U{1C}' <= c <= '\U{1F}')
    || c == ' ' || c == '\U{85}' || c == '\U{A0}' || c == '\U{1680}'
    || ('\U{2000}' <= c <= '\U{200A}')
    || c == '\U{2028}' || c == '\U{2029}' || c == '\U{202F}' || c == '\U{205F}' || c == '\U{3000}'
  }

  /** The whitespace `int()` skips around a numeral: that of `str.isspace()` except the ASCII
      separators U+001C to U+001F, which `int()` keeps, and then rejects as not a digit. */
  predicate IsIntSpace(c: char) {
    IsSpace(c) && !('\U{1C}' <= c <= '\U{1F}')
  }

  predicate AllSpace(s: string) {
    forall i :: 0 <= i < |s| ==> IsSpace(s[i])
  }

  /** `s` is `p` followed by something: Python's `s.startswith(p)`. */
  predicate StartsWith(s: string, p: string) {
    |p| <= |s| && s[..|p|] == p
  }

  /** `s` is something followed by `p`: Python's `s.endswith(p)`. */
  predicate EndsWith(s: string, p: string) {
    |p| <= |s| && s[|s| - |p|..] == p
  }

  /** `sub` occurs in `s`: Python's `sub in s` for two strings. */
  predicate IsInfix(sub: string, s: string)
    decreases |s|
  {
    StartsWith(s, sub) || (|s| > 0 && IsInfix(sub, s[1..]))
  }

  /** A string occurs in any string that has it at some position. */
  lemma {:induction false} InfixAt(sub: string, s: string, i: nat)
    requires i <= |s| && StartsWith(s[i..], sub)
    ensures IsInfix(sub, s)
    decreases i
  {
    if i == 0 {
      assert s[0..] == s;
    } else {
      assert s[1..][i - 1..] == s[i..];
      InfixAt(sub, s[1..], i - 1);
    }
  }

  /** A concatenation begins with its first part and ends with its second. */
  lemma AppendParts(a: string, b: string)
    ensures StartsWith(a + b, a) && EndsWith(a + b, b)
  {
    assert (a + b)[..|a|] == a;
    assert (a + b)[|a|..] == b;
  }

  /** Appending keeps every prefix. */
  lemma StartsWithAppend(s: string, p: string, b: string)
    requires StartsWith(s, p)
    ensures StartsWith(s + b, p)
  {
    assert (s + b)[..|p|] == s[..|p|];
  }

  /** What ends a prefix of `s` occurs in `s`. */
  lemma InfixAtEnd(sub: string, p: string, s: string)
    requires StartsWith(s, p) && EndsWith(p, sub)
    ensures IsInfix(sub, s)
  {
    var i := |p| - |sub|;
    assert s[i..][..|sub|] == p[i..];
    InfixAt(sub, s, i);
  }

  /** The suffix left after dropping the leading characters of the class `space`; with
      `IsSpace` this is Python's `s.lstrip()`. */
  function LStrip(s: string, space: char -> bool): (r: string)
    ensures |r| <= |s| && r == s[|s| - |r|..]
    ensures forall i :: 0 <= i < |s| - |r| ==> space(s[i])
    ensures r == [] || !space(r[0])
  {
    if |s| > 0 && space(s[0]) then
      var r := LStrip(s[1..], space);
      assert s[1..][|s| - 1 - |r|..] == s[|s| - |r|..];
      r
    else
      s
  }

  /** The prefix left after dropping the trailing characters of the class `space`; with
      `IsSpace` this is Python's `s.rstrip()`. */
  function RStrip(s: string, space: char -> bool): (r: string)
    ensures |r| <= |s| && r == s[..|r|]
    ensures forall i :: |r| <= i < |s| ==> space(s[i])
    ensures r == [] || !space(r[|r| - 1])
  {
    if |s| > 0 && space(s[|s| - 1]) then
      var r := RStrip(s[..|s| - 1], space);
      assert s[..|s| - 1][..|r|] == s[..|r|];
      r
    else
      s
  }

  /** What is left of `s` once the characters of the class `space` are dropped at both ends. */
  function Trim(s: string, space: char -> bool): (r: string)
    ensures r == [] || (!space(r[0]) && !space(r[|r| - 1]))
  {
    RStrip(LStrip(s, space), space)
  }

  /** Python's `s.strip()`. */
  function Strip(s: string): (r: string)
    ensures r == [] || (!IsSpace(r[0]) && !IsSpace(r[|r| - 1]))
  {
    Trim(s, IsSpace)
  }

  /** The whitespace `int()` drops around its argument before it reads a numeral. */
  function IntStrip(s: string): (r: string)
    ensures r == [] || (!IsIntSpace(r[0]) && !IsIntSpace(r[|r| - 1]))
  {
    Trim(s, IsIntSpace)
  }

  /** Python's `s.rstrip(c)` for one character `c`: the prefix left after dropping every trailing `c`. */
  function RStripChar(s: string, c: char): (r: string)
    ensures |r| <= |s| && r == s[..|r|]
    ensures forall i :: |r| <= i < |s| ==> s[i] == c
    ensures r == [] || r[|r| - 1] != c
  {
    if |s| > 0 && s[|s| - 1] == c then
      var r := RStripChar(s[..|s| - 1], c);
      assert s[..|s| - 1][..|r|] == s[..|r|];
      r
    else
      s
  }

  lemma {:induction false} LStripConcat(s: string, t: string)
    ensures LStrip(s + t, IsSpace) == if AllSpace(s) then LStrip(t, IsSpace) else LStrip(s, IsSpace) + t
  {
    if s == [] {
      assert s + t == t;
    } else {
      assert (s + t)[0] == s[0];
      assert (s + t)[1..] == s[1..] + t;
      if IsSpace(s[0]) {
        LStripConcat(s[1..], t);
        assert AllSpace(s) <==> AllSpace(s[1..]) by {
          if AllSpace(s[1..]) {
            forall i | 0 <= i < |s| ensures IsSpace(s[i]) {
              if i > 0 { assert s[i] == s[1..][i - 1]; }
            }
          }
        }
      }
    }
  }

  lemma {:induction false} RStripConcat(s: string, t: string)
    ensures RStrip(s + t, IsSpace) == if AllSpace(t) then RStrip(s, IsSpace) else s + RStrip(t, IsSpace)
  {
    if t == [] {
      assert s + t == s;
    } else {
      var u := t[..|t| - 1];
      assert (s + t)[|s + t| - 1] == t[|t| - 1];
      assert (s + t)[..|s + t| - 1] == s + u;
      if IsSpace(t[|t| - 1]) {
        RStripConcat(s, u);
        assert AllSpace(t) <==> AllSpace(u) by {
          if AllSpace(u) {
            forall i | 0 <= i < |t| ensures IsSpace(t[i]) {
              if i < |t| - 1 { assert t[i] == u[i]; }
            }
          }
        }
      }
    }
  }

  /** Whitespace around a string does not change what `strip` leaves of it. */
  lemma StripIgnoresPadding(pre: string, s: string, post: string)
    requires AllSpace(pre) && AllSpace(post)
    ensures Strip(pre + s + post) == Strip(s)
  {
    var tail := s + post;
    assert pre + s + post == pre + tail;
    LStripConcat(pre, tail);
    assert LStrip(pre + s + post, IsSpace) == LStrip(tail, IsSpace);
    LStripConcat(s, post);
    if AllSpace(s) {
      LStripConcat(post, []);
      assert post + [] == post;
      assert LStrip(tail, IsSpace) == [];
      LStripConcat(s, []);
      assert s + [] == s;
      assert LStrip(s, IsSpace) == [];
    } else {
      assert LStrip(tail, IsSpace) == LStrip(s, IsSpace) + post;
      RStripConcat(LStrip(s, IsSpace), post);
    }
  }

  /** A string that neither begins nor ends with a character of the class is left as it is. */
  lemma TrimUnchanged(s: string, space: char -> bool)
    requires s == [] || (!space(s[0]) && !space(s[|s| - 1]))
    ensures Trim(s, space) == s
  {
  }

  /** Python's `c.lower()` for one character; only ASCII letters are folded. */
  function LowerChar(c: char): char {
    if 'A' <= c <= 'Z' then (c as int + 32) as char else c
  }

  /** The upper-case partner of an ASCII lower-case letter. */
  function UpperChar(c: char): char
    requires 'a' <= c <= 'z'
  {
    (c as int - 32) as char
  }

  /** Python's `s.lower()`, character by character. */
  function Lower(s: string): (r: string)
    ensures |r| == |s|
    ensures forall i :: 0 <= i < |s| ==> r[i] == LowerChar(s[i])
  {
    if s == [] then [] else [LowerChar(s[0])] + Lower(s[1..])
  }

  predicate IsLowerWord(w: string) {
    forall i :: 0 <= i < |w| ==> 'a' <= w[i] <= 'z'
  }

  /** `s` spells `w` with each letter in either case. */
  predicate SpellsIgnoringCase(s: string, w: string)
    requires IsLowerWord(w)
  {
    |s| == |w| && forall i :: 0 <= i < |s| ==> s[i] == w[i] || s[i] == UpperChar(w[i])
  }

  /** Comparing `s.lower()` with a lower-case word is a case-insensitive comparison. */
  lemma LowerMatchesIgnoringCase(s: string, w: string)
    requires IsLowerWord(w)
    ensures Lower(s) == w <==> SpellsIgnoringCase(s, w)
  {
    if SpellsIgnoringCase(s, w) {
      assert forall i :: 0 <= i < |s| ==> Lower(s)[i] == w[i];
    }
  }

  predicate IsDigit(c: char) {
    '0' <= c <= '9'
  }

  predicate AllDigits(s: string) {
    forall i :: 0 <= i < |s| ==> IsDigit(s[i])
  }

  function DigitChar(d: nat): (c: char)
    requires d < 10
    ensures IsDigit(c)
  {
    ('0' as int + d) as char
  }

  function DigitValue(c: char): (d: nat)
    requires IsDigit(c)
    ensures d < 10 && DigitChar(d) == c
  {
    c as int - '0' as int
  }

  /** The value of a string of decimal digits. */
  function DigitsValue(s: string): nat
    requires AllDigits(s)
  {
    if s == [] then 0 else DigitsValue(s[..|s| - 1]) * 10 + DigitValue(s[|s| - 1])
  }

  /** The decimal digits of `n`, without leading zeros. */
  function NatDigits(n: nat): (r: string)
    ensures |r| > 0 && AllDigits(r)
    ensures |r| > 1 ==> r[0] != '0'
  {
    if n < 10 then [DigitChar(n)] else NatDigits(n / 10) + [DigitChar(n % 10)]
  }

  lemma {:induction false} NatDigitsRoundTrip(n: nat)
    ensures DigitsValue(NatDigits(n)) == n
  {
    if n >= 10 {
      var r := NatDigits(n);
      NatDigitsRoundTrip(n / 10);
      assert r[..|r| - 1] == NatDigits(n / 10);
    }
  }

  /** Decimal digits without a leading zero, unless the number is zero itself. */
  predicate IsCanonicalDigits(d: string) {
    |d| > 0 && AllDigits(d) && (|d| > 1 ==> d[0] != '0')
  }

  /** A numeral as `str()` writes an integer: canonical digits, after a '-' only when they are
      not "0"; never a '+'. */
  predicate IsCanonicalNumeral(s: string) {
    if |s| > 0 && s[0] == '-' then IsCanonicalDigits(s[1..]) && s[1..] != "0"
    else IsCanonicalDigits(s)
  }

  /** Python's `str(i)` for an integer. */
  function Decimal(i: int): (r: string)
    ensures IsCanonicalNumeral(r)
  {
    if i < 0 then
      var r := "-" + NatDigits(-i);
      assert r[1..] == NatDigits(-i);
      NatDigitsRoundTrip(-i);
      r
    else
      NatDigits(i)
  }

  /** The integer an optional sign followed by decimal digits denotes (underscores are not read). */
  function ParseDecimal(s: string): (r: Option<int>)
    // Read: one or more digits, optionally after a single '+' or '-'.
    ensures r.Some? <==>
              (|s| > 0 && AllDigits(s)) || (|s| > 1 && (s[0] == '+' || s[0] == '-') && AllDigits(s[1..]))
    ensures r.Some? && AllDigits(s) ==> r.value == DigitsValue(s)
    ensures r.Some? && s[0] == '+' ==> r.value == DigitsValue(s[1..])
    ensures r.Some? && s[0] == '-' ==> r.value == -(DigitsValue(s[1..]) as int)
    // Only a '-' makes a number negative.
    ensures r.Some? && r.value < 0 ==> s[0] == '-'
  {
    if |s| > 1 && (s[0] == '+' || s[0] == '-') && AllDigits(s[1..]) then
      var n: int := DigitsValue(s[1..]);
      Some(if s[0] == '-' then -n else n)
    else if |s| > 0 && AllDigits(s) then
      Some(DigitsValue(s))
    else
      None
  }

  /** Reading back the decimal text of an integer gives the integer. */
  lemma DecimalRoundTrip(i: int)
    ensures ParseDecimal(Decimal(i)) == Some(i)
  {
    var d := Decimal(i);
    if i < 0 {
      var digits := NatDigits(-i);
      NatDigitsRoundTrip(-i);
      assert d[1..] == digits;
      assert d[0] == '-';
      assert |d| > 1 && AllDigits(d[1..]);
    } else {
      NatDigitsRoundTrip(i);
      assert d[0] != '+' && d[0] != '-' by { assert IsDigit(d[0]); }
    }
  }

  /** The decimal text of an integer has no whitespace at either end, for `strip` or `int()`. */
  lemma DecimalIsStripped(i: int)
    ensures Strip(Decimal(i)) == Decimal(i)
    ensures IntStrip(Decimal(i)) == Decimal(i)
  {
    var d := Decimal(i);
    var last := d[|d| - 1];
    assert IsDigit(last) by {
      if i < 0 { assert last == NatDigits(-i)[|NatDigits(-i)| - 1]; }
    }
    assert !IsSpace(last);
    assert !IsSpace(d[0]) by {
      if i >= 0 { assert IsDigit(d[0]); }
    }
    TrimUnchanged(d, IsSpace);
    TrimUnchanged(d, IsIntSpace);
  }

  /** A digit string that does not start with '0' denotes at least one. */
  lemma {:induction false} LeadingDigitPositive(d: string)
    requires |d| > 0 && AllDigits(d) && d[0] != '0'
    ensures DigitsValue(d) >= 1
    decreases |d|
  {
    if |d| > 1 {
      var init := d[..|d| - 1];
      assert init[0] == d[0];
      LeadingDigitPositive(init);
    }
  }

  /** Canonical digits are the digits of the number they denote. */
  lemma {:induction false} CanonicalDigitsOfValue(d: string)
    requires IsCanonicalDigits(d)
    ensures NatDigits(DigitsValue(d)) == d
    decreases |d|
  {
    if |d| > 1 {
      var init := d[..|d| - 1];
      assert init[0] == d[0];
      LeadingDigitPositive(init);
      CanonicalDigitsOfValue(init);
      var n := DigitsValue(d);
      assert n / 10 == DigitsValue(init) && n % 10 == DigitValue(d[|d| - 1]);
      assert d == init + [d[|d| - 1]];
    }
  }

  /** A canonical numeral is the decimal text of the integer it denotes, so `Decimal` is the only
      canonical numeral that reads back as its argument. */
  lemma CanonicalNumeralIsDecimal(s: string, i: int)
    requires IsCanonicalNumeral(s) && ParseDecimal(s) == Some(i)
    ensures s == Decimal(i)
  {
    if |s| > 0 && s[0] == '-' {
      var d := s[1..];
      CanonicalDigitsOfValue(d);
      if DigitsValue(d) == 0 {
        assert false;
      }
      assert s == "-" + d;
    } else {
      assert s[0] != '+' by { assert IsDigit(s[0]); }
      CanonicalDigitsOfValue(s);
    }
  }

  /** Two integers have the same decimal text only if they are equal. */
  lemma DecimalInjective(i: int, j: int)
    requires Decimal(i) == Decimal(j)
    ensures i == j
  {
    DecimalRoundTrip(i);
    DecimalRoundTrip(j);
  }

  lemma DecimalOne()
    ensures Decimal(1) == "1"
  {
  }
}
