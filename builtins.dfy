/** The Python built-ins the handler relies on, restricted to ASCII text:
    `str.isalpha`, `str.lower` and `int(str)`. `int(str)` is modelled as a
    partial parse: `None` where Python raises `ValueError`. */
module Builtins {
  import opened Wrappers

  predicate IsDigit(c: char) { '0' <= c <= '9' }

  predicate IsLetter(c: char) { 'a' <= c <= 'z' || 'A' <= c <= 'Z' }

  /** The ASCII whitespace `int()` skips around a number: space, tab, line
      feed, vertical tab, form feed and carriage return. The separators
      0x1C..0x1F, which `str.isspace` also accepts, are not skipped. */
  predicate IsSpace(c: char) { c == ' ' || '\t' <= c <= '\r' }

  predicate IsSign(c: char) { c == '+' || c == '-' }

  // ---------------------------------------------------------------------
  // str.isalpha

  /** `s.isalpha()`: at least one character, and every character a letter.
      The empty text fails, and text that passes has no digit, no
      whitespace and no underscore in it. */
  predicate IsAlpha(s: string)
    ensures s == [] ==> !IsAlpha(s)
    ensures IsAlpha(s) ==> forall i :: 0 <= i < |s| ==> !IsDigit(s[i]) && !IsSpace(s[i]) && s[i] != '_'
  {
    |s| > 0 && forall i :: 0 <= i < |s| ==> IsLetter(s[i])
  }

  // ---------------------------------------------------------------------
  // str.lower

  function LowerChar(c: char): (r: char)
    ensures 'A' <= c <= 'Z' ==> 'a' <= r <= 'z' && r as int - c as int == 32
    ensures !('A' <= c <= 'Z') ==> r == c
  {
    if 'A' <= c <= 'Z' then (c as int + 32) as char else c
  }

  /** `s.lower()`: every upper-case letter replaced by its lower-case form,
      nothing else changed. */
  function Lower(s: string): (r: string)
    ensures |r| == |s|
    ensures forall i :: 0 <= i < |s| ==> r[i] == LowerChar(s[i])
  {
    if s == [] then [] else [LowerChar(s[0])] + Lower(s[1..])
  }

  /** Two strings are equal ignoring case when they have the same length and
      agree character by character after lowering. */
  predicate EqualIgnoringCase(s: string, t: string) {
    |s| == |t| && forall i :: 0 <= i < |s| ==> LowerChar(s[i]) == LowerChar(t[i])
  }

  /** `s.lower() == w` for a word `w` that is already lower case holds exactly
      when `s` equals `w` ignoring case. */
  lemma LowerEqualsWord(s: string, w: string)
    requires Lower(w) == w
    ensures Lower(s) == w <==> EqualIgnoringCase(s, w)
  {
  }

  // ---------------------------------------------------------------------
  // Substrings, for stating what a message mentions

  /** `t` occurs in `s` as a contiguous piece. The handler itself never
      tests for a substring; this only states what its texts contain. */
  predicate Contains(s: string, t: string) {
    exists i :: 0 <= i <= |s| && t <= s[i..]
  }

  lemma ContainsEnd(a: string, t: string)
    ensures Contains(a + t, t)
  {
    assert (a + t)[|a|..] == t;
  }

  lemma ContainsExtended(s: string, t: string, b: string)
    requires Contains(s, t)
    ensures Contains(s + b, t)
  {
    var i :| 0 <= i <= |s| && t <= s[i..];
    assert (s + b)[i..] == s[i..] + b;
  }

  // ---------------------------------------------------------------------
  // int(str)

  /** `s` without its leading whitespace. */
  function TrimLeft(s: string): (r: string)
    ensures |r| <= |s| && r == s[|s| - |r|..]
    ensures forall i :: 0 <= i < |s| - |r| ==> IsSpace(s[i])
    ensures r != [] ==> !IsSpace(r[0])
  {
    if s != [] && IsSpace(s[0]) then
      var r := TrimLeft(s[1..]);
      assert s[1..][|s| - 1 - |r|..] == s[|s| - |r|..];
      r
    else s
  }

  /** `s` without its trailing whitespace. */
  function TrimRight(s: string): (r: string)
    ensures |r| <= |s| && r == s[..|r|]
    ensures forall i :: |r| <= i < |s| ==> IsSpace(s[i])
    ensures r != [] ==> !IsSpace(r[|r| - 1])
  {
    if s != [] && IsSpace(s[|s| - 1]) then TrimRight(s[..|s| - 1]) else s
  }

  function Strip(s: string): string {
    TrimRight(TrimLeft(s))
  }

  predicate NoDoubleUnderscore(s: string) {
    forall i :: 0 <= i < |s| - 1 ==> !(s[i] == '_' && s[i + 1] == '_')
  }

  /** Decimal digits, optionally grouped by single underscores: starts and
      ends with a digit, holds only digits and underscores, and never two
      underscores in a row. */
  predicate IsDigitGroups(s: string) {
    |s| > 0 && IsDigit(s[0]) && IsDigit(s[|s| - 1]) &&
    DigitsOrUnderscores(s) && NoDoubleUnderscore(s)
  }

  predicate DigitsOrUnderscores(s: string) {
    forall i :: 0 <= i < |s| ==> IsDigit(s[i]) || s[i] == '_'
  }

  predicate AllDigits(s: string) {
    forall i :: 0 <= i < |s| ==> IsDigit(s[i])
  }

  /** The digits of `s`, in order, with the underscores left out. */
  function WithoutUnderscores(s: string): (r: string)
    ensures |r| <= |s|
    ensures DigitsOrUnderscores(s) ==> AllDigits(r)
    ensures AllDigits(s) ==> r == s
  {
    if s == [] then []
    else (if s[0] == '_' then [] else [s[0]]) + WithoutUnderscores(s[1..])
  }

  function DigitValue(c: char): nat
    requires IsDigit(c)
  {
    c as int - '0' as int
  }

  /** The number a string of decimal digits denotes, most significant first. */
  function DecimalValue(s: string): nat
    requires AllDigits(s)
  {
    if s == [] then 0 else 10 * DecimalValue(s[..|s| - 1]) + DigitValue(s[|s| - 1])
  }

  function GroupsValue(s: string): nat
    requires IsDigitGroups(s)
  {
    DecimalValue(WithoutUnderscores(s))
  }

  /** Python's `int(s)` on a string: surrounding whitespace is ignored, then
      an optional sign and underscore-grouped decimal digits. `None` stands
      for the `ValueError` Python raises on anything else. */
  function IntOf(s: string): (r: Option<int>)
    ensures r.Some? ==> var t := Strip(s); |t| > 0 && IsDigit(t[|t| - 1]) && (r.value < 0 ==> t[0] == '-')
  {
    SignedGroupsValue(Strip(s))
  }

  /** An optional sign followed by underscore-grouped digits. */
  function SignedGroupsValue(t: string): Option<int> {
    if |t| > 0 && IsSign(t[0]) then
      if IsDigitGroups(t[1..]) then
        var magnitude: int := GroupsValue(t[1..]);
        Some(if t[0] == '-' then -magnitude else magnitude)
      else None
    else if IsDigitGroups(t) then Some(GroupsValue(t))
    else None
  }

  // ---------------------------------------------------------------------
  // Decimal rendering, the partner of IntOf

  function DigitChar(d: nat): (c: char)
    requires d < 10
    ensures IsDigit(c) && DigitValue(c) == d
  {
    ('0' as int + d) as char
  }

  /** The decimal form of `n`, without leading zeros. */
  function ShowNat(n: nat): (r: string)
    ensures |r| > 0 && AllDigits(r)
  {
    if n < 10 then [DigitChar(n)] else ShowNat(n / 10) + [DigitChar(n % 10)]
  }

  /** The decimal form of `n`, as Python's `str(n)` writes it. */
  function ShowInt(n: int): (r: string)
    ensures |r| > 0 && !IsSpace(r[0]) && IsDigit(r[|r| - 1])
    ensures IsSign(r[0]) <==> n < 0
  {
    if n < 0 then "-" + ShowNat(-n) else ShowNat(n)
  }

  lemma {:induction false} DecimalValueOfShowNat(n: nat)
    ensures DecimalValue(ShowNat(n)) == n
  {
    if n >= 10 {
      var s := ShowNat(n);
      assert s[..|s| - 1] == ShowNat(n / 10);
      DecimalValueOfShowNat(n / 10);
    }
  }

  lemma StripUnpadded(s: string)
    requires |s| > 0 && !IsSpace(s[0]) && !IsSpace(s[|s| - 1])
    ensures Strip(s) == s
  {
  }

  /** Appending a digit multiplies the value by ten and adds the digit. */
  lemma DecimalValueSnoc(s: string, c: char)
    requires AllDigits(s) && IsDigit(c)
    ensures AllDigits(s + [c]) && DecimalValue(s + [c]) == 10 * DecimalValue(s) + DigitValue(c)
  {
    assert (s + [c])[..|s|] == s;
  }

  lemma {:induction false} WithoutUnderscoresAppend(x: string, y: string)
    ensures WithoutUnderscores(x + y) == WithoutUnderscores(x) + WithoutUnderscores(y)
  {
    if x == [] {
      assert x + y == y;
    } else {
      var head := if x[0] == '_' then [] else [x[0]];
      assert (x + y)[0] == x[0] && (x + y)[1..] == x[1..] + y;
      WithoutUnderscoresAppend(x[1..], y);
      calc {
        WithoutUnderscores(x + y);
        head + WithoutUnderscores(x[1..] + y);
        head + (WithoutUnderscores(x[1..]) + WithoutUnderscores(y));
        (head + WithoutUnderscores(x[1..])) + WithoutUnderscores(y);
        WithoutUnderscores(x) + WithoutUnderscores(y);
      }
    }
  }

  /** An underscore between two runs of digits is ignored:
      `int("1_000") == int("1000") == 1000`. */
  lemma IntOfGrouped(a: string, b: string)
    requires |a| > 0 && |b| > 0 && AllDigits(a) && AllDigits(b)
    ensures IntOf(a + "_" + b) == IntOf(a + b) == Some(DecimalValue(a + b))
  {
    var s := a + "_" + b;
    GroupedDigits(a, b);
    StripUnpadded(s);
    assert !IsSign(s[0]);
    IntOfDigits(a + b);
  }

  lemma GroupedDigits(a: string, b: string)
    requires |a| > 0 && |b| > 0 && AllDigits(a) && AllDigits(b)
    ensures IsDigitGroups(a + "_" + b) && WithoutUnderscores(a + "_" + b) == a + b
  {
    GroupedShape(a, b);
    assert WithoutUnderscores("_") == [];
    WithoutUnderscoresAppend(a, "_");
    assert WithoutUnderscores(a + "_") == a + [] == a;
    WithoutUnderscoresAppend(a + "_", b);
  }

  lemma GroupedShape(a: string, b: string)
    requires |a| > 0 && |b| > 0 && AllDigits(a) && AllDigits(b)
    ensures IsDigitGroups(a + "_" + b)
  {
    var s := a + "_" + b;
    forall i | 0 <= i < |s|
      ensures IsDigit(s[i]) == (i != |a|) && (i == |a| ==> s[i] == '_')
    {
      if i < |a| {
        assert s[i] == a[i];
      } else if i > |a| {
        assert s[i] == b[i - |a| - 1];
      }
    }
  }

  /** A plain run of digits parses to the number it denotes. */
  lemma IntOfDigits(s: string)
    requires |s| > 0 && AllDigits(s)
    ensures IntOf(s) == Some(DecimalValue(s))
  {
    StripUnpadded(s);
    assert !IsSign(s[0]);
    assert IsDigitGroups(s);
    assert GroupsValue(s) == DecimalValue(s);
  }

  /** Every integer survives rendering and parsing back. */
  lemma IntOfShowInt(n: int)
    ensures IntOf(ShowInt(n)) == Some(n)
  {
    var s := ShowInt(n);
    StripUnpadded(s);
    var digits := if n < 0 then s[1..] else s;
    var m: nat := if n < 0 then -n else n;
    assert digits == ShowNat(m);
    assert IsDigitGroups(digits);
    DecimalValueOfShowNat(m);
  }

  // ---------------------------------------------------------------------
  // Whitespace around the digits does not matter

  predicate AllSpace(s: string) {
    forall i :: 0 <= i < |s| ==> IsSpace(s[i])
  }

  lemma {:induction false} TrimLeftSkipsSpace(p: string, s: string)
    requires AllSpace(p)
    ensures TrimLeft(p + s) == TrimLeft(s)
  {
    if p == [] {
      assert p + s == s;
    } else {
      assert (p + s)[0] == p[0] && IsSpace(p[0]);
      assert (p + s)[1..] == p[1..] + s;
      TrimLeftSkipsSpace(p[1..], s);
    }
  }

  lemma {:induction false} TrimRightSkipsSpace(s: string, q: string)
    requires AllSpace(q)
    ensures TrimRight(s + q) == TrimRight(s)
  {
    if q == [] {
      assert s + q == s;
    } else {
      var n := |q| - 1;
      assert (s + q)[|s + q| - 1] == q[n] && IsSpace(q[n]);
      assert (s + q)[..|s + q| - 1] == s + q[..n];
      TrimRightSkipsSpace(s, q[..n]);
    }
  }

  /** Trailing whitespace does not change what is left after trimming on
      the left, apart from being carried along. */
  lemma {:induction false} TrimLeftThenSpace(s: string, q: string)
    requires AllSpace(q)
    ensures TrimRight(TrimLeft(s + q)) == TrimRight(TrimLeft(s))
  {
    var l := TrimLeft(s);
    var k := |s| - |l|;
    assert AllSpace(s[..k]);
    if l == [] {
      assert s == s[..k];
      assert AllSpace(s + q);
      AllSpaceTrimsToEmpty(s + q);
    } else {
      assert s == s[..k] + l;
      assert s + q == s[..k] + (l + q);
      TrimLeftSkipsSpace(s[..k], l + q);
      TrimLeftUnpadded(l + q);
      TrimRightSkipsSpace(l, q);
    }
  }

  lemma TrimLeftUnpadded(s: string)
    requires s != [] && !IsSpace(s[0])
    ensures TrimLeft(s) == s
  {
  }

  lemma AllSpaceTrimsToEmpty(s: string)
    requires AllSpace(s)
    ensures TrimLeft(s) == []
  {
  }

  /** `int()` ignores whitespace on either side of its argument. */
  lemma {:induction false} IntOfPadded(p: string, s: string, q: string)
    requires AllSpace(p) && AllSpace(q)
    ensures IntOf(p + s + q) == IntOf(s)
  {
    TrimLeftSkipsSpace(p, s + q);
    assert p + s + q == p + (s + q);
    TrimLeftThenSpace(s, q);
    assert Strip(p + s + q) == Strip(s);
  }

  // ---------------------------------------------------------------------
  // Text that is not a number

  /** Stripping leaves a window of the text that reaches from the first
      character that is not whitespace to the last. */
  lemma StripWindow(s: string, i: nat) returns (off: nat)
    requires i < |s| && !IsSpace(s[i])
    ensures off == |s| - |TrimLeft(s)|
    ensures off <= i < off + |Strip(s)|
    ensures forall m :: 0 <= m < |Strip(s)| ==> Strip(s)[m] == s[off + m]
  {
    var l := TrimLeft(s);
    off := TrimLeftKeeps(s, i);
    TrimRightKeeps(l, i - off);
    var t := TrimRight(l);
    forall m | 0 <= m < |t|
      ensures t[m] == s[off + m]
    {
      assert t[m] == l[m];
    }
  }

  lemma TrimLeftKeeps(s: string, i: nat) returns (off: nat)
    requires i < |s| && !IsSpace(s[i])
    ensures off == |s| - |TrimLeft(s)| && off <= i
    ensures TrimLeft(s) == s[off..] && TrimLeft(s)[i - off] == s[i]
  {
    off := |s| - |TrimLeft(s)|;
  }

  lemma TrimRightKeeps(s: string, i: nat)
    requires i < |s| && !IsSpace(s[i])
    ensures i < |TrimRight(s)| && TrimRight(s) == s[..|TrimRight(s)|]
  {
  }

  /** Stripping keeps everything from one character that is not whitespace
      to another, at the same distance from each other. */
  lemma StripKeeps(s: string, i: nat, j: nat, k: nat) returns (m: nat)
    requires i <= j <= k < |s| && !IsSpace(s[i]) && !IsSpace(s[k])
    ensures m + |s| - |TrimLeft(s)| == j
    ensures m < |Strip(s)| && Strip(s)[m] == s[j]
  {
    var off := StripWindow(s, k);
    var first := TrimLeftKeeps(s, i);
    m := j - off;
    assert Strip(s)[m] == s[off + m];
  }

  /** Text that, once stripped, is neither digit groups nor a sign followed
      by digit groups is not a number. */
  lemma NotNumeral(s: string)
    requires var t := Strip(s); !IsDigitGroups(t) && !(|t| > 0 && IsSign(t[0]) && IsDigitGroups(t[1..]))
    ensures IntOf(s) == None
  {
  }

  /** A character that is neither a digit nor `_`, and not a sign at the
      very start, rules out both forms of a number. */
  lemma NotNumeralAt(t: string, k: nat)
    requires k < |t| && !IsDigit(t[k]) && t[k] != '_' && (k == 0 ==> !IsSign(t[k]))
    ensures !IsDigitGroups(t) && !(|t| > 0 && IsSign(t[0]) && IsDigitGroups(t[1..]))
  {
    if |t| > 0 && IsSign(t[0]) {
      assert t[1..][k - 1] == t[k];
    }
  }

  /** Two underscores in a row rule out both forms of a number. */
  lemma NotNumeralAtPair(t: string, k: nat)
    requires k + 1 < |t| && t[k] == '_' && t[k + 1] == '_'
    ensures !IsDigitGroups(t) && !(|t| > 0 && IsSign(t[0]) && IsDigitGroups(t[1..]))
  {
    if |t| > 0 && IsSign(t[0]) {
      assert t[1..][k - 1] == t[k] && t[1..][k] == t[k + 1];
    }
  }

  /** A character that is neither whitespace, a sign, a digit nor an
      underscore anywhere in the text makes `int()` raise `ValueError`. */
  lemma ForeignCharRejected(s: string, i: nat)
    requires i < |s|
    requires !IsSpace(s[i]) && !IsSign(s[i]) && !IsDigit(s[i]) && s[i] != '_'
    ensures IntOf(s) == None
  {
    var m := StripKeeps(s, i, i, i);
    NotNumeralAt(Strip(s), m);
    NotNumeral(s);
  }

  /** The separators 0x1C..0x1F are not whitespace to `int()`: text holding
      one, even in front of the digits, makes `int()` raise. */
  lemma SeparatorRejected(s: string, i: nat)
    requires i < |s| && '\U{1C}' <= s[i] <= '\U{1F}'
    ensures IntOf(s) == None
  {
    ForeignCharRejected(s, i);
  }

  /** Blank text, the empty string included, makes `int()` raise. */
  lemma BlankRejected(s: string)
    requires AllSpace(s)
    ensures IntOf(s) == None
  {
    AllSpaceTrimsToEmpty(s);
  }

  /** A sign with no digits after it makes `int()` raise. */
  lemma LoneSignRejected(p: string, c: char, q: string)
    requires AllSpace(p) && AllSpace(q) && IsSign(c)
    ensures IntOf(p + [c] + q) == None
  {
    IntOfPadded(p, [c], q);
    StripUnpadded([c]);
  }

  /** Two underscores in a row make `int()` raise. */
  lemma DoubleUnderscoreRejected(s: string, i: nat)
    requires i + 1 < |s| && s[i] == '_' && s[i + 1] == '_'
    ensures IntOf(s) == None
  {
    var m := StripKeeps(s, i, i, i + 1);
    var m' := StripKeeps(s, i, i + 1, i + 1);
    NotNumeralAtPair(Strip(s), m);
    NotNumeral(s);
  }

  /** Whitespace between two other characters, as in `"12 34"`, makes
      `int()` raise: only the whitespace around the number is ignored. */
  lemma InnerSpaceRejected(s: string, i: nat, j: nat, k: nat)
    requires i < j < k < |s|
    requires !IsSpace(s[i]) && IsSpace(s[j]) && !IsSpace(s[k])
    ensures IntOf(s) == None
  {
    var m := StripKeeps(s, i, j, k);
    NotNumeralAt(Strip(s), m);
    NotNumeral(s);
  }
}
