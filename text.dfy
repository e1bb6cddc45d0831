/** The handful of Python `str` operations the analyzers rely on, written out over `seq<char>`:
    `strip`, `isdigit`, `int`, `lower`, `in` (substring), `split`, `count` and `<` (ordering). */
module Text {
  import opened Wrappers

  // ---------------------------------------------------------------------------------------------
  // Whitespace and str.strip()

  /** `c.isspace()`: the characters Python treats as whitespace. */
  predicate IsSpace(c: char) {
    || c == ' ' || c == '\t' || c == '\n' || c == '\r' || c == '\U{0B}' || c == '\U{0C}'
    || c == '\U{1C}' || c == '\U{1D}' || c == '\U{1E}' || c == '\U{1F}' || c == '\U{85}'
    || c == '\U{A0}' || c == '\U{1680}' || ('\U{2000}' <= c <= '\U{200A}')
    || c == '\U{2028}' || c == '\U{2029}' || c == '\U{202F}' || c == '\U{205F}' || c == '\U{3000}'
  }

  /** True when `s` is empty or made only of whitespace (`not s.strip()`). */
  predicate IsBlank(s: string) {
    forall i :: 0 <= i < |s| ==> IsSpace(s[i])
  }

  /** `s.lstrip()`. */
  function StripLeft(s: string): string {
    if s != [] && IsSpace(s[0]) then StripLeft(s[1..]) else s
  }

  /** `s.rstrip()`. */
  function StripRight(s: string): string {
    if s != [] && IsSpace(s[|s| - 1]) then StripRight(s[..|s| - 1]) else s
  }

  /** `lstrip` removes exactly a blank prefix and stops at the first non-whitespace character. */
  lemma {:induction false} StripLeftSpec(s: string)
    ensures var r := StripLeft(s);
      && (r == [] || !IsSpace(r[0]))
      && |r| <= |s| && r == s[|s| - |r|..]
      && IsBlank(s[..|s| - |r|])
  {
    if s != [] && IsSpace(s[0]) {
      StripLeftSpec(s[1..]);
      var r := StripLeft(s[1..]);
      assert s[1..][..|s| - 1 - |r|] == s[1..|s| - |r|];
    }
  }

  /** `rstrip` removes exactly a blank suffix and stops at the last non-whitespace character. */
  lemma {:induction false} StripRightSpec(s: string)
    ensures var r := StripRight(s);
      && (r == [] || !IsSpace(r[|r| - 1]))
      && |r| <= |s| && r == s[..|r|]
      && IsBlank(s[|r|..])
  {
    if s != [] && IsSpace(s[|s| - 1]) {
      StripRightSpec(s[..|s| - 1]);
      var r := StripRight(s[..|s| - 1]);
      assert s[|r|..] == s[..|s| - 1][|r|..] + [s[|s| - 1]];
    }
  }

  /** `s.strip()`: leading and trailing whitespace removed. */
  function Strip(s: string): (r: string)
  {
    StripRight(StripLeft(s))
  }

  /** A stripped string is empty exactly when the input was blank, and otherwise it neither starts
      nor ends with whitespace. */
  lemma StripSpec(s: string)
    ensures Strip(s) == [] <==> IsBlank(s)
    ensures Strip(s) != [] ==> !IsSpace(Strip(s)[0]) && !IsSpace(Strip(s)[|Strip(s)| - 1])
  {
    var l := StripLeft(s);
    var r := StripRight(l);
    StripLeftSpec(s);
    StripRightSpec(l);
    if r == [] {
      assert IsBlank(l) by { assert l[|r|..] == l; }
      BlankConcat(s[..|s| - |l|], l);
      assert s[..|s| - |l|] + l == s;
    } else {
      assert r[0] == l[0] == s[|s| - |l|];
    }
  }

  lemma BlankConcat(a: string, b: string)
    requires IsBlank(a) && IsBlank(b)
    ensures IsBlank(a + b)
  {
    forall i | 0 <= i < |a + b| ensures IsSpace((a + b)[i]) {
      if i < |a| { assert (a + b)[i] == a[i]; } else { assert (a + b)[i] == b[i - |a|]; }
    }
  }

  // ---------------------------------------------------------------------------------------------
  // Digits and int()

  predicate IsDigit(c: char) {
    '0' <= c <= '9'
  }

  /** `s.isdigit()` over ASCII: non-empty and all decimal digits. */
  predicate IsDigits(s: string) {
    |s| > 0 && forall i :: 0 <= i < |s| ==> IsDigit(s[i])
  }

  /** The value of a run of decimal digits. */
  function DigitsValue(s: string): nat
    requires forall i :: 0 <= i < |s| ==> IsDigit(s[i])
  {
    if s == [] then 0
    else
      assert IsDigit(s[|s| - 1]);
      10 * DigitsValue(s[..|s| - 1]) + (s[|s| - 1] as int - '0' as int)
  }

  /** Digits with single underscores between them, as Python integer literals allow ("1_000"). */
  predicate IsUnderscoredDigits(s: string) {
    && |s| > 0 && IsDigit(s[0]) && IsDigit(s[|s| - 1])
    && (forall i :: 0 <= i < |s| ==> IsDigit(s[i]) || s[i] == '_')
    && NoDoubleUnderscore(s)
  }

  predicate NoDoubleUnderscore(s: string) {
    |s| < 2 || (!(s[0] == '_' && s[1] == '_') && NoDoubleUnderscore(s[1..]))
  }

  lemma {:induction false} DigitsNoUnderscore(s: string)
    requires forall i :: 0 <= i < |s| ==> IsDigit(s[i])
    ensures NoDoubleUnderscore(s)
  {
    if |s| >= 2 {
      DigitsNoUnderscore(s[1..]);
    }
  }

  function RemoveUnderscores(s: string): (r: string)
    requires forall i :: 0 <= i < |s| ==> IsDigit(s[i]) || s[i] == '_'
    ensures forall i :: 0 <= i < |r| ==> IsDigit(r[i])
    ensures |r| <= |s|
  {
    if s == [] then []
    else
      var r := RemoveUnderscores(s[..|s| - 1]);
      if s[|s| - 1] == '_' then r else r + [s[|s| - 1]]
  }

  /** The unsigned part of `int(s)`: digits, optionally grouped by underscores. */
  function ParseNat(s: string): (r: Option<nat>)
    ensures r.Some? <==> IsUnderscoredDigits(s)
  {
    if IsUnderscoredDigits(s) then Some(DigitsValue(RemoveUnderscores(s))) else None
  }

  /** Python's `int(s)` on a string: surrounding whitespace is ignored, one optional sign, then
      digits (underscores allowed between digits). `None` is the `ValueError` case. */
  function ParseInt(s: string): (r: Option<int>)
  {
    ParseSigned(Strip(s))
  }

  /** `int` of an already stripped string. */
  function ParseSigned(t: string): (r: Option<int>)
  {
    if |t| > 0 && t[0] == '-' then
      var n := ParseNat(t[1..]);
      if n.Some? then Some(0 - n.value) else None
    else if |t| > 0 && t[0] == '+' then
      var n := ParseNat(t[1..]);
      if n.Some? then Some(n.value) else None
    else
      var n := ParseNat(t);
      if n.Some? then Some(n.value) else None
  }

  /** `str(n)` for a natural number. */
  function ShowNat(n: nat): (r: string)
    ensures IsDigits(r)
  {
    if n < 10 then [('0' as int + n) as char]
    else ShowNat(n / 10) + [('0' as int + n % 10) as char]
  }

  /** `str(n)` for an integer. */
  function Show(n: int): string {
    if n < 0 then "-" + ShowNat(-n) else ShowNat(n)
  }

  lemma {:induction false} ShowNatValue(n: nat)
    ensures DigitsValue(ShowNat(n)) == n
  {
    if n >= 10 {
      ShowNatValue(n / 10);
      var s := ShowNat(n);
      assert s[..|s| - 1] == ShowNat(n / 10);
    }
  }

  lemma {:induction false} NoUnderscoreUnchanged(s: string)
    requires forall i :: 0 <= i < |s| ==> IsDigit(s[i])
    ensures RemoveUnderscores(s) == s
  {
    if s != [] {
      var p := s[..|s| - 1];
      NoUnderscoreUnchanged(p);
      assert s == p + [s[|s| - 1]];
    }
  }

  /** A string of plain digits parses to its value. */
  lemma ParseNatDigits(d: string)
    requires IsDigits(d)
    ensures ParseNat(d) == Some(DigitsValue(d))
  {
    NoUnderscoreUnchanged(d);
    DigitsNoUnderscore(d);
  }

  /** A string that neither starts nor ends with whitespace is its own `strip()`. */
  lemma StripUnchanged(s: string)
    requires s != [] && !IsSpace(s[0]) && !IsSpace(s[|s| - 1])
    ensures Strip(s) == s
  {
    assert StripLeft(s) == s;
  }

  /** `int` of plain digits. */
  lemma ParseIntDigits(d: string)
    requires IsDigits(d)
    ensures ParseInt(d) == Some(DigitsValue(d))
  {
    ParseNatDigits(d);
    assert IsDigit(d[0]) && IsDigit(d[|d| - 1]);
    StripUnchanged(d);
  }

  /** A minus sign followed by digits has nothing to strip. */
  lemma StripNegDigits(d: string)
    requires IsDigits(d)
    ensures Strip("-" + d) == "-" + d
  {
    var s := "-" + d;
    assert IsDigit(d[|d| - 1]);
    assert s[0] == '-' && s[|s| - 1] == d[|d| - 1];
    StripUnchanged(s);
  }

  /** `int()` of a minus sign and an accepted magnitude, with nothing to strip, negates it. */
  lemma ParseIntMinus(s: string, d: string, v: nat)
    requires s == "-" + d && Strip(s) == s && ParseNat(d) == Some(v)
    ensures ParseInt(s) == Some(0 - v)
  {
    assert s[1..] == d;
  }

  /** A character that is neither a digit nor an underscore, inside a string without surrounding
      whitespace and without a sign, makes `int()` fail. */
  lemma ParseIntRejects(s: string, k: nat)
    requires k < |s| && !IsSpace(s[0]) && !IsSpace(s[|s| - 1]) && s[0] != '-' && s[0] != '+'
    requires !IsDigit(s[k]) && s[k] != '_'
    ensures ParseInt(s) == None
  {
    StripUnchanged(s);
  }

  /** Round trip: `int(str(n)) == n` for every integer. */
  lemma ParseShow(n: int)
    ensures ParseInt(Show(n)) == Some(n)
  {
    if n < 0 {
      var d := ShowNat(-n);
      ShowNatValue(-n);
      ParseNatDigits(d);
      StripNegDigits(d);
      ParseIntMinus(Show(n), d, -n);
    } else {
      ShowNatValue(n);
      ParseIntDigits(ShowNat(n));
    }
  }

  // ---------------------------------------------------------------------------------------------
  // Substrings, case, splitting

  /** `pre` is a prefix of `s` (`s.startswith(pre)`). */
  predicate StartsWith(s: string, pre: string) {
    |pre| <= |s| && s[..|pre|] == pre
  }

  /** `suf` is a suffix of `s` (`s.endswith(suf)`). */
  predicate EndsWith(s: string, suf: string) {
    |suf| <= |s| && s[|s| - |suf|..] == suf
  }

  /** `sub in s` for strings. */
  predicate Contains(s: string, sub: string) {
    StartsWith(s, sub) || (s != [] && Contains(s[1..], sub))
  }

  /** A string contains each of its own prefixes shifted to any position. */
  lemma {:induction false} ContainsAt(s: string, sub: string, i: nat)
    requires i + |sub| <= |s| && s[i..i + |sub|] == sub
    ensures Contains(s, sub)
  {
    if i > 0 {
      assert s[1..][i - 1..i - 1 + |sub|] == s[i..i + |sub|];
      ContainsAt(s[1..], sub, i - 1);
    }
  }

  /** `s.replace(pat, "")`: every occurrence of `pat`, scanning left to right without overlaps,
      removed. */
  function RemoveAll(s: string, pat: string): string
    requires pat != []
  {
    if s == [] then []
    else if StartsWith(s, pat) then RemoveAll(s[|pat|..], pat)
    else [s[0]] + RemoveAll(s[1..], pat)
  }

  /** Removing a pattern from a string that does not contain it changes nothing. */
  lemma {:induction false} RemoveAllAbsent(s: string, pat: string)
    requires pat != [] && !Contains(s, pat)
    ensures RemoveAll(s, pat) == s
  {
    if s != [] {
      RemoveAllAbsent(s[1..], pat);
      assert s == [s[0]] + s[1..];
    }
  }

  /** A leading occurrence is removed together with whatever the rest loses. */
  lemma RemoveAllPrefix(pat: string, x: string)
    requires pat != []
    ensures RemoveAll(pat + x, pat) == RemoveAll(x, pat)
  {
    assert (pat + x)[..|pat|] == pat;
    assert (pat + x)[|pat|..] == x;
  }

  function LowerChar(c: char): char {
    if 'A' <= c <= 'Z' then (c as int + 32) as char else c
  }

  /** `s.lower()` on ASCII letters. */
  function Lower(s: string): (r: string)
    ensures |r| == |s|
    ensures forall i :: 0 <= i < |s| ==> r[i] == LowerChar(s[i])
  {
    seq(|s|, i requires 0 <= i < |s| => LowerChar(s[i]))
  }

  /** `s.count(c)` for one character. */
  function CountChar(s: string, c: char): nat {
    if s == [] then 0 else CountChar(s[..|s| - 1], c) + (if s[|s| - 1] == c then 1 else 0)
  }

  lemma {:induction false} CountCharZero(s: string, c: char)
    ensures CountChar(s, c) == 0 <==> c !in s
  {
    if s != [] {
      CountCharZero(s[..|s| - 1], c);
      assert c in s <==> c in s[..|s| - 1] || s[|s| - 1] == c;
    }
  }

  /** `s.split(c)`: the pieces between occurrences of `c`, always one more than there are `c`s. */
  function Split(s: string, c: char): (r: seq<string>)
    ensures |r| == CountChar(s, c) + 1
    ensures forall k :: 0 <= k < |r| ==> c !in r[k]
  {
    if s == [] then [""]
    else
      var r := Split(s[..|s| - 1], c);
      if s[|s| - 1] == c then r + [""]
      else r[..|r| - 1] + [r[|r| - 1] + [s[|s| - 1]]]
  }

  /** The text before the first `c` (`s.split(c)[0]`); the whole string when there is no `c`. */
  function BeforeFirst(s: string, c: char): (r: string)
    ensures c !in r
    ensures StartsWith(s, r)
    ensures |r| < |s| ==> s[|r|] == c
  {
    if s == [] || s[0] == c then [] else [s[0]] + BeforeFirst(s[1..], c)
  }

  /** The text after the last `c` (`s.split(c)[-1]`); the whole string when there is no `c`. */
  function AfterLast(s: string, c: char): (r: string)
    ensures c !in r
    ensures EndsWith(s, r)
    ensures |r| < |s| ==> s[|s| - |r| - 1] == c
    ensures c !in s ==> r == s
  {
    if s == [] || s[|s| - 1] == c then [] else AfterLast(s[..|s| - 1], c) + [s[|s| - 1]]
  }

  /** The text after the last `c` is the last piece of the split. */
  lemma {:induction false} AfterLastSplit(s: string, c: char)
    ensures AfterLast(s, c) == Split(s, c)[|Split(s, c)| - 1]
  {
    if s != [] {
      AfterLastSplit(s[..|s| - 1], c);
    }
  }

  // ---------------------------------------------------------------------------------------------
  // Ordering (Python compares strings by code point, lexicographically)

  /** `a < b` on Python strings. */
  predicate Less(a: string, b: string) {
    if a == [] then b != []
    else if b == [] then false
    else if a[0] != b[0] then a[0] < b[0]
    else Less(a[1..], b[1..])
  }

  lemma {:induction false} LessIrreflexive(a: string)
    ensures !Less(a, a)
  {
    if a != [] { LessIrreflexive(a[1..]); }
  }

  lemma {:induction false} LessTotal(a: string, b: string)
    ensures a == b || Less(a, b) || Less(b, a)
  {
    if a != [] && b != [] && a[0] == b[0] {
      LessTotal(a[1..], b[1..]);
      if a[1..] == b[1..] { assert a == [a[0]] + a[1..] && b == [b[0]] + b[1..]; }
    }
  }

  lemma {:induction false} LessTransitive(a: string, b: string, c: string)
    requires Less(a, b) && Less(b, c)
    ensures Less(a, c)
  {
    if a != [] && b != [] && c != [] && a[0] == b[0] && b[0] == c[0] {
      LessTransitive(a[1..], b[1..], c[1..]);
    }
  }

  lemma {:induction false} LessAsymmetric(a: string, b: string)
    requires Less(a, b)
    ensures !Less(b, a)
  {
    if a != [] && b != [] && a[0] == b[0] {
      LessAsymmetric(a[1..], b[1..]);
    }
  }

  /** `min(s)` on a non-empty list of strings: an element no other element is below. */
  function Min(s: seq<string>): (m: string)
    requires |s| > 0
    ensures m in s
    ensures forall x :: x in s ==> !Less(x, m)
  {
    if |s| == 1 then
      LessIrreflexive(s[0]);
      s[0]
    else
      var m' := Min(s[..|s| - 1]);
      var x := s[|s| - 1];
      if Less(x, m') then
        forall y | y in s[..|s| - 1] ensures !Less(y, x) {
          if Less(y, x) { LessTransitive(y, x, m'); }
        }
        LessIrreflexive(x);
        x
      else
        assert s == s[..|s| - 1] + [x];
        m'
  }

  /** The first index of `x` in `s` (`s.index(x)`). */
  function IndexOf<T(==)>(s: seq<T>, x: T): (i: nat)
    requires x in s
    ensures i < |s| && s[i] == x
    ensures forall j :: 0 <= j < i ==> s[j] != x
  {
    if s[0] == x then 0 else 1 + IndexOf(s[1..], x)
  }
}
