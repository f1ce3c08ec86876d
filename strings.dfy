/**
 * The JavaScript string operations the widget relies on, over `seq<char>`:
 * `indexOf`/`includes`, `trim`, `replace` of the first occurrence, the
 * `${n}` rendering of an integer, the integer part of `parseFloat`, and an
 * ASCII-only `toUpperCase` of one character.
 */
module Strings {
  import opened Wrappers

  // ---------------------------------------------------------------------
  // Searching: String.prototype.indexOf and String.prototype.includes

  /** `pat` occurs in `s` starting at index `j`. */
  predicate MatchAt(s: string, pat: string, j: nat) {
    j + |pat| <= |s| && s[j..j + |pat|] == pat
  }

  /** Index of the first occurrence of `pat` in `s`, or None where `indexOf` answers -1. */
  function IndexOf(s: string, pat: string): (r: Option<nat>)
    ensures r.Some? ==> MatchAt(s, pat, r.value)
    ensures r.Some? ==> forall j: nat :: j < r.value ==> !MatchAt(s, pat, j)
    ensures r.None? ==> forall j: nat :: !MatchAt(s, pat, j)
    decreases |s|
  {
    if |s| < |pat| then None
    else if s[..|pat|] == pat then Some(0)
    else
      var rest := IndexOf(s[1..], pat);
      assert forall j: nat :: 1 <= j ==> MatchAt(s, pat, j) == MatchAt(s[1..], pat, j - 1);
      match rest
      case None => None
      case Some(j) => Some(j + 1)
  }

  /** `s.includes(pat)`. */
  predicate Contains(s: string, pat: string): (b: bool)
    ensures b <==> exists j: nat :: MatchAt(s, pat, j)
  {
    IndexOf(s, pat).Some?
  }

  /** A text in which the first character of `pat` never appears cannot contain `pat`. */
  lemma {:induction false} MissingFirstCharNotContained(s: string, pat: string)
    requires pat != []
    requires pat[0] !in s
    ensures !Contains(s, pat)
  {
  }

  /** Appending `pat` to a text without its first character puts the first match right there. */
  lemma {:induction false} IndexOfAppended(x: string, pat: string)
    requires pat != []
    requires pat[0] !in x
    ensures IndexOf(x + pat, pat) == Some(|x|)
  {
    var s := x + pat;
    if x == [] {
      assert s[..|pat|] == pat;
    } else {
      assert s[..|pat|][0] == x[0];
      assert s[1..] == x[1..] + pat;
      IndexOfAppended(x[1..], pat);
    }
  }

  // ---------------------------------------------------------------------
  // String.prototype.replace with a string pattern (first occurrence only)

  /** `s.replace(pat, '')`: drops the first occurrence of `pat`, if any. */
  function RemoveFirst(s: string, pat: string): (r: string)
    ensures !Contains(s, pat) ==> r == s
    ensures Contains(s, pat) ==>
      var i := IndexOf(s, pat).value;
      |r| + |pat| == |s| && s == r[..i] + pat + r[i..]
  {
    match IndexOf(s, pat)
    case None => s
    case Some(i) => s[..i] + s[i + |pat|..]
  }

  /** Removing a suffix `pat` whose first character occurs nowhere before it gives back the front. */
  lemma RemoveFirstAppended(x: string, pat: string)
    requires pat != []
    requires pat[0] !in x
    ensures RemoveFirst(x + pat, pat) == x
  {
    IndexOfAppended(x, pat);
    assert (x + pat)[..|x|] == x;
  }

  // ---------------------------------------------------------------------
  // String.prototype.trim

  /** The ECMAScript WhiteSpace and LineTerminator code points that `trim` strips. */
  predicate IsJsWhitespace(c: char) {
    c == '\t' || c == '\n' || c == '\U{B}' || c == '\U{C}' || c == '\r' || c == ' '
    || c == '\U{A0}' || c == '\U{1680}' || ('\U{2000}' <= c <= '\U{200A}')
    || c == '\U{2028}' || c == '\U{2029}' || c == '\U{202F}' || c == '\U{205F}'
    || c == '\U{3000}' || c == '\U{FEFF}'
  }

  /** `s` with its longest whitespace prefix removed. */
  function TrimStart(s: string): (r: string)
    ensures |r| <= |s| && r == s[|s| - |r|..]
    ensures forall i :: 0 <= i < |s| - |r| ==> IsJsWhitespace(s[i])
    ensures r != [] ==> !IsJsWhitespace(r[0])
  {
    if s != [] && IsJsWhitespace(s[0]) then
      var r := TrimStart(s[1..]);
      assert forall i :: 1 <= i < |s| - |r| ==> s[i] == s[1..][i - 1];
      r
    else s
  }

  /** `s` with its longest whitespace suffix removed. */
  function TrimEnd(s: string): (r: string)
    ensures |r| <= |s| && r == s[..|r|]
    ensures forall i :: |r| <= i < |s| ==> IsJsWhitespace(s[i])
    ensures r != [] ==> !IsJsWhitespace(r[|r| - 1])
  {
    if s != [] && IsJsWhitespace(s[|s| - 1]) then TrimEnd(s[..|s| - 1]) else s
  }

  /** `s.trim()`. */
  function Trim(s: string): (r: string)
    ensures |r| <= |s|
    ensures r != [] ==> !IsJsWhitespace(r[0]) && !IsJsWhitespace(r[|r| - 1])
  {
    TrimEnd(TrimStart(s))
  }

  /** The trimmed text is empty exactly when every character of the input is whitespace. */
  lemma TrimEmptyIff(s: string)
    ensures Trim(s) == [] <==> forall i :: 0 <= i < |s| ==> IsJsWhitespace(s[i])
  {
    var u := TrimStart(s);
    if Trim(s) == [] {
      assert u == [];
    } else {
      var k := |s| - |u|;
      assert u[0] == s[k];
    }
  }

  /**
   * What `trim` keeps is a slice of the input that neither starts nor ends
   * with whitespace, and everything it drops is whitespace.
   */
  lemma TrimIsInnerSlice(s: string)
    ensures exists lo, hi ::
              && 0 <= lo <= hi <= |s|
              && Trim(s) == s[lo..hi]
              && (forall i :: 0 <= i < lo || hi <= i < |s| ==> IsJsWhitespace(s[i]))
    ensures Trim(s) != [] ==> !IsJsWhitespace(Trim(s)[0]) && !IsJsWhitespace(Trim(s)[|Trim(s)| - 1])
  {
    var lo, hi := TrimBounds(s);
  }

  /** Where the kept slice of `trim` starts and ends. */
  lemma TrimBounds(s: string) returns (lo: nat, hi: nat)
    ensures lo <= hi <= |s| && Trim(s) == s[lo..hi]
    ensures forall i :: 0 <= i < lo ==> IsJsWhitespace(s[i])
    ensures forall i :: hi <= i < |s| ==> IsJsWhitespace(s[i])
  {
    var u := TrimStart(s);
    var t := TrimEnd(u);
    lo, hi := |s| - |u|, |s| - |u| + |t|;
    assert u == s[lo..];
    assert t == u[..|t|];
    assert s[lo..hi] == u[..|t|];
    forall i | hi <= i < |s|
      ensures IsJsWhitespace(s[i])
    {
      assert s[i] == u[i - lo];
    }
  }

  // ---------------------------------------------------------------------
  // toUpperCase of the first character (ASCII letters only)

  predicate IsLowerAscii(c: char) { 'a' <= c <= 'z' }

  predicate IsUpperAscii(c: char) { 'A' <= c <= 'Z' }

  /** Upper-cases an ASCII lower-case letter and leaves every other character alone. */
  function UpperAscii(c: char): (r: char)
    ensures IsLowerAscii(c) ==> IsUpperAscii(r) && r as int + 32 == c as int
    ensures !IsLowerAscii(c) ==> r == c
  {
    if IsLowerAscii(c) then (c as int - 32) as char else c
  }

  /** `s.charAt(0).toUpperCase() + s.slice(1)`. */
  function Capitalize(s: string): (r: string)
    ensures |r| == |s|
    ensures forall i :: 1 <= i < |s| ==> r[i] == s[i]
    ensures s != [] ==> r[0] == UpperAscii(s[0]) && !IsLowerAscii(r[0])
    ensures s != [] && !IsLowerAscii(s[0]) ==> r == s
  {
    if s == [] then [] else [UpperAscii(s[0])] + s[1..]
  }

  /** Capitalising twice is capitalising once. */
  lemma CapitalizeIdempotent(s: string)
    ensures Capitalize(Capitalize(s)) == Capitalize(s)
  {
  }

  /** Capitalising keeps emptiness: the empty description stays empty and only it. */
  lemma CapitalizeEmptyIff(s: string)
    ensures Capitalize(s) == [] <==> s == []
  {
  }

  // ---------------------------------------------------------------------
  // `${n}` for an integer n, and the integer that parseFloat reads back

  predicate IsDigit(c: char) { '0' <= c <= '9' }

  predicate AllDigits(s: string) {
    forall i :: 0 <= i < |s| ==> IsDigit(s[i])
  }

  function DigitChar(d: nat): (c: char)
    requires d < 10
    ensures IsDigit(c)
  {
    ('0' as int + d) as char
  }

  function DigitValue(c: char): (d: nat)
    requires IsDigit(c)
    ensures d < 10 && DigitChar(d) == c
  {
    c as int - '0' as int
  }

  /** Decimal numeral of `n` with no leading zero. */
  function NatToString(n: nat): (r: string)
    ensures r != [] && AllDigits(r)
    ensures |r| > 1 || n > 0 ==> r[0] != '0'
  {
    if n < 10 then [DigitChar(n)] else NatToString(n / 10) + [DigitChar(n % 10)]
  }

  /** The `${n}` rendering of an integer: a minus sign for negatives, then the digits. */
  function IntToString(n: int): (r: string)
    ensures r != []
    ensures forall i :: 0 <= i < |r| ==> IsDigit(r[i]) || r[i] == '-'
    ensures (r[0] == '-') == (n < 0)
    ensures var d := if n < 0 then r[1..] else r;
      d != [] && AllDigits(d) && (|d| > 1 ==> d[0] != '0') && DigitsValue(d) == (if n < 0 then -n else n)
  {
    if n < 0 then
      var r := "-" + NatToString(-n);
      assert r[1..] == NatToString(-n);
      DigitsValueOfNatToString(-n);
      r
    else
      DigitsValueOfNatToString(n);
      NatToString(n)
  }

  /** Value of a digit string, most significant digit first. */
  function DigitsValue(s: string): nat
    requires AllDigits(s)
  {
    if s == [] then 0 else DigitsValue(s[..|s| - 1]) * 10 + DigitValue(s[|s| - 1])
  }

  /** Length of the run of digits `s` starts with. */
  function DigitRun(s: string): (k: nat)
    ensures k <= |s| && AllDigits(s[..k])
    ensures k < |s| ==> !IsDigit(s[k])
  {
    if s == [] || !IsDigit(s[0]) then 0
    else
      var k := 1 + DigitRun(s[1..]);
      assert forall i :: 1 <= i < k ==> s[..k][i] == s[1..][..k - 1][i - 1];
      k
  }

  /**
   * The number `parseFloat(s)` yields, for inputs whose numeric prefix is an
   * integer: leading whitespace is skipped, an optional sign is read, then the
   * longest run of digits; None stands for NaN (no digit where one is needed).
   */
  function ParseNumber(s: string): (r: Option<int>)
    ensures r.Some? ==> exists i :: 0 <= i < |s| && IsDigit(s[i])
    ensures r.Some? && r.value < 0 ==> TrimStart(s)[0] == '-'
    ensures TrimStart(s) != [] && !IsDigit(TrimStart(s)[0]) && TrimStart(s)[0] != '-' && TrimStart(s)[0] != '+'
      ==> r.None?
  {
    var u := TrimStart(s);
    var v := SignStripped(u);
    var k := DigitRun(v);
    if k == 0 then None
    else
      assert v[..k][0] == v[0] && s[|s| - |v|] == v[0];
      if u[0] == '-' then Some(0 - DigitsValue(v[..k]))
      else Some(DigitsValue(v[..k]))
  }

  /** A sign followed by something other than a digit is not a number. */
  lemma SignThenNoDigit(s: string)
    requires |s| >= 2 && (s[0] == '-' || s[0] == '+') && !IsDigit(s[1]) && s[1] != '.' && s[1] != 'I'
    ensures ParseNumber(s).None?
  {
    assert TrimStart(s) == s;
  }

  /** `u` without one leading `+` or `-`. */
  function SignStripped(u: string): (v: string)
    ensures |v| <= |u| && v == u[|u| - |v|..]
  {
    if u != [] && (u[0] == '-' || u[0] == '+') then u[1..] else u
  }

  lemma {:induction false} DigitsValueOfNatToString(n: nat)
    ensures DigitsValue(NatToString(n)) == n
  {
    var s := NatToString(n);
    if n < 10 {
      assert s[..|s| - 1] == [];
    } else {
      assert s[..|s| - 1] == NatToString(n / 10);
      DigitsValueOfNatToString(n / 10);
    }
  }

  lemma {:induction false} DigitRunOfDigitsThen(d: string, rest: string)
    requires AllDigits(d)
    requires rest == [] || !IsDigit(rest[0])
    ensures DigitRun(d + rest) == |d|
  {
    if d != [] {
      assert (d + rest)[1..] == d[1..] + rest;
      DigitRunOfDigitsThen(d[1..], rest);
    }
  }

  /**
   * A tail after which `parseFloat` reads no further: empty, or starting
   * with neither a digit, nor the `.` of a fraction, nor the `e`/`E` of an
   * exponent.
   */
  predicate EndsNumber(rest: string) {
    rest == [] || (!IsDigit(rest[0]) && rest[0] != '.' && rest[0] != 'e' && rest[0] != 'E')
  }

  /**
   * `parseFloat` reads back exactly the integer whose rendering starts the
   * text, when the tail after it ends the number.
   */
  lemma ParseNumberOfIntToString(n: int, rest: string)
    requires EndsNumber(rest)
    ensures ParseNumber(IntToString(n) + rest) == Some(n)
  {
    if n < 0 {
      var m: nat := -n;
      var d := NatToString(m);
      assert IntToString(n) == "-" + d;
      ParseNumberOfNegativeNumeral(d, rest);
      DigitsValueOfNatToString(m);
    } else {
      ParseNumberOfNumeral(NatToString(n), rest);
      DigitsValueOfNatToString(n);
    }
  }

  /** `parseFloat` of a digit string followed by a tail that ends the number. */
  lemma ParseNumberOfNumeral(d: string, rest: string)
    requires d != [] && AllDigits(d)
    requires EndsNumber(rest)
    ensures ParseNumber(d + rest) == Some(DigitsValue(d))
  {
    var u := d + rest;
    assert u[0] == d[0];
    TrimStartKeeps(u);
    assert SignStripped(u) == u;
    DigitsOfPrefix(d, rest);
    ParseNumberUnfold(u, d);
  }

  /** `parseFloat` of a minus sign, a digit string and a tail that ends the number. */
  lemma ParseNumberOfNegativeNumeral(d: string, rest: string)
    requires d != [] && AllDigits(d)
    requires EndsNumber(rest)
    ensures ParseNumber("-" + d + rest) == Some(-(DigitsValue(d) as int))
  {
    var u := "-" + d + rest;
    assert u[0] == '-';
    TrimStartKeeps(u);
    assert SignStripped(u) == d + rest;
    DigitsOfPrefix(d, rest);
    ParseNumberUnfold(u, d);
  }

  /** What `ParseNumber` answers once the digit run after the sign is known. */
  lemma ParseNumberUnfold(s: string, d: string)
    requires AllDigits(d) && d != []
    requires DigitRun(SignStripped(TrimStart(s))) == |d|
    requires SignStripped(TrimStart(s))[..|d|] == d
    ensures TrimStart(s)[0] == '-' ==> ParseNumber(s) == Some(-(DigitsValue(d) as int))
    ensures TrimStart(s)[0] != '-' ==> ParseNumber(s) == Some(DigitsValue(d))
  {
  }

  /** Text that does not start with whitespace is left alone by `TrimStart`. */
  lemma TrimStartKeeps(u: string)
    requires u != [] && !IsJsWhitespace(u[0])
    ensures TrimStart(u) == u
  {
  }

  /** The digit run of a numeral followed by a non-digit is the numeral itself. */
  lemma DigitsOfPrefix(d: string, rest: string)
    requires AllDigits(d)
    requires rest == [] || !IsDigit(rest[0])
    ensures DigitRun(d + rest) == |d| && (d + rest)[..|d|] == d
  {
    DigitRunOfDigitsThen(d, rest);
    assert (d + rest)[..|d|] == d;
  }
}
