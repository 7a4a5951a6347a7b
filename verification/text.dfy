/**
 * The two pieces of JavaScript string behaviour the translator relies on:
 * `String.prototype.trim` (the blank-input guard and the cleaned-up reply)
 * and the decimal rendering of a number inside a template literal (the
 * status code in an error message), with a parser that inverts the latter.
 */
module Text {
  import opened Wrappers

  // ---------------------------------------------------------------------------
  // Trimming
  // ---------------------------------------------------------------------------

  /** ECMAScript WhiteSpace and LineTerminator code points, the set `trim` removes. */
  predicate IsWhiteSpace(c: char): (b: bool)
    ensures b <==> c as int in WhiteSpaceCodePoints
  {
    c == '\t' || c == '\n' || c == '\U{000B}' || c == '\U{000C}' || c == '\r' ||
    c == ' ' || c == '\U{00A0}' || c == '\U{1680}' || ('\U{2000}' <= c <= '\U{200A}') ||
    c == '\U{2028}' || c == '\U{2029}' || c == '\U{202F}' || c == '\U{205F}' ||
    c == '\U{3000}' || c == '\U{FEFF}'
  }

  /**
   * The same set as a table of code points: TAB, LF, VT, FF, CR, SPACE,
   * NO-BREAK SPACE, the other space separators, LINE and PARAGRAPH SEPARATOR,
   * and the byte order mark.
   */
  const WhiteSpaceCodePoints: set<int> := {
    0x09, 0x0A, 0x0B, 0x0C, 0x0D, 0x20, 0xA0, 0x1680,
    0x2000, 0x2001, 0x2002, 0x2003, 0x2004, 0x2005, 0x2006, 0x2007, 0x2008, 0x2009, 0x200A,
    0x2028, 0x2029, 0x202F, 0x205F, 0x3000, 0xFEFF
  }

  predicate AllWhiteSpace(s: string) {
    forall i :: 0 <= i < |s| ==> IsWhiteSpace(s[i])
  }

  /** Neither the first nor the last character of `s` is white space. */
  predicate Tight(s: string) {
    s == [] || (!IsWhiteSpace(s[0]) && !IsWhiteSpace(s[|s| - 1]))
  }

  /**
   * `t` is what is left of `s` after cutting white space only, `i` characters
   * from the front and the rest from the back.
   */
  ghost predicate Trimming(s: string, i: int, t: string) {
    0 <= i <= |s| - |t| && s[i..i + |t|] == t &&
    AllWhiteSpace(s[..i]) && AllWhiteSpace(s[i + |t|..])
  }

  /** Drops leading white space. */
  function TrimStart(s: string): (r: string)
    ensures |r| <= |s| && r == s[|s| - |r|..]
    ensures AllWhiteSpace(s[..|s| - |r|])
    ensures r == [] || !IsWhiteSpace(r[0])
  {
    if s == [] || !IsWhiteSpace(s[0]) then s else TrimStart(s[1..])
  }

  /** Drops trailing white space. */
  function TrimEnd(s: string): (r: string)
    ensures |r| <= |s| && r == s[..|r|]
    ensures AllWhiteSpace(s[|r|..])
    ensures r == [] || !IsWhiteSpace(r[|r| - 1])
  {
    if s == [] || !IsWhiteSpace(s[|s| - 1]) then s else TrimEnd(s[..|s| - 1])
  }

  /** JavaScript's `s.trim()`. */
  function Trim(s: string): (r: string)
    ensures Tight(r)
    ensures Trimming(s, |s| - |TrimStart(s)|, r)
  {
    TrimBothEnds(s, TrimStart(s), TrimEnd(TrimStart(s)));
    TrimEnd(TrimStart(s))
  }

  /** Cutting a tight prefix off a suffix whose removed parts are white space. */
  lemma TrimBothEnds(s: string, t: string, r: string)
    requires |t| <= |s| && t == s[|s| - |t|..] && AllWhiteSpace(s[..|s| - |t|])
    requires |r| <= |t| && r == t[..|r|] && AllWhiteSpace(t[|r|..])
    requires t == [] || !IsWhiteSpace(t[0])
    requires r == [] || !IsWhiteSpace(r[|r| - 1])
    ensures Tight(r)
    ensures Trimming(s, |s| - |t|, r)
  {
    var k := |s| - |t|;
    assert r == [] || r[0] == t[0];
    assert s[k..k + |r|] == r;
    assert s[k + |r|..] == t[|r|..];
  }

  /** Cutting to the first non-white-space character is the only way to trim the front. */
  lemma {:induction false} TrimStartAt(s: string, i: int)
    requires 0 <= i <= |s| && AllWhiteSpace(s[..i])
    requires i == |s| || !IsWhiteSpace(s[i])
    ensures TrimStart(s) == s[i..]
  {
    if i > 0 {
      assert IsWhiteSpace(s[..i][0]);
      assert s[1..][..i - 1] == s[1..i] && s[1..][i - 1..] == s[i..];
      assert forall k :: 0 <= k < i - 1 ==> s[1..i][k] == s[..i][k + 1];
      TrimStartAt(s[1..], i - 1);
    }
  }

  /** Cutting to the last non-white-space character is the only way to trim the back. */
  lemma {:induction false} TrimEndAt(s: string, j: int)
    requires 0 <= j <= |s| && AllWhiteSpace(s[j..])
    requires j == 0 || !IsWhiteSpace(s[j - 1])
    ensures TrimEnd(s) == s[..j]
  {
    if j < |s| {
      var p := s[..|s| - 1];
      assert IsWhiteSpace(s[j..][|s| - 1 - j]);
      assert p[..j] == s[..j] && p[j..] == s[j..|s| - 1];
      assert forall k :: 0 <= k < |s| - 1 - j ==> p[j..][k] == s[j..][k];
      TrimEndAt(p, j);
    }
  }

  /**
   * Trim is determined by what it promises: any way of cutting white space
   * from both ends that leaves a tight string gives exactly `Trim(s)`.
   */
  lemma TrimUnique(s: string, i: int, t: string)
    requires Trimming(s, i, t) && Tight(t)
    ensures t == Trim(s)
  {
    if t == [] {
      assert AllWhiteSpace(s) by {
        forall k | 0 <= k < |s| ensures IsWhiteSpace(s[k]) {
          if k < i { assert s[..i][k] == s[k]; } else { assert s[i..][k - i] == s[k]; }
        }
      }
      TrimStartAt(s, |s|);
    } else {
      assert s[i] == t[0];
      TrimStartAt(s, i);
      var u := s[i..];
      assert u[..|t|] == t;
      assert u[|t|..] == s[i + |t|..];
      TrimEndAt(u, |t|);
    }
  }

  /** `s.trim()` is empty exactly when `s` is blank. */
  lemma TrimEmptyIffBlank(s: string)
    ensures Trim(s) == [] <==> AllWhiteSpace(s)
  {
    if AllWhiteSpace(s) {
      assert s[..0] == [] && s[0..] == s;
      TrimUnique(s, 0, []);
    }
  }

  /** Trimming twice is trimming once. */
  lemma TrimIdempotent(s: string)
    ensures Trim(Trim(s)) == Trim(s)
  {
    var r := Trim(s);
    assert r[..0] == [] && r[0..|r|] == r && r[|r|..] == [];
    TrimUnique(r, 0, r);
  }

  // ---------------------------------------------------------------------------
  // Decimal numerals
  // ---------------------------------------------------------------------------

  predicate IsDigit(c: char) {
    '0' <= c <= '9'
  }

  predicate AllDigits(s: string) {
    forall i :: 0 <= i < |s| ==> IsDigit(s[i])
  }

  function DigitChar(d: nat): (c: char)
    requires d < 10
    ensures IsDigit(c) && c as int - '0' as int == d
  {
    ('0' as int + d) as char
  }

  /** The shortest decimal numeral of `n`, as JavaScript renders a non-negative integer. */
  function NatToDecimal(n: nat): (r: string)
    ensures r != [] && AllDigits(r)
    ensures |r| > 1 ==> r[0] != '0'
  {
    if n < 10 then [DigitChar(n)] else NatToDecimal(n / 10) + [DigitChar(n % 10)]
  }

  /** The value of a string of decimal digits (the empty string reads as 0). */
  function DecimalValue(s: string): nat
    requires AllDigits(s)
  {
    if s == [] then 0
    else DecimalValue(s[..|s| - 1]) * 10 + (s[|s| - 1] as int - '0' as int)
  }

  /** `${n}` for an integer `n`. */
  function IntToString(n: int): (r: string)
    ensures r != []
    ensures n < 0 <==> r[0] == '-'
  {
    if n < 0 then "-" + NatToDecimal(-n) else NatToDecimal(n)
  }

  /** Reads back a numeral in exactly the form `IntToString` writes. */
  function ParseInt(s: string): (r: Option<int>)
    ensures r.Some? ==> IntToString(r.value) == s
  {
    if |s| > 0 && s[0] == '-' && AllDigits(s[1..]) then
      var n := -(DecimalValue(s[1..]) as int);
      if IntToString(n) == s then Some(n) else None
    else if AllDigits(s) then
      var n := DecimalValue(s);
      if IntToString(n) == s then Some(n) else None
    else None
  }

  lemma {:induction false} DecimalValueOfNat(n: nat)
    ensures DecimalValue(NatToDecimal(n)) == n
  {
    if n >= 10 {
      var s := NatToDecimal(n);
      assert s[..|s| - 1] == NatToDecimal(n / 10);
      DecimalValueOfNat(n / 10);
    }
  }

  /** Every integer's numeral parses back to that integer. */
  lemma ParseIntToString(n: int)
    ensures ParseInt(IntToString(n)) == Some(n)
  {
    var s := IntToString(n);
    if n < 0 {
      var d := NatToDecimal(-n);
      assert s == "-" + d && s[1..] == d;
      DecimalValueOfNat(-n);
      assert -(DecimalValue(s[1..]) as int) == n;
    } else {
      assert s == NatToDecimal(n) && IsDigit(s[0]);
      DecimalValueOfNat(n);
    }
  }
}
