/** String primitives of the JavaScript runtime that the portfolio's code relies on:
    the `\s` character class, `String.prototype.trim`, `toLowerCase` (ASCII letters),
    `includes`, `Array.prototype.join("")`, number-to-string conversion and `parseInt`. */
module Text {

  /** The characters JavaScript's `\s` and `trim` treat as white space. */
  predicate IsSpace(c: char) {
    || c == ' ' || c == '\t' || c == '\n' || c == '\r' || c == '\U{000B}' || c == '\U{000C}'
    || c == '\U{00A0}' || c == '\U{1680}' || ('\U{2000}' <= c <= '\U{200A}')
    || c == '\U{2028}' || c == '\U{2029}' || c == '\U{202F}' || c == '\U{205F}'
    || c == '\U{3000}' || c == '\U{FEFF}'
  }

  predicate NoSpace(s: string) {
    forall i :: 0 <= i < |s| ==> !IsSpace(s[i])
  }

  /** Index of the first non-space character of `s` at or after `i`, or `|s|` when there is none. */
  function FirstNonSpace(s: string, i: nat): (k: nat)
    requires i <= |s|
    ensures i <= k <= |s|
    ensures k == |s| || !IsSpace(s[k])
    decreases |s| - i
  {
    if i == |s| || !IsSpace(s[i]) then i else FirstNonSpace(s, i + 1)
  }

  /** Where `s[lo..j]` ends once its trailing white space is dropped. */
  function EndOfText(s: string, lo: nat, j: nat): (k: nat)
    requires lo <= j <= |s|
    ensures lo <= k <= j
    ensures k == lo || !IsSpace(s[k - 1])
    decreases j
  {
    if j == lo || !IsSpace(s[j - 1]) then j else EndOfText(s, lo, j - 1)
  }

  lemma {:induction false} FirstNonSpaceSkipsSpaces(s: string, i: nat)
    requires i <= |s|
    ensures forall m :: i <= m < FirstNonSpace(s, i) ==> IsSpace(s[m])
    decreases |s| - i
  {
    if i < |s| && IsSpace(s[i]) {
      FirstNonSpaceSkipsSpaces(s, i + 1);
    }
  }

  lemma {:induction false} EndOfTextSkipsSpaces(s: string, lo: nat, j: nat)
    requires lo <= j <= |s|
    ensures forall m :: EndOfText(s, lo, j) <= m < j ==> IsSpace(s[m])
    decreases j
  {
    if j > lo && IsSpace(s[j - 1]) {
      EndOfTextSkipsSpaces(s, lo, j - 1);
    }
  }

  /** `s.trimStart()`: the suffix of `s` that starts at its first non-space character. */
  function TrimStart(s: string): (r: string)
    ensures r == [] || !IsSpace(r[0])
  {
    s[FirstNonSpace(s, 0)..]
  }

  /** `s.trim()`: the piece of `s` between its first and its last non-space character. */
  function Trim(s: string): string {
    var a := FirstNonSpace(s, 0);
    s[a..EndOfText(s, a, |s|)]
  }

  /** `sub` occurs in `s` starting at index `i`. */
  predicate OccursAt(s: string, sub: string, i: int) {
    0 <= i && i + |sub| <= |s| && s[i..i + |sub|] == sub
  }

  /** What `trim` returns is a contiguous piece of its input with no space at either end,
      and everything it cuts off is white space. */
  lemma TrimIsSlice(s: string)
    ensures OccursAt(s, Trim(s), FirstNonSpace(s, 0))
    ensures Trim(s) == [] || (!IsSpace(Trim(s)[0]) && !IsSpace(Trim(s)[|Trim(s)| - 1]))
    ensures forall m :: 0 <= m < FirstNonSpace(s, 0) ==> IsSpace(s[m])
    ensures forall m :: FirstNonSpace(s, 0) + |Trim(s)| <= m < |s| ==> IsSpace(s[m])
  {
    var a := FirstNonSpace(s, 0);
    var b := EndOfText(s, a, |s|);
    assert OccursAt(s, Trim(s), a);
    FirstNonSpaceSkipsSpaces(s, 0);
    EndOfTextSkipsSpaces(s, a, |s|);
  }

  /** Every character of `Trim(s)` occurs in `s`. */
  lemma TrimKeepsChars(s: string, c: char)
    requires c in Trim(s)
    ensures c in s
  {
    var a := FirstNonSpace(s, 0);
    var k :| 0 <= k < |Trim(s)| && Trim(s)[k] == c;
    assert s[a + k] == c;
  }

  /** A string without white space is its own trim. */
  lemma TrimNoSpace(s: string)
    requires NoSpace(s)
    ensures Trim(s) == s
  {
    assert FirstNonSpace(s, 0) == 0;
    assert EndOfText(s, 0, |s|) == |s|;
  }

  predicate IsUpper(c: char) { 'A' <= c <= 'Z' }

  function LowerChar(c: char): char {
    if IsUpper(c) then (c as int + 32) as char else c
  }

  /** `s.toLowerCase()`, restricted to the ASCII letters. */
  function ToLower(s: string): (r: string)
    ensures |r| == |s|
    ensures forall i :: 0 <= i < |s| ==> r[i] == LowerChar(s[i])
  {
    if s == [] then [] else [LowerChar(s[0])] + ToLower(s[1..])
  }

  /** Lower-casing only moves 'A'..'Z', so it never creates or removes spaces or markup characters. */
  lemma LowerCharFixes(c: char)
    ensures !IsUpper(LowerChar(c))
    ensures LowerChar(c) == c <==> !IsUpper(c)
    ensures IsSpace(LowerChar(c)) <==> IsSpace(c)
    ensures LowerChar(LowerChar(c)) == LowerChar(c)
  {
  }

  /** A string without upper-case ASCII letters is its own lower-case form. */
  lemma ToLowerNoUpper(s: string)
    requires forall i :: 0 <= i < |s| ==> !IsUpper(s[i])
    ensures ToLower(s) == s
  {
  }

  predicate StartsWith(s: string, p: string) {
    |p| <= |s| && s[..|p|] == p
  }

  /** `s.includes(sub)`, defined as a scan from the left. */
  predicate Contains(s: string, sub: string)
    decreases |s|
  {
    StartsWith(s, sub) || (|s| > 0 && Contains(s[1..], sub))
  }

  lemma OccursAtStart(s: string, sub: string)
    ensures OccursAt(s, sub, 0) <==> StartsWith(s, sub)
  {
    if |sub| <= |s| {
      assert s[0..|sub|] == s[..|sub|];
    }
  }

  /** The scan finds `sub` exactly when `sub` occurs at some position of `s`. */
  lemma {:induction false} ContainsIff(s: string, sub: string)
    ensures Contains(s, sub) <==> exists i :: OccursAt(s, sub, i)
    decreases |s|
  {
    OccursAtStart(s, sub);
    if StartsWith(s, sub) {
      assert OccursAt(s, sub, 0);
    } else if |s| > 0 {
      ContainsIff(s[1..], sub);
      forall i | OccursAt(s, sub, i)
        ensures OccursAt(s[1..], sub, i - 1)
      {
        assert s[1..][i - 1..i - 1 + |sub|] == s[i..i + |sub|];
      }
      forall i | OccursAt(s[1..], sub, i)
        ensures OccursAt(s, sub, i + 1)
      {
        assert s[1..][i..i + |sub|] == s[i + 1..i + 1 + |sub|];
      }
    }
  }

  /** A string found inside a prefix of `s` is found in `s`. */
  lemma ContainsInLonger(s: string, t: string, sub: string)
    requires Contains(s, sub)
    ensures Contains(s + t, sub)
  {
    ContainsIff(s, sub);
    ContainsIff(s + t, sub);
    var i :| OccursAt(s, sub, i);
    assert (s + t)[i..i + |sub|] == s[i..i + |sub|];
    assert OccursAt(s + t, sub, i);
  }

  /** `parts.join("")`. */
  function Join(parts: seq<string>): (r: string)
    ensures parts == [] ==> r == []
  {
    if parts == [] then [] else parts[0] + Join(parts[1..])
  }

  function DigitChar(d: nat): char
    requires d < 10
  {
    ('0' as int + d) as char
  }

  predicate IsDigit(c: char) { '0' <= c <= '9' }

  function DigitValue(c: char): nat
    requires IsDigit(c)
  {
    c as int - '0' as int
  }

  /** The decimal numeral JavaScript prints for a non-negative integer. */
  function NatToDecimal(n: nat): (r: string)
    ensures |r| > 0 && forall i :: 0 <= i < |r| ==> IsDigit(r[i])
  {
    if n < 10 then [DigitChar(n)] else NatToDecimal(n / 10) + [DigitChar(n % 10)]
  }

  /** `${n}` for an integer `n`. */
  function IntToDecimal(n: int): (r: string)
    ensures |r| > 0
  {
    if n < 0 then "-" + NatToDecimal(-n) else NatToDecimal(n)
  }

  /** The value of a string of decimal digits. */
  function DecimalValue(s: string): nat
    requires forall i :: 0 <= i < |s| ==> IsDigit(s[i])
  {
    if s == [] then 0 else 10 * DecimalValue(s[..|s| - 1]) + DigitValue(s[|s| - 1])
  }

  /** Length of the longest prefix of `s` made of characters accepted by `ok`. */
  function RunLength(s: string, ok: char -> bool): (n: nat)
    ensures n <= |s|
    ensures forall i :: 0 <= i < n ==> ok(s[i])
    ensures n == |s| || !ok(s[n])
  {
    if s == [] || !ok(s[0]) then 0 else 1 + RunLength(s[1..], ok)
  }

  predicate IsHexDigit(c: char) { IsDigit(c) || 'a' <= c <= 'f' || 'A' <= c <= 'F' }

  function HexValue(c: char): nat
    requires IsHexDigit(c)
  {
    if IsDigit(c) then DigitValue(c)
    else if 'a' <= c <= 'f' then c as int - 'a' as int + 10
    else c as int - 'A' as int + 10
  }

  function HexNumber(s: string): nat
    requires forall i :: 0 <= i < |s| ==> IsHexDigit(s[i])
  {
    if s == [] then 0 else 16 * HexNumber(s[..|s| - 1]) + HexValue(s[|s| - 1])
  }

  datatype Option<T> = None | Some(value: T)

  /** The magnitude part of `parseInt` with no radix: after an optional sign, a `0x`/`0X` prefix
      selects hexadecimal, otherwise the longest run of decimal digits is read; no digit gives NaN. */
  function ParseMagnitude(s: string): Option<nat> {
    if |s| >= 2 && s[0] == '0' && (s[1] == 'x' || s[1] == 'X') then
      var n := RunLength(s[2..], IsHexDigit);
      if n == 0 then None else Some(HexNumber(s[2..][..n]))
    else
      var n := RunLength(s, IsDigit);
      if n == 0 then None else Some(DecimalValue(s[..n]))
  }

  /** `parseInt(s)` with no radix; `None` stands for NaN. */
  function ParseInt(s: string): (r: Option<int>)
  {
    var t := TrimStart(s);
    if t != [] && (t[0] == '-' || t[0] == '+') then
      match ParseMagnitude(t[1..])
      case None => None
      case Some(m) => var v: int := m; Some(if t[0] == '-' then -v else v)
    else
      match ParseMagnitude(t)
      case None => None
      case Some(m) => Some(m)
  }

  lemma {:induction false} DecimalRoundTrip(n: nat)
    ensures DecimalValue(NatToDecimal(n)) == n
  {
    if n >= 10 {
      DecimalRoundTrip(n / 10);
      var s := NatToDecimal(n);
      assert s[..|s| - 1] == NatToDecimal(n / 10);
    }
  }

  lemma DecimalMagnitude(d: string)
    requires |d| > 0 && forall i :: 0 <= i < |d| ==> IsDigit(d[i])
    ensures ParseMagnitude(d) == Some(DecimalValue(d))
  {
    assert !(|d| >= 2 && d[0] == '0' && (d[1] == 'x' || d[1] == 'X'));
    assert RunLength(d, IsDigit) == |d|;
    assert d[..|d|] == d;
  }

  /** A numeral that starts with a digit or a minus sign has no leading white space. */
  lemma TrimStartNumeral(d: string)
    requires |d| > 0 && (IsDigit(d[0]) || d[0] == '-')
    ensures TrimStart(d) == d
  {
    assert FirstNonSpace(d, 0) == 0;
  }

  lemma ParseIntOfNat(m: nat)
    ensures ParseInt(NatToDecimal(m)) == Some(m)
  {
    var d := NatToDecimal(m);
    DecimalRoundTrip(m);
    DecimalMagnitude(d);
    TrimStartNumeral(d);
    assert !(d[0] == '-' || d[0] == '+');
  }

  lemma ParseIntOfMinus(d: string, m: nat)
    requires ParseMagnitude(d) == Some(m)
    ensures ParseInt("-" + d) == Some(-(m as int))
  {
    var t := "-" + d;
    TrimStartNumeral(t);
    assert t[1..] == d;
  }

  lemma ParseIntOfNegative(m: nat)
    requires m > 0
    ensures ParseInt("-" + NatToDecimal(m)) == Some(-(m as int))
  {
    var d := NatToDecimal(m);
    DecimalRoundTrip(m);
    DecimalMagnitude(d);
    ParseIntOfMinus(d, m);
  }

  /** `parseInt` reads back every integer that JavaScript prints in decimal. */
  lemma ParseIntOfDecimal(n: int)
    ensures ParseInt(IntToDecimal(n)) == Some(n)
  {
    if n < 0 {
      ParseIntOfNegative(-n);
    } else {
      ParseIntOfNat(n);
    }
  }
}
