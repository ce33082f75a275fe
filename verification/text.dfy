/**
 Text primitives the bot applies to incoming messages and pool symbols:
 the all-digits test, the decimal value of a digit string, upper-casing,
 substring containment and suffix matching. Characters are treated as
 ASCII; Python's wider Unicode tables are not modelled.
 */
module Text {

  /** An ASCII decimal digit. */
  predicate IsDigit(c: char) {
    '0' <= c <= '9'
  }

  /** `str.isdigit()`: non-empty and every character a digit. */
  predicate IsAllDigits(s: string): (b: bool)
    ensures b <==> |s| > 0 && forall c :: c in s ==> IsDigit(c)
  {
    assert forall i :: 0 <= i < |s| ==> s[i] in s;
    |s| > 0 && OnlyDigits(s)
  }

  /** Every character is a digit (the empty string included). */
  predicate OnlyDigits(s: string) {
    forall i :: 0 <= i < |s| ==> IsDigit(s[i])
  }

  function DigitValue(c: char): (d: nat)
    requires IsDigit(c)
    ensures d < 10
  {
    (c as int) - ('0' as int)
  }

  function DigitChar(d: nat): (c: char)
    requires d < 10
    ensures IsDigit(c) && DigitValue(c) == d
  {
    (('0' as int) + d) as char
  }

  function Pow10(k: nat): nat {
    if k == 0 then 1 else 10 * Pow10(k - 1)
  }

  /** The number a digit string denotes, most significant digit first
      (what `float(text)` yields for an all-digit text, without rounding). */
  function DecimalValue(s: string): (n: nat)
    requires OnlyDigits(s)
    ensures n < Pow10(|s|)
  {
    if |s| == 0 then 0
    else DecimalValue(s[..|s| - 1]) * 10 + DigitValue(s[|s| - 1])
  }

  /** The shortest decimal spelling of `n`. */
  function DecimalString(n: nat): (s: string)
    ensures IsAllDigits(s)
    ensures |s| == 1 || s[0] != '0'
  {
    if n < 10 then [DigitChar(n)]
    else DecimalString(n / 10) + [DigitChar(n % 10)]
  }

  /** Reading back the shortest spelling of a number gives the number. */
  lemma {:induction false} DecimalValueOfString(n: nat)
    ensures DecimalValue(DecimalString(n)) == n
  {
    var s := DecimalString(n);
    if n >= 10 {
      DecimalValueOfString(n / 10);
      assert s[..|s| - 1] == DecimalString(n / 10);
    }
  }

  /** A digit string without a leading zero is the shortest spelling of its value. */
  lemma {:induction false} DecimalStringOfValue(s: string)
    requires IsAllDigits(s)
    requires |s| == 1 || s[0] != '0'
    ensures DecimalString(DecimalValue(s)) == s
  {
    if |s| == 1 {
      assert DecimalValue(s) == DigitValue(s[0]);
    } else {
      var init := s[..|s| - 1];
      assert init[0] == s[0];
      DecimalStringOfValue(init);
      LeadingDigitBound(init);
      var n := DecimalValue(s);
      assert n / 10 == DecimalValue(init) && n % 10 == DigitValue(s[|s| - 1]);
      assert s == init + [s[|s| - 1]];
    }
  }

  /** A digit string that does not start with zero denotes at least 1. */
  lemma {:induction false} LeadingDigitBound(s: string)
    requires IsAllDigits(s) && s[0] != '0'
    ensures DecimalValue(s) >= 1
  {
    if |s| > 1 {
      var init := s[..|s| - 1];
      assert init[0] == s[0];
      LeadingDigitBound(init);
    }
  }

  /** `str.upper()` on one character: a..z become A..Z, everything else stays. */
  function UpperChar(c: char): char {
    if 'a' <= c <= 'z' then (c as int - 'a' as int + 'A' as int) as char else c
  }

  /** The lower-case partner of an upper-case letter. */
  function LowerChar(c: char): char {
    if 'A' <= c <= 'Z' then (c as int - 'A' as int + 'a' as int) as char else c
  }

  /** `str.upper()` on a whole text. */
  function ToUpper(s: string): (r: string)
    ensures |r| == |s|
    ensures forall i :: 0 <= i < |s| ==> r[i] == UpperChar(s[i])
    ensures forall i :: 0 <= i < |s| ==> !('a' <= r[i] <= 'z')
  {
    if |s| == 0 then [] else [UpperChar(s[0])] + ToUpper(s[1..])
  }

  /** A word of upper-case ASCII letters only. */
  predicate IsUpperWord(t: string) {
    forall i :: 0 <= i < |t| ==> 'A' <= t[i] <= 'Z'
  }

  /** Upper-casing twice changes nothing more. */
  lemma ToUpperIdempotent(s: string)
    ensures ToUpper(ToUpper(s)) == ToUpper(s)
  {
    assert forall i :: 0 <= i < |s| ==> UpperChar(UpperChar(s[i])) == UpperChar(s[i]);
  }

  /** One character upper-cases to the letter `u` exactly when it is `u` in either case. */
  lemma UpperCharMatchesIff(c: char, u: char)
    requires 'A' <= u <= 'Z'
    ensures UpperChar(c) == u <==> c == u || c == LowerChar(u)
  {
  }

  /** Case-insensitive match against an upper-case word: `s.upper() == t` exactly
      when every character of `s` is the letter of `t` in either case. */
  lemma UpperMatchesIff(s: string, t: string)
    requires IsUpperWord(t)
    ensures ToUpper(s) == t <==>
      |s| == |t| && forall i :: 0 <= i < |s| ==> s[i] == t[i] || s[i] == LowerChar(t[i])
  {
    if |s| == |t| {
      forall i | 0 <= i < |s|
        ensures ToUpper(s)[i] == t[i] <==> s[i] == t[i] || s[i] == LowerChar(t[i])
      {
        UpperCharMatchesIff(s[i], t[i]);
      }
      if forall i :: 0 <= i < |s| ==> ToUpper(s)[i] == t[i] {
        assert ToUpper(s) == t;
      }
    }
  }

  /** `sub` occurs in `s` at position `i`. */
  ghost predicate OccursAt(s: string, sub: string, i: int) {
    0 <= i && i + |sub| <= |s| && s[i..i + |sub|] == sub
  }

  /** `sub in s` for Python strings: `sub` occurs somewhere in `s`. */
  ghost predicate HasSubstring(s: string, sub: string) {
    exists i :: OccursAt(s, sub, i)
  }

  /** Substring search, scanning start positions left to right. */
  function Contains(s: string, sub: string): (r: bool)
    ensures r <==> HasSubstring(s, sub)
    decreases |s|
  {
    if |sub| > |s| then false
    else if s[..|sub|] == sub then
      assert OccursAt(s, sub, 0);
      true
    else
      var r := Contains(s[1..], sub);
      ShiftOccurrence(s, sub);
      r
  }

  /** When `sub` is not a prefix of `s`, it occurs in `s` exactly when it
      occurs in `s` without its first character. */
  lemma ShiftOccurrence(s: string, sub: string)
    requires |sub| <= |s| && s[..|sub|] != sub
    ensures HasSubstring(s, sub) <==> HasSubstring(s[1..], sub)
  {
    if HasSubstring(s[1..], sub) {
      var i :| OccursAt(s[1..], sub, i);
      assert s[i + 1..i + 1 + |sub|] == s[1..][i..i + |sub|];
      assert OccursAt(s, sub, i + 1);
    }
    if HasSubstring(s, sub) {
      var i :| OccursAt(s, sub, i);
      assert i != 0;
      assert s[1..][i - 1..i - 1 + |sub|] == s[i..i + |sub|];
      assert OccursAt(s[1..], sub, i - 1);
    }
  }

  /** `s.endswith(suffix)`. */
  function EndsWith(s: string, suffix: string): (r: bool)
    ensures r <==> exists p :: p + suffix == s
  {
    if |suffix| <= |s| && s[|s| - |suffix|..] == suffix then
      assert s[..|s| - |suffix|] + suffix == s;
      true
    else
      assert forall p :: (p + suffix)[|p|..] == suffix;
      false
  }
}
