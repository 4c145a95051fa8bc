/**
 * The pieces of java.lang.String and java.lang.Integer the conversation engine relies on:
 * case-insensitive comparison, Integer.parseInt for the selection number, and the decimal
 * rendering of the 1-based candidate labels.  Only ASCII letters and ASCII digits are modelled.
 */
module Text {
  import opened Wrappers

  predicate IsLower(c: char) { 'a' <= c <= 'z' }

  function UpperChar(c: char): char
  {
    if IsLower(c) then (c as int - 32) as char else c
  }

  /** String.toUpperCase restricted to ASCII letters. */
  function UpperCase(s: string): (r: string)
    ensures |r| == |s|
    ensures forall i :: 0 <= i < |r| ==> !IsLower(r[i])
    ensures forall i :: 0 <= i < |s| && !IsLower(s[i]) ==> r[i] == s[i]
    ensures forall i :: 0 <= i < |s| && IsLower(s[i]) ==> r[i] as int == s[i] as int - ('a' as int - 'A' as int)
  {
    seq(|s|, i requires 0 <= i < |s| => UpperChar(s[i]))
  }

  /** String.equalsIgnoreCase restricted to ASCII letters. */
  predicate EqualsIgnoreCase(a: string, b: string)
    ensures EqualsIgnoreCase(a, b) ==> |a| == |b|
    ensures a == b ==> EqualsIgnoreCase(a, b)
  {
    UpperCase(a) == UpperCase(b)
  }

  predicate IsDigit(c: char) { '0' <= c <= '9' }

  predicate AllDigits(s: string) { forall i :: 0 <= i < |s| ==> IsDigit(s[i]) }

  function DigitChar(d: nat): char
    requires d < 10
  {
    ('0' as int + d) as char
  }

  /** The value of a string of decimal digits, most significant first. */
  function DecimalValue(s: string): nat
    requires AllDigits(s)
  {
    if s == [] then 0 else DecimalValue(s[..|s| - 1]) * 10 + (s[|s| - 1] as int - '0' as int)
  }

  /** Integer.toString for a non-negative int: the decimal digits without leading zeros. */
  function ShowNat(n: nat): (r: string)
    ensures |r| > 0 && AllDigits(r)
    ensures DecimalValue(r) == n
    ensures n == 0 || r[0] != '0'
  {
    if n < 10 then [DigitChar(n)]
    else
      var prefix := ShowNat(n / 10);
      var r := prefix + [DigitChar(n % 10)];
      assert r[..|r| - 1] == prefix;
      r
  }

  const IntMin: int := -0x8000_0000
  const IntMax: int := 0x7FFF_FFFF

  /** The part of the text after an optional leading sign. */
  function Unsigned(s: string): string
    requires |s| > 0
  {
    if s[0] == '-' || s[0] == '+' then s[1..] else s
  }

  /** The value of well-formed text: the digits after the sign, negated after a '-'. */
  function Signed(s: string): int
    requires |s| > 0 && AllDigits(Unsigned(s))
  {
    if s[0] == '-' then -(DecimalValue(Unsigned(s)) as int) else DecimalValue(Unsigned(s))
  }

  /**
   * Integer.parseInt: an optional '+' or '-' followed by at least one digit, and a value
   * that fits a 32-bit int; anything else is a NumberFormatException (None here).
   */
  function ParseInt(s: string): (r: Option<int>)
    ensures r.Some? <==> |s| > 0 && |Unsigned(s)| > 0 && AllDigits(Unsigned(s)) && IntMin <= Signed(s) <= IntMax
    ensures r.Some? ==> r.value == Signed(s)
  {
    if |s| == 0 then None
    else
      var digits := Unsigned(s);
      if |digits| == 0 || !AllDigits(digits) then None
      else
        var v: int := if s[0] == '-' then -(DecimalValue(digits) as int) else DecimalValue(digits);
        if IntMin <= v <= IntMax then Some(v) else None
  }

  /** Equal ignoring case: same length, and each pair of characters is equal or the same ASCII letter in both cases. */
  lemma EqualsIgnoreCaseByChar(a: string, b: string)
    ensures EqualsIgnoreCase(a, b) <==>
              |a| == |b| && forall i :: 0 <= i < |a| ==> UpperChar(a[i]) == UpperChar(b[i])
  {
    if |a| == |b| && forall i :: 0 <= i < |a| ==> UpperChar(a[i]) == UpperChar(b[i]) {
      assert forall i :: 0 <= i < |a| ==> UpperCase(a)[i] == UpperCase(b)[i];
    }
  }

  /** Parsing the decimal text of a number gives the number back, when it fits an int. */
  lemma ParseShowRoundTrip(n: nat)
    ensures ParseInt(ShowNat(n)) == if n <= IntMax then Some(n) else None
  {
    var s := ShowNat(n);
    assert IsDigit(s[0]);
    assert Unsigned(s) == s;
  }

  /** The replies the engine compares with, in lower case, read as the commands. */
  lemma CaseExamples()
    ensures UpperCase("confirm") == "CONFIRM" && UpperCase("Redo") == "REDO"
    ensures EqualsIgnoreCase("endmeal", "ENDMEAL") && EqualsIgnoreCase("Status", "STATUS")
  {
    assert UpperCase("confirm") == "CONFIRM" by { assert UpperCase("confirm")[0] == 'C'; }
    assert UpperCase("Redo") == "REDO";
    assert UpperCase("endmeal") == "ENDMEAL";
    assert UpperCase("Status") == "STATUS";
  }

  /** A sign and leading zeros are accepted: "+2" and "02" are 2, "-1" is -1. */
  lemma ParseExamples()
    ensures ParseInt("2") == Some(2) && ParseInt("+2") == Some(2) && ParseInt("02") == Some(2)
    ensures ParseInt("-1") == Some(-1)
    ensures ParseInt("") == None && ParseInt("+") == None && ParseInt("2a") == None
  {
    assert Unsigned("+2") == "2";
    assert Unsigned("-1") == "1";
    assert Unsigned("02") == "02" && DecimalValue("02") == 2 by { assert "02"[..1] == "0"; }
    assert !IsDigit("2a"[1]);
  }

  /** Text with a character other than a digit after the sign position is never a number. */
  lemma ParseRejectsNonDigit(s: string, i: nat)
    requires 0 < i < |s| && !IsDigit(s[i])
    ensures ParseInt(s) == None
  {
  }
}
