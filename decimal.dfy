/** Decimal numbers in text: C's atoi as the tools use it to read numeric fields, and
    the decimal form in which an output stream prints an integer. */
module Decimal {

  predicate IsDigit(ch: char)
  {
    '0' <= ch <= '9'
  }

  /** The characters C's isspace accepts: blank, tab, newline, vertical tab, form feed
      and carriage return. */
  predicate IsSpace(ch: char)
  {
    ch == ' ' || ch == '\t' || ch == '\n' || ch == '\U{B}' || ch == '\U{C}' || ch == '\r'
  }

  predicate AllDigits(s: string)
  {
    forall i :: 0 <= i < |s| ==> IsDigit(s[i])
  }

  /** The longest prefix of `s` made of decimal digits. */
  function LeadingDigits(s: string): (d: string)
    ensures |d| <= |s| && d == s[..|d|] && AllDigits(d)
    ensures |d| < |s| ==> !IsDigit(s[|d|])
  {
    if s == [] || !IsDigit(s[0]) then [] else [s[0]] + LeadingDigits(s[1..])
  }

  /** The value of a string of digits, most significant first. */
  function DigitsValue(d: string): nat
    requires AllDigits(d)
  {
    if d == [] then 0 else DigitsValue(d[..|d| - 1]) * 10 + (d[|d| - 1] as int - '0' as int)
  }

  /** `s` without its leading white space. */
  function SkipSpace(s: string): string
  {
    if s != [] && IsSpace(s[0]) then SkipSpace(s[1..]) else s
  }

  /** C's atoi: leading white space is skipped, one optional sign is read, and the
      digits that follow are converted; the first other character ends the number, and
      text with no digits reads as 0. Overflow of `int` (undefined in C) is not modelled. */
  function Atoi(s: string): int
  {
    var t := SkipSpace(s);
    if t != [] && t[0] == '-' then 0 - DigitsValue(LeadingDigits(t[1..])) as int
    else if t != [] && t[0] == '+' then DigitsValue(LeadingDigits(t[1..]))
    else DigitsValue(LeadingDigits(t))
  }

  /** The digit for a value below ten. */
  function Digit(n: nat): (ch: char)
    requires n < 10
    ensures IsDigit(ch) && ch as int - '0' as int == n
  {
    ('0' as int + n) as char
  }

  /** The decimal form of a natural number, without leading zeros. */
  function NatText(n: nat): (s: string)
    ensures s != [] && AllDigits(s)
  {
    if n < 10 then [Digit(n)] else NatText(n / 10) + [Digit(n % 10)]
  }

  /** How `ostream << n` prints an integer. */
  function IntText(n: int): (s: string)
    ensures s != [] && (forall i :: 0 <= i < |s| ==> IsDigit(s[i]) || s[i] == '-')
  {
    if n < 0 then "-" + NatText(-n) else NatText(n)
  }

  lemma {:induction false} NatTextValue(n: nat)
    ensures DigitsValue(NatText(n)) == n
  {
    if n >= 10 {
      var d := NatText(n);
      assert d[..|d| - 1] == NatText(n / 10);
      NatTextValue(n / 10);
    }
  }

  lemma {:induction false} LeadingDigitsAll(s: string)
    requires AllDigits(s)
    ensures LeadingDigits(s) == s
  {
    if s != [] {
      LeadingDigitsAll(s[1..]);
    }
  }

  /** atoi reads back what the output stream prints: decimal text round-trips. */
  lemma AtoiIntText(n: int)
    ensures Atoi(IntText(n)) == n
  {
    var s := IntText(n);
    if n < 0 {
      var d := NatText(-n);
      assert s[0] == '-' && s[1..] == d;
      assert SkipSpace(s) == s;
      LeadingDigitsAll(d);
      NatTextValue(-n);
    } else {
      assert IsDigit(s[0]);
      assert SkipSpace(s) == s;
      LeadingDigitsAll(s);
      NatTextValue(n);
    }
  }

  /** The special case of a natural number. */
  lemma AtoiNatText(n: nat)
    ensures Atoi(NatText(n)) == n
  {
    AtoiIntText(n);
  }
}
