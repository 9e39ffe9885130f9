/** Decimal printing of integers as `str(n)` and f-strings do it, and reading it back. */
module Decimal {
  import opened Wrappers

  predicate IsDigit(c: char) {
    '0' <= c <= '9'
  }

  function DigitChar(d: nat): (c: char)
    requires d < 10
    ensures IsDigit(c) && c as int - '0' as int == d
  {
    ('0' as int + d) as char
  }

  function Print(n: nat): (s: string)
    ensures s != "" && forall i :: 0 <= i < |s| ==> IsDigit(s[i])
  {
    if n < 10 then [DigitChar(n)] else Print(n / 10) + [DigitChar(n % 10)]
  }

  /** `str(n)` for any integer. */
  function PrintInt(n: int): (s: string)
    ensures s != "" && IsDigit(s[|s| - 1])
    ensures forall i :: 0 <= i < |s| ==> IsDigit(s[i]) || s[i] == '-'
  {
    if n < 0 then "-" + Print(-n) else Print(n)
  }

  /** `int(s)` for a string of plain digits. */
  function Parse(s: string): Option<nat> {
    if s == "" then None
    else
      var last := s[|s| - 1];
      if !IsDigit(last) then None
      else if |s| == 1 then Some(last as int - '0' as int)
      else match Parse(s[..|s| - 1])
        case None => None
        case Some(n) => Some(10 * n + (last as int - '0' as int))
  }

  /** Positional notation: one more digit is ten times the number plus the digit. */
  lemma OneMoreDigit(n: nat, d: nat)
    requires d < 10
    ensures Print(10 * n + d) == (if n == 0 then "" else Print(n)) + ["0123456789"[d]]
  {
  }

  lemma MinusSign(n: nat)
    ensures PrintInt(n) == Print(n) && (n > 0 ==> PrintInt(0 - n) == "-" + Print(n))
  {
  }

  /** Printing a number and reading it back gives the number. */
  lemma {:induction false} ParsePrint(n: nat)
    ensures Parse(Print(n)) == Some(n)
  {
    if n >= 10 {
      ParsePrint(n / 10);
      var s := Print(n);
      assert s[..|s| - 1] == Print(n / 10);
    }
  }

  lemma PrintIntInjective(m: int, n: int)
    ensures PrintInt(m) == PrintInt(n) ==> m == n
  {
    if PrintInt(m) == PrintInt(n) {
      assert (m < 0) == (PrintInt(m)[0] == '-');
      assert (n < 0) == (PrintInt(n)[0] == '-');
      if m < 0 {
        assert PrintInt(m)[1..] == Print(-m) && PrintInt(n)[1..] == Print(-n);
        ParsePrint(-m);
        ParsePrint(-n);
      } else {
        ParsePrint(m);
        ParsePrint(n);
      }
    }
  }
}
