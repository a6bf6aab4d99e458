/** Decimal digit strings: printing a number, reading one, and thousands separators. */
module Decimal {

  predicate IsDigit(c: char) { '0' <= c <= '9' }

  predicate AllDigits(s: string) { forall c <- s :: IsDigit(c) }

  function DigitChar(d: nat): (c: char)
    requires d < 10
    ensures IsDigit(c)
  {
    '0' + d as char
  }

  function DigitValue(c: char): (d: nat)
    requires IsDigit(c)
    ensures d < 10
  {
    c as int - '0' as int
  }

  /** `str(n)` for a natural number. */
  function Print(n: nat): (s: string)
    ensures s != "" && AllDigits(s)
  {
    if n < 10 then [DigitChar(n)] else Print(n / 10) + [DigitChar(n % 10)]
  }

  /** `int(s)` for a string of ASCII digits. */
  function Value(s: string): nat
    requires AllDigits(s)
  {
    if s == "" then 0 else 10 * Value(s[..|s| - 1]) + DigitValue(s[|s| - 1])
  }

  lemma {:induction false} PrintValue(n: nat)
    ensures Value(Print(n)) == n
  {
    if n >= 10 {
      PrintValue(n / 10);
      assert Print(n)[..|Print(n)| - 1] == Print(n / 10);
    }
  }

  /** The digits of a number, without zeros in front. */
  lemma {:induction false} WhatIsPrinted(n: nat)
    ensures n == 0 ==> Print(n) == "0"
    ensures n > 0 ==> '1' <= Print(n)[0] <= '9'
  {
    if n >= 10 {
      WhatIsPrinted(n / 10);
      assert Print(n)[0] == Print(n / 10)[0];
    }
  }

  lemma {:induction false} PrintIsInjective(m: nat, n: nat)
    requires Print(m) == Print(n)
    ensures m == n
  {
    PrintValue(m);
    PrintValue(n);
  }

  // ---- thousands separators ----

  function StripCommas(s: string): (r: string)
    ensures forall c <- r :: c in s && c != ','
  {
    if s == "" then ""
    else if s[0] == ',' then StripCommas(s[1..])
    else [s[0]] + StripCommas(s[1..])
  }

  lemma {:induction false} StripCommasConcat(s: string, t: string)
    ensures StripCommas(s + t) == StripCommas(s) + StripCommas(t)
  {
    if s == "" {
      assert s + t == t;
    } else {
      assert (s + t)[1..] == s[1..] + t;
      StripCommasConcat(s[1..], t);
    }
  }

  lemma {:induction false} StripCommasDigits(s: string)
    requires AllDigits(s)
    ensures StripCommas(s) == s
  {
    if s != "" {
      assert s[0] in s && AllDigits(s[1..]);
      StripCommasDigits(s[1..]);
      assert s == [s[0]] + s[1..];
    }
  }

  function Group(n: nat): (s: string)
    requires n < 1000
    ensures |s| == 3 && AllDigits(s)
  {
    [DigitChar(n / 100), DigitChar(n / 10 % 10), DigitChar(n % 10)]
  }

  /** A number written with a comma before every group of three digits. */
  function PrintGrouped(n: nat): (s: string)
    ensures s != "" && IsDigit(s[0])
    ensures forall c <- s :: IsDigit(c) || c == ','
  {
    if n < 1000 then Print(n) else PrintGrouped(n / 1000) + "," + Group(n % 1000)
  }

  lemma ValueAppend(s: string, c: char)
    requires AllDigits(s) && IsDigit(c)
    ensures AllDigits(s + [c]) && Value(s + [c]) == 10 * Value(s) + DigitValue(c)
  {
    assert (s + [c])[..|s|] == s;
  }

  lemma ValueAppendThree(s: string, g: string)
    requires AllDigits(s) && AllDigits(g) && |g| == 3
    ensures AllDigits(s + g)
    ensures Value(s + g) == 1000 * Value(s) + 100 * DigitValue(g[0]) + 10 * DigitValue(g[1]) + DigitValue(g[2])
  {
    ValueAppend(s, g[0]);
    ValueAppend(s + [g[0]], g[1]);
    ValueAppend(s + [g[0]] + [g[1]], g[2]);
    assert s + g == s + [g[0]] + [g[1]] + [g[2]];
  }

  lemma GroupDigits(n: nat)
    requires n < 1000
    ensures 100 * (n / 100) + 10 * (n / 10 % 10) + n % 10 == n
  {
    assert n / 10 == 10 * (n / 100) + n / 10 % 10;
  }

  lemma {:induction false} PrintGroupedValue(n: nat)
    ensures AllDigits(StripCommas(PrintGrouped(n)))
    ensures Value(StripCommas(PrintGrouped(n))) == n
  {
    if n < 1000 {
      StripCommasDigits(Print(n));
      PrintValue(n);
    } else {
      var head, g := PrintGrouped(n / 1000), Group(n % 1000);
      PrintGroupedValue(n / 1000);
      StripCommasConcat(head + ",", g);
      StripCommasConcat(head, ",");
      StripCommasDigits(g);
      assert StripCommas(",") == "" && StripCommas(head) + "" == StripCommas(head);
      ValueAppendThree(StripCommas(head), g);
      GroupDigits(n % 1000);
    }
  }
}
