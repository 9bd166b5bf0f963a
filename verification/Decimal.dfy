/** Decimal numerals: how the original prints numbers into names and reads them back. */
module Decimal {

  predicate IsDigit(c: char) {
    '0' <= c <= '9'
  }

  predicate AllDigits(s: string) {
    forall i :: 0 <= i < |s| ==> IsDigit(s[i])
  }

  function Digit(n: nat): (c: char)
    requires n < 10
    ensures IsDigit(c) && DigitValue(c) == n
  {
    n as char + '0'
  }

  function DigitValue(c: char): nat
    requires IsDigit(c)
  {
    (c - '0') as nat
  }

  /** `n.toString()` for a non-negative integer. */
  function Print(n: nat): (s: string)
    ensures AllDigits(s) && |s| >= 1
  {
    if n < 10 then [Digit(n)] else Print(n / 10) + [Digit(n % 10)]
  }

  /** `n.toString()` for any integer. */
  function PrintInt(n: int): string {
    if n < 0 then "-" + Print(-n) else Print(n)
  }

  /** `n.toString().padStart(2, '0')`. */
  function Pad2(n: nat): string {
    if |Print(n)| < 2 then "0" + Print(n) else Print(n)
  }

  /** `Number(s)` for a string of digits. */
  function Parse(s: string): nat
    requires AllDigits(s)
  {
    if s == "" then 0 else Parse(s[..|s| - 1]) * 10 + DigitValue(s[|s| - 1])
  }

  lemma {:induction false} ParsePrint(n: nat)
    ensures Parse(Print(n)) == n
  {
    if n >= 10 {
      ParsePrint(n / 10);
      assert Print(n)[..|Print(n)| - 1] == Print(n / 10);
    }
  }

  /** Printing is injective: a counter key or partition name determines its numbers. */
  lemma PrintInjective(m: nat, n: nat)
    requires Print(m) == Print(n)
    ensures m == n
  {
    ParsePrint(m);
    ParsePrint(n);
  }

  /** A numeral has exactly as many digits as its magnitude demands. */
  lemma {:induction false} PrintLength(n: nat)
    ensures |Print(n)| == 1 <==> n < 10
    ensures |Print(n)| == 2 <==> 10 <= n < 100
    ensures |Print(n)| == 3 <==> 100 <= n < 1000
    ensures |Print(n)| == 4 <==> 1000 <= n < 10000
  {
    if n >= 10 { PrintLength3(n / 10); }
  }

  lemma {:induction false} PrintLength3(n: nat)
    ensures |Print(n)| == 1 <==> n < 10
    ensures |Print(n)| == 2 <==> 10 <= n < 100
    ensures |Print(n)| == 3 <==> 100 <= n < 1000
  {
    if n >= 10 {
      if n >= 100 {
        assert |Print(n / 100)| >= 1;
        assert Print(n / 10) == Print(n / 10 / 10) + [Digit(n / 10 % 10)];
        if n >= 1000 { assert |Print(n / 10 / 10)| >= 2; }
      }
    }
  }

  function Power10(n: nat): nat {
    if n == 0 then 1 else 10 * Power10(n - 1)
  }

  /** A numeral without a leading zero prints back to itself, whatever its length. */
  lemma {:induction false} PrintParse(s: string)
    requires AllDigits(s) && s != ""
    requires s[0] != '0'
    ensures Parse(s) >= Power10(|s| - 1) && Print(Parse(s)) == s
  {
    var front, last := s[..|s| - 1], s[|s| - 1];
    DigitRoundTrip(last);
    assert Parse(s) == Parse(front) * 10 + DigitValue(last);
    if |s| > 1 {
      PrintParse(front);
      PowerAtLeastOne(|front| - 1);
      assert Power10(|s| - 1) == 10 * Power10(|front| - 1);
      PrintAppends(Parse(front), DigitValue(last));
      hide *;
      assert s == front + [last];
    } else {
      assert front == "";
    }
  }

  lemma DigitRoundTrip(c: char)
    requires IsDigit(c)
    ensures DigitValue(c) < 10 && Digit(DigitValue(c)) == c
  {
  }

  lemma PrintAppends(n: nat, d: nat)
    requires n >= 1 && d < 10
    ensures Print(n * 10 + d) == Print(n) + [Digit(d)]
  {
    var m := n * 10 + d;
    assert m / 10 == n && m % 10 == d;
    hide Digit;
  }

  lemma {:induction false} PowerAtLeastOne(n: nat)
    ensures Power10(n) >= 1
  {
    if n > 0 { PowerAtLeastOne(n - 1); }
  }

  lemma {:induction false} ParseBound(s: string)
    requires AllDigits(s)
    ensures Parse(s) < Power10(|s|)
    ensures s != "" && s[0] == '0' ==> Parse(s) < Power10(|s| - 1)
  {
    if s != "" {
      ParseBound(s[..|s| - 1]);
    }
  }

  /** Two digits read and padded back are the same two digits. */
  lemma Pad2Parse(s: string)
    requires |s| == 2 && AllDigits(s)
    ensures Parse(s) < 100 && Pad2(Parse(s)) == s
  {
    ParseBound(s);
    assert Power10(2) == 100 by { assert Power10(1) == 10; }
    if s[0] == '0' {
      assert s[..1][..0] == "";
      assert Parse(s) == DigitValue(s[1]);
      assert Print(Parse(s)) == [s[1]];
    } else {
      PrintParse(s);
    }
  }

  lemma ParsePad2(n: nat)
    requires n < 100
    ensures |Pad2(n)| == 2 && AllDigits(Pad2(n)) && Parse(Pad2(n)) == n
  {
    PrintLength(n);
    ParsePrint(n);
    if n < 10 {
      var s := Pad2(n);
      assert s[..1] == "0" && s[..1][..0] == "";
      assert Parse(s[..1]) == 0;
    }
  }

  /** Four digits print back exactly when they name a number of at least 1000. */
  lemma Parse4(s: string)
    requires |s| == 4 && AllDigits(s)
    ensures Parse(s) < 10000
    ensures Print(Parse(s)) == s <==> Parse(s) >= 1000
  {
    assert Power10(4) == 10000 by {
      assert Power10(1) == 10;
      assert Power10(2) == 100;
      assert Power10(3) == 1000;
    }
    assert Power10(3) == 1000;
    ParseBound(s);
    PrintLength(Parse(s));
    if s[0] != '0' { PrintParse(s); }
  }
}
