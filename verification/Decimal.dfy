/** Decimal notation of natural numbers, shared by workflow ids and version numbers. */
module Decimal {

  function Digit(d: nat): char
    requires d < 10
  {
    ('0' as int + d) as char
  }

  predicate IsDigit(c: char) {
    '0' <= c <= '9'
  }

  function DigitValue(c: char): nat
    requires IsDigit(c)
  {
    c as nat - '0' as nat
  }

  predicate AllDigits(s: string) {
    forall i :: 0 <= i < |s| ==> IsDigit(s[i])
  }

  function Print(n: nat): string {
    if n < 10 then [Digit(n)] else Print(n / 10) + [Digit(n % 10)]
  }

  function Value(s: string): nat
    requires AllDigits(s)
  {
    if s == "" then 0 else 10 * Value(s[..|s| - 1]) + DigitValue(s[|s| - 1])
  }

  lemma {:induction false} PrintValue(n: nat)
    ensures Print(n) != "" && AllDigits(Print(n)) && Value(Print(n)) == n
  {
    if n < 10 {
      assert Print(n)[..0] == "";
    } else {
      PrintValue(n / 10);
      assert Print(n)[..|Print(n)| - 1] == Print(n / 10);
    }
  }

  lemma {:induction false} LeadingZero(s: string)
    requires AllDigits(s)
    ensures AllDigits("0" + s) && Value("0" + s) == Value(s)
  {
    var t := "0" + s;
    if s == "" {
      assert t[..0] == "";
    } else {
      LeadingZero(s[..|s| - 1]);
      assert t[..|t| - 1] == "0" + s[..|s| - 1];
    }
  }

  /** Left-pad with zeros to a width. */
  function Pad(s: string, width: nat): string
    decreases width - |s|
  {
    if |s| >= width then s else Pad("0" + s, width)
  }

  lemma {:induction false} PadValue(s: string, width: nat)
    requires AllDigits(s)
    ensures AllDigits(Pad(s, width)) && Value(Pad(s, width)) == Value(s)
    decreases width - |s|
  {
    if |s| < width {
      LeadingZero(s);
      PadValue("0" + s, width);
    }
  }

  lemma {:induction false} PrintHead(n: nat)
    ensures Print(n)[0] == '0' ==> n == 0
  {
    PrintValue(n);
    if n >= 10 {
      PrintHead(n / 10);
      PrintValue(n / 10);
      assert Print(n)[0] == Print(n / 10)[0];
    }
  }

  /** Numerals without a leading zero are exactly those that print back as they were read. */
  lemma ValuePrint(s: string)
    requires s != "" && AllDigits(s)
    ensures Print(Value(s)) == s <==> |s| == 1 || s[0] != '0'
  {
    if |s| == 1 || s[0] != '0' {
      ValuePrintCanonical(s);
    } else {
      PrintHead(Value(s));
    }
  }

  lemma DigitRoundTrip(c: char)
    requires IsDigit(c)
    ensures DigitValue(c) < 10 && Digit(DigitValue(c)) == c
  {
  }

  lemma PrintAppend(n: nat, high: nat, low: nat)
    requires n == 10 * high + low && low < 10 && high > 0
    ensures Print(n) == Print(high) + [Digit(low)]
  {
    assert n / 10 == high && n % 10 == low;
  }

  lemma ValueAppend(s: string, init: string, last: char)
    requires s == init + [last] && AllDigits(s)
    ensures AllDigits(init) && IsDigit(last) && Value(s) == 10 * Value(init) + DigitValue(last)
  {
    assert s[..|s| - 1] == init && s[|s| - 1] == last;
    forall i | 0 <= i < |init| ensures IsDigit(init[i]) {
      assert s[i] == init[i];
    }
  }

  lemma {:induction false} ValuePositive(s: string)
    requires s != "" && AllDigits(s) && s[0] != '0'
    ensures Value(s) > 0
  {
    var init, last := s[..|s| - 1], s[|s| - 1];
    assert s == init + [last];
    ValueAppend(s, init, last);
    if init == "" {
      DigitPositive(last);
    } else {
      assert init[0] == s[0];
      ValuePositive(init);
    }
  }

  lemma DigitPositive(c: char)
    requires IsDigit(c) && c != '0'
    ensures DigitValue(c) > 0
  {
  }

  lemma {:induction false} ValuePrintCanonical(s: string)
    requires s != "" && AllDigits(s) && (|s| == 1 || s[0] != '0')
    ensures Print(Value(s)) == s
  {
    var init, last := s[..|s| - 1], s[|s| - 1];
    assert s == init + [last];
    ValueAppend(s, init, last);
    DigitRoundTrip(last);
    if init == "" {
      assert Value(s) == DigitValue(last);
    } else {
      assert init[0] == s[0];
      ValuePrintCanonical(init);
      ValuePositive(init);
      PrintAppend(Value(s), Value(init), DigitValue(last));
    }
  }
}
