/**
  formatAmount, internal/service/pdf_service.go:122-143: kobo printed as naira with thousands separators.

  The source prints float64(kobo) / 100 with two decimals, which is exact for |kobo| < 10^15; the model prints the
  quotient exactly for every amount, negative ones included.
 */
module Money {
  import opened Wrappers

  // ---------------------------------------------------------------- decimal digits

  predicate IsDigit(c: char) {
    '0' <= c <= '9'
  }

  function DigitChar(d: nat): char
    requires d < 10
  {
    '0' + d as char
  }

  function DigitValue(c: char): nat
    requires IsDigit(c)
  {
    (c - '0') as nat
  }

  predicate AllDigits(s: string) {
    forall i :: 0 <= i < |s| ==> IsDigit(s[i])
  }

  function Decimal(n: nat): (s: string)
    ensures |s| > 0 && AllDigits(s)
  {
    if n < 10 then [DigitChar(n)] else Decimal(n / 10) + [DigitChar(n % 10)]
  }

  function DecimalValue(s: string): nat
    requires AllDigits(s)
  {
    if s == "" then 0 else 10 * DecimalValue(s[..|s| - 1]) + DigitValue(s[|s| - 1])
  }

  lemma {:induction false} DecimalRoundTrip(n: nat)
    ensures DecimalValue(Decimal(n)) == n
  {
    if n >= 10 {
      DecimalRoundTrip(n / 10);
      assert Decimal(n)[..|Decimal(n)| - 1] == Decimal(n / 10);
    } else {
      assert Decimal(n)[..0] == "";
    }
  }

  /** No number is printed with a leading zero. */
  lemma {:induction false} NoLeadingZero(n: nat)
    ensures Decimal(n)[0] == '0' ==> n == 0 && Decimal(n) == "0"
  {
    if n >= 10 {
      NoLeadingZero(n / 10);
    }
  }

  // ---------------------------------------------------------------- formatAmount

  function Abs(n: int): nat {
    if n < 0 then -n else n
  }

  /** fmt.Sprintf("%.2f", naira), split at the point. */
  function IntegerPart(kobo: int): string {
    (if kobo < 0 then "-" else "") + Decimal(Abs(kobo) / 100)
  }

  function DecimalPart(kobo: int): string {
    [DigitChar(Abs(kobo) % 100 / 10), DigitChar(Abs(kobo) % 10)]
  }

  /** A comma before every group of three counted from the right; the sign counts as a character. */
  function Grouped(s: string): string {
    if |s| <= 3 then s else Grouped(s[..|s| - 3]) + "," + s[|s| - 3..]
  }

  function Formatted(kobo: int): string {
    Grouped(IntegerPart(kobo)) + "." + DecimalPart(kobo)
  }

  /** The loop's test before writing character `k`. */
  predicate CommaBefore(s: string, k: nat)
    requires k <= |s|
  {
    k > 0 && (|s| - k) % 3 == 0
  }

  /** What the loop has written after `i` characters of `s`. */
  function Written(s: string, i: nat): string
    requires i <= |s|
  {
    if i == 0 then ""
    else Written(s, i - 1) + (if CommaBefore(s, i - 1) then "," else "") + [s[i - 1]]
  }

  /** The loop decides from the left what Grouped says from the right. */
  lemma {:induction false} WrittenIsGrouped(s: string, i: nat)
    requires i <= |s| && (|s| - i) % 3 == 0
    ensures Written(s, i) == Grouped(s[..i])
  {
    if i <= 3 {
      forall k | 0 <= k < i ensures !CommaBefore(s, k) {
      }
      WrittenHead(s, i);
    } else {
      WrittenIsGrouped(s, i - 3);
      assert CommaBefore(s, i - 3) && !CommaBefore(s, i - 2) && !CommaBefore(s, i - 1);
      WrittenThree(s, i);
      assert s[..i][..i - 3] == s[..i - 3];
      assert s[..i][i - 3..] == s[i - 3..i];
    }
  }

  lemma WrittenThree(s: string, i: nat)
    requires 3 <= i <= |s|
    requires CommaBefore(s, i - 3) && !CommaBefore(s, i - 2) && !CommaBefore(s, i - 1)
    ensures Written(s, i) == Written(s, i - 3) + "," + s[i - 3..i]
  {
    var before := Written(s, i - 3) + ",";
    assert Written(s, i - 2) == before + [s[i - 3]];
    assert Written(s, i - 1) == before + [s[i - 3]] + [s[i - 2]];
    assert s[i - 3..i] == [s[i - 3]] + [s[i - 2]] + [s[i - 1]];
  }

  lemma {:induction false} WrittenHead(s: string, i: nat)
    requires i <= |s| && forall k :: 0 <= k < i ==> !CommaBefore(s, k)
    ensures Written(s, i) == s[..i]
  {
    if i > 0 {
      WrittenHead(s, i - 1);
      assert s[..i] == s[..i - 1] + [s[i - 1]];
    }
  }

  method FormatAmount(kobo: int) returns (r: string)
    ensures r == Formatted(kobo)
  {
    var intPart, decPart := IntegerPart(kobo), DecimalPart(kobo);
    var result := "";
    for i := 0 to |intPart|
      invariant result == Written(intPart, i)
    {
      if i > 0 && (|intPart| - i) % 3 == 0 {
        result := result + ",";
      }
      result := result + [intPart[i]];
    }
    WrittenIsGrouped(intPart, |intPart|);
    assert intPart[..|intPart|] == intPart;
    r := result + "." + decPart;
  }

  // ---------------------------------------------------------------- reading it back

  function StripCommas(s: string): string {
    if s == "" then ""
    else StripCommas(s[..|s| - 1]) + if s[|s| - 1] == ',' then "" else [s[|s| - 1]]
  }

  /** Reads an optional sign, digits, a point and two digits; commas are ignored. */
  function Parse(s: string): Option<int> {
    ParsePlain(StripCommas(s))
  }

  function ParsePlain(t: string): Option<int> {
    if |t| < 4 || t[|t| - 3] != '.' then None
    else
      var negative := t[0] == '-';
      var digits := (if negative then t[1..|t| - 3] else t[..|t| - 3]) + t[|t| - 2..];
      if !AllDigits(digits) then None
      else
        var value: int := DecimalValue(digits);
        Some(if negative then -value else value)
  }

  lemma {:induction false} StripAppend(a: string, b: string)
    ensures StripCommas(a + b) == StripCommas(a) + StripCommas(b)
  {
    if b == "" {
      assert a + b == a;
    } else {
      StripAppend(a, b[..|b| - 1]);
      assert (a + b)[..|a + b| - 1] == a + b[..|b| - 1];
    }
  }

  lemma {:induction false} StripNone(s: string)
    requires ',' !in s
    ensures StripCommas(s) == s
  {
    if s != "" {
      StripNone(s[..|s| - 1]);
    }
  }

  lemma StripJoin(a: string, b: string)
    ensures StripCommas(a + "," + b) == StripCommas(a) + StripCommas(b)
  {
    StripAppend(a + ",", b);
    StripAppend(a, ",");
    assert StripCommas(",") == "" by {
      assert ","[..0] == "";
    }
  }

  lemma {:induction false} StripGrouped(s: string)
    requires ',' !in s
    ensures StripCommas(Grouped(s)) == s
  {
    if |s| <= 3 {
      StripNone(s);
    } else {
      var head, tail := s[..|s| - 3], s[|s| - 3..];
      StripGrouped(head);
      StripNone(tail);
      StripJoin(Grouped(head), tail);
      assert s == head + tail;
    }
  }

  /** Appending two digits multiplies by one hundred. */
  lemma AppendTwoDigits(s: string, a: char, b: char)
    requires AllDigits(s) && IsDigit(a) && IsDigit(b)
    ensures AllDigits(s + [a, b])
    ensures DecimalValue(s + [a, b]) == 100 * DecimalValue(s) + 10 * DigitValue(a) + DigitValue(b)
  {
    var t := s + [a, b];
    assert t[..|t| - 1] == s + [a];
    assert (s + [a])[..|s|] == s;
    assert DecimalValue(s + [a]) == 10 * DecimalValue(s) + DigitValue(a);
  }

  lemma NoCommas(kobo: int)
    ensures ',' !in IntegerPart(kobo) && ',' !in "." + DecimalPart(kobo)
  {
  }

  lemma StripFormatted(kobo: int)
    ensures StripCommas(Formatted(kobo)) == IntegerPart(kobo) + "." + DecimalPart(kobo)
  {
    var i, d := IntegerPart(kobo), DecimalPart(kobo);
    NoCommas(kobo);
    StripGrouped(i);
    StripNone("." + d);
    StripAppend(Grouped(i), "." + d);
    assert Formatted(kobo) == Grouped(i) + ("." + d);
  }

  lemma DigitsAddUp(n: nat)
    ensures var d := [DigitChar(n % 100 / 10), DigitChar(n % 10)];
            AllDigits(Decimal(n / 100) + d) && DecimalValue(Decimal(n / 100) + d) == n
  {
    AppendTwoDigits(Decimal(n / 100), DigitChar(n % 100 / 10), DigitChar(n % 10));
    DecimalRoundTrip(n / 100);
  }

  lemma ParsePositive(naira: string, d: string)
    requires naira != "" && |d| == 2 && AllDigits(naira + d)
    ensures ParsePlain(naira + "." + d) == Some(DecimalValue(naira + d))
  {
    var t := naira + "." + d;
    assert t[..|t| - 3] == naira && t[|t| - 2..] == d;
    assert t[0] == (naira + d)[0];
  }

  lemma ParseNegative(naira: string, d: string)
    requires naira != "" && |d| == 2 && AllDigits(naira + d)
    ensures ParsePlain("-" + naira + "." + d) == Some(0 - DecimalValue(naira + d))
  {
    var t := "-" + naira + "." + d;
    assert t[1..|t| - 3] == naira && t[|t| - 2..] == d;
  }

  /** Every amount, positive or negative, is read back from its formatted text; so no two amounts look alike. */
  lemma FormatRoundTrip(kobo: int)
    ensures Parse(Formatted(kobo)) == Some(kobo)
  {
    StripFormatted(kobo);
    var naira, d := Decimal(Abs(kobo) / 100), DecimalPart(kobo);
    DigitsAddUp(Abs(kobo));
    if kobo < 0 {
      assert IntegerPart(kobo) == "-" + naira;
      ParseNegative(naira, d);
    } else {
      assert IntegerPart(kobo) == naira;
      ParsePositive(naira, d);
    }
  }

  lemma FormatInjective(k1: int, k2: int)
    requires Formatted(k1) == Formatted(k2)
    ensures k1 == k2
  {
    FormatRoundTrip(k1);
    FormatRoundTrip(k2);
  }

  // ---------------------------------------------------------------- where the commas are

  /** Commas stand exactly at every fourth place from the right, so every group after the first has three characters. */
  lemma {:induction false} CommaPlaces(s: string, p: nat)
    requires ',' !in s && p < |Grouped(s)|
    ensures Grouped(s)[p] == ',' <==> (|Grouped(s)| - p) % 4 == 0
    ensures p == 0 ==> Grouped(s)[p] != ','
  {
    if |s| > 3 {
      var head := Grouped(s[..|s| - 3]);
      if p < |head| {
        CommaPlaces(s[..|s| - 3], p);
        assert Grouped(s)[p] == head[p];
      }
    }
  }

  /**
    In a formatted amount a comma follows the sign directly exactly when the amount is negative and its naira have 3,
    6, 9, ... digits.
   */
  lemma CommaAfterSignIff(kobo: int)
    ensures |Grouped(IntegerPart(kobo))| > 1
            && Grouped(IntegerPart(kobo))[0] == '-' && Grouped(IntegerPart(kobo))[1] == ','
            <==> kobo < 0 && |Decimal(Abs(kobo) / 100)| % 3 == 0
  {
    var s := IntegerPart(kobo);
    assert ',' !in s;
    GroupedHead(s);
    if kobo < 0 {
      GroupedSecond(s);
    }
  }

  lemma {:induction false} GroupedHead(s: string)
    requires s != ""
    ensures Grouped(s) != "" && Grouped(s)[0] == s[0]
  {
    if |s| > 3 {
      GroupedHead(s[..|s| - 3]);
    }
  }

  lemma {:induction false} GroupedSecond(s: string)
    requires |s| > 1 && ',' !in s
    ensures |Grouped(s)| > 1 && (Grouped(s)[1] == ',' <==> |s| % 3 == 1)
  {
    if |s| > 4 {
      GroupedSecond(s[..|s| - 3]);
    } else if |s| == 4 {
      assert Grouped(s[..1]) == s[..1];
    }
  }

  /**
    The shape of a printed amount: a sign for negative ones only, naira without leading zeros, and two digits of kobo.
   */
  predicate Shaped(s: string, negative: bool) {
    var start := if negative then 1 else 0;
    && start + 4 <= |s| && (negative ==> s[0] == '-')
    && AllDigits(s[start..|s| - 3]) && s[|s| - 3] == '.' && AllDigits(s[|s| - 2..])
    && (s[start] == '0' ==> |s| == start + 4)
  }

  lemma ShapeOfParts(sign: string, naira: string, d: string)
    requires sign == "" || sign == "-"
    requires naira != "" && AllDigits(naira) && (naira[0] == '0' ==> |naira| == 1) && |d| == 2 && AllDigits(d)
    ensures Shaped(sign + naira + "." + d, sign == "-")
  {
    var s := sign + naira + "." + d;
    assert s[|sign|..|s| - 3] == naira && s[|s| - 2..] == d;
    assert s[|sign|] == naira[0];
  }

  lemma ShapeOfAmount(kobo: int)
    ensures Shaped(StripCommas(Formatted(kobo)), kobo < 0)
  {
    StripFormatted(kobo);
    NoLeadingZero(Abs(kobo) / 100);
    ShapeOfParts(if kobo < 0 then "-" else "", Decimal(Abs(kobo) / 100), DecimalPart(kobo));
  }
}
