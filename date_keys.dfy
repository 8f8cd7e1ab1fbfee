/** The history's date and month keys, `YYYY-MM-DD` and `YYYY-MM`, built
    from calendar integers the way the donation checker's template strings
    build them: the year as JavaScript's `String` renders it, month and day
    through `padStart(2, '0')`. */
module DateKeys {

  predicate IsDigits(s: string) {
    forall i :: 0 <= i < |s| ==> '0' <= s[i] <= '9'
  }

  /** The character of the decimal digit `d`. */
  function DigitChar(d: nat): (c: char)
    requires d < 10
    ensures '0' <= c <= '9' && c as int - '0' as int == d
  {
    ('0' as int + d) as char
  }

  /** The value of a string of decimal digits; the partner of NatToString. */
  function DigitsValue(s: string): nat
    requires IsDigits(s)
  {
    if s == [] then 0
    else 10 * DigitsValue(s[..|s| - 1]) + (s[|s| - 1] as int - '0' as int)
  }

  function Pow10(k: nat): nat {
    if k == 0 then 1 else 10 * Pow10(k - 1)
  }

  /** Decimal rendering of a natural number: only digits, never empty, and
      with no leading zero except for zero itself. */
  function NatToString(n: nat): (s: string)
    ensures 1 <= |s| && IsDigits(s)
    ensures s[0] == '0' <==> n == 0
    decreases n
  {
    if n < 10 then [DigitChar(n)] else NatToString(n / 10) + [DigitChar(n % 10)]
  }

  /** Decimal rendering of any year a JavaScript Date can hold, as `String(n)`
      gives it. */
  function IntToString(n: int): (s: string)
    ensures 1 <= |s|
    ensures n >= 0 ==> s == NatToString(n)
    ensures n < 0 ==> s[0] == '-' && s[1..] == NatToString(-n)
  {
    if n < 0 then "-" + NatToString(-n) else NatToString(n)
  }

  /** `String(n).padStart(2, '0')`: zeros are added at the front until the
      text is two characters long; a longer text is kept whole. */
  function Pad2(n: int): (s: string)
    ensures |s| == if |IntToString(n)| < 2 then 2 else |IntToString(n)|
    ensures s[|s| - |IntToString(n)|..] == IntToString(n)
    ensures |IntToString(n)| < 2 ==> s[0] == '0'
  {
    var t := IntToString(n);
    if |t| < 2 then "0" + t else t
  }

  /** The date key `YYYY-MM-DD` (donation_checker.js, getTodayDate). For
      any calendar integers it starts with the month key of its month. */
  function DateKey(year: int, month: int, day: int): (key: string)
    ensures |MonthKey(year, month)| < |key|
    ensures key[..|MonthKey(year, month)|] == MonthKey(year, month)
  {
    PrefixOfConcat(IntToString(year) + "-" + Pad2(month), "-", Pad2(day));
    IntToString(year) + "-" + Pad2(month) + "-" + Pad2(day)
  }

  /** The month key `YYYY-MM` (donation_checker.js, getCurrentMonthKey). */
  function MonthKey(year: int, month: int): string {
    IntToString(year) + "-" + Pad2(month)
  }

  /** Reading the digits of a rendered number gives the number back. */
  lemma {:induction false} NatToStringRoundTrip(n: nat)
    ensures DigitsValue(NatToString(n)) == n
  {
    if n >= 10 {
      var s := NatToString(n);
      assert s[..|s| - 1] == NatToString(n / 10);
      NatToStringRoundTrip(n / 10);
    }
  }

  /** A number with k digits renders to exactly k characters (zero counts
      as one digit). */
  lemma {:induction false} NatToStringLength(n: nat, k: nat)
    requires 1 <= k && n < Pow10(k) && (k == 1 || Pow10(k - 1) <= n)
    ensures |NatToString(n)| == k
  {
    if k > 1 {
      var p := Pow10(k - 2);
      assert Pow10(k - 1) == 10 * p;
      assert Pow10(k) == 100 * p;
      assert p <= n / 10 < 10 * p;
      NatToStringLength(n / 10, k - 1);
    }
  }

  /** Months and days below 100 become exactly two digits that read back as
      the number: zero-padding to width 2. */
  lemma Pad2TwoDigits(n: int)
    requires 0 <= n < 100
    ensures |Pad2(n)| == 2 && IsDigits(Pad2(n)) && DigitsValue(Pad2(n)) == n
    ensures n < 10 ==> Pad2(n) == ['0', DigitChar(n)]
  {
    NatToStringRoundTrip(n);
    assert Pow10(1) == 10 && Pow10(2) == 100;
    if n < 10 {
      NatToStringLength(n, 1);
    } else {
      NatToStringLength(n, 2);
      assert Pad2(n) == NatToString(n);
    }
  }

  /** A four-digit year renders to exactly four digits that read back as the year. */
  lemma FourDigitYear(year: int)
    requires 1000 <= year <= 9999
    ensures |IntToString(year)| == 4 && IsDigits(IntToString(year))
    ensures DigitsValue(IntToString(year)) == year
  {
    assert Pow10(1) == 10;
    assert Pow10(2) == 100;
    assert Pow10(3) == 1000;
    assert Pow10(4) == 10000;
    NatToStringLength(year, 4);
    NatToStringRoundTrip(year);
  }

  /** Where the three fields of a `YYYY-MM-DD` key sit. */
  lemma KeyFields(y: string, m: string, d: string)
    requires |y| == 4 && |m| == 2 && |d| == 2
    ensures var key := y + "-" + m + "-" + d;
      && |key| == 10 && key[4] == '-' && key[7] == '-'
      && key[..4] == y && key[5..7] == m && key[8..] == d
  {
  }

  /** Where the three fields sit in the key of a date with a four-digit year
      and a month and day below 100. */
  lemma DateKeyLayout(year: int, month: int, day: int)
    requires 1000 <= year <= 9999 && 0 <= month < 100 && 0 <= day < 100
    ensures var key := DateKey(year, month, day);
      && |key| == 10 && key[4] == '-' && key[7] == '-'
      && key[..4] == IntToString(year) && key[5..7] == Pad2(month) && key[8..] == Pad2(day)
  {
    var y, m, d := IntToString(year), Pad2(month), Pad2(day);
    assert |y| == 4 by { FourDigitYear(year); }
    assert |m| == 2 by { Pad2TwoDigits(month); }
    assert |d| == 2 by { Pad2TwoDigits(day); }
    KeyFields(y, m, d);
  }

  /** For a four-digit year and a month and day below 100 (JavaScript's Date
      always gives months 1..12 and days 1..31), the date key has the shape
      `YYYY-MM-DD` and its three digit groups read back as year, month, day. */
  lemma DateKeyFormat(year: int, month: int, day: int)
    requires 1000 <= year <= 9999 && 0 <= month < 100 && 0 <= day < 100
    ensures var key := DateKey(year, month, day);
      && |key| == 10 && key[4] == '-' && key[7] == '-'
      && IsDigits(key[..4]) && IsDigits(key[5..7]) && IsDigits(key[8..])
      && DigitsValue(key[..4]) == year
      && DigitsValue(key[5..7]) == month
      && DigitsValue(key[8..]) == day
  {
    DateKeyLayout(year, month, day);
    FourDigitYear(year);
    Pad2TwoDigits(month);
    Pad2TwoDigits(day);
  }

  /** For a four-digit year the month key is the seven-character prefix of
      every date key of that month. */
  lemma MonthKeyIsDatePrefix(year: int, month: int, day: int)
    requires 1000 <= year <= 9999 && 0 <= month < 100
    ensures |MonthKey(year, month)| == 7
    ensures MonthKey(year, month) == DateKey(year, month, day)[..7]
  {
    var y, m, d := IntToString(year), Pad2(month), Pad2(day);
    assert |y| == 4 by { FourDigitYear(year); }
    assert |m| == 2 by { Pad2TwoDigits(month); }
    PrefixOfConcat(y + "-" + m, "-", d);
  }

  lemma PrefixOfConcat(a: string, b: string, c: string)
    ensures (a + b + c)[..|a|] == a
  {
    assert forall i :: 0 <= i < |a| ==> (a + b + c)[i] == a[i];
  }

  /** Within those ranges, two dates share a key exactly when they are the
      same date, so no day's donors can land under another day's key. */
  lemma DateKeyInjective(y1: int, m1: int, d1: int, y2: int, m2: int, d2: int)
    requires 1000 <= y1 <= 9999 && 0 <= m1 < 100 && 0 <= d1 < 100
    requires 1000 <= y2 <= 9999 && 0 <= m2 < 100 && 0 <= d2 < 100
    ensures DateKey(y1, m1, d1) == DateKey(y2, m2, d2) <==> y1 == y2 && m1 == m2 && d1 == d2
  {
    DateKeyFormat(y1, m1, d1);
    DateKeyFormat(y2, m2, d2);
  }
}
