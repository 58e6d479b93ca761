/** The data model: calendar dates as pandas holds them, transaction
    records, the year-month label a date is truncated to, and the errors
    the program raises. */
module Records {
  import opened Wrappers
  import Lex

  datatype Date = Date(year: int, month: int, day: int)

  predicate LeapYear(year: int)
  {
    year % 4 == 0 && (year % 100 != 0 || year % 400 == 0)
  }

  function DaysInMonth(year: int, month: int): (n: int)
    requires 1 <= month <= 12
    ensures 28 <= n <= 31
  {
    if month == 2 then (if LeapYear(year) then 29 else 28)
    else if month in {4, 6, 9, 11} then 30
    else 31
  }

  /** Chronological `<=` on dates. */
  predicate DateLe(a: Date, b: Date)
  {
    a.year < b.year
    || (a.year == b.year && (a.month < b.month || (a.month == b.month && a.day <= b.day)))
  }

  /** A date of the Gregorian calendar that a pandas timestamp can hold:
      whole days from 1677-09-22 to 2262-04-11. */
  predicate ValidTimestamp(d: Date)
  {
    && 1 <= d.month <= 12
    && 1 <= d.day <= DaysInMonth(d.year, d.month)
    && DateLe(Date(1677, 9, 22), d)
    && DateLe(d, Date(2262, 4, 11))
  }

  /** What `pd.to_datetime` produces for a cell it can parse (the time of
      day, which never affects the month, is not kept). */
  type Timestamp = d: Date | ValidTimestamp(d) witness Date(1970, 1, 1)

  /** One row of the merged data set: `date`, `product` and `amount`. The
      product is `None` where the file's cell was missing (pandas' NaN). */
  datatype Record = Record(date: Timestamp, product: Option<string>, amount: real)

  /** The calendar month a record falls in. */
  datatype Month = Month(year: int, month: int)

  function MonthOf(d: Timestamp): Month
  {
    Month(d.year, d.month)
  }

  /** Chronological order on months. */
  predicate MonthBefore(a: Month, b: Month)
  {
    a.year < b.year || (a.year == b.year && a.month < b.month)
  }

  /** Failures that abort a run. */
  datatype Error =
    | NoInputFiles                                    // no file matched the pattern
    | SchemaError(file: string, missing: seq<string>) // required columns absent from a file
    | EmptyMonthlySummary                             // nothing to draw in the trend chart
    | EmptyProductSummary                             // nothing to draw in the top-10 chart

  function Pow10(w: nat): (p: nat)
    ensures p >= 1
  {
    if w == 0 then 1 else 10 * Pow10(w - 1)
  }

  function DigitChar(d: int): (c: char)
    requires 0 <= d <= 9
    ensures '0' <= c <= '9'
  {
    (48 + d) as char
  }

  /** `n` written in decimal with exactly `width` digits, zero-padded
      (the low digits only, if `n` does not fit). */
  function Digits(n: nat, width: nat): (s: string)
    ensures |s| == width
    ensures forall i :: 0 <= i < |s| ==> '0' <= s[i] <= '9'
  {
    if width == 0 then [] else Digits(n / 10, width - 1) + [DigitChar(n % 10)]
  }

  /** Numbers compare by their leading digits, then by their last digit. */
  lemma DivModOrder(n: nat, m: nat)
    ensures n < m <==> n / 10 < m / 10 || (n / 10 == m / 10 && n % 10 < m % 10)
    ensures n == m <==> n / 10 == m / 10 && n % 10 == m % 10
  {
    assert n == 10 * (n / 10) + n % 10 && m == 10 * (m / 10) + m % 10;
  }

  /** Fixed-width digit strings compare as the numbers they spell. */
  lemma {:induction false} DigitsOrder(n: nat, m: nat, width: nat)
    requires n < Pow10(width) && m < Pow10(width)
    ensures Lex.Less(Digits(n, width), Digits(m, width)) <==> n < m
    ensures Digits(n, width) == Digits(m, width) <==> n == m
  {
    if width > 0 {
      var hn, hm := Digits(n / 10, width - 1), Digits(m / 10, width - 1);
      var ln, lm := [DigitChar(n % 10)], [DigitChar(m % 10)];
      assert Digits(n, width) == hn + ln && Digits(m, width) == hm + lm;
      assert n / 10 < Pow10(width - 1) && m / 10 < Pow10(width - 1);
      DigitsOrder(n / 10, m / 10, width - 1);
      DivModOrder(n, m);
      assert Lex.Less(hn + ln, hm + lm) <==> n < m by {
        Lex.Concat(hn, hm, ln, lm);
        assert Lex.Less(ln, lm) <==> n % 10 < m % 10 by {
          assert ln[1..] == [] && lm[1..] == [];
        }
      }
      assert hn + ln == hm + lm <==> n == m by {
        if hn + ln == hm + lm {
          assert hn == (hn + ln)[..width - 1] && hm == (hm + lm)[..width - 1];
          assert ln[0] == (hn + ln)[width - 1] && lm[0] == (hm + lm)[width - 1];
        }
      }
    }
  }

  /** The month label `YYYY-MM` of a date: what
      `date.dt.to_period("M").astype(str)` yields. Every pandas timestamp
      has a four-digit year. */
  function MonthLabel(d: Timestamp): (s: string)
    ensures |s| == 7 && s[4] == '-'
  {
    Digits(d.year, 4) + "-" + Digits(d.month, 2)
  }

  /** Sorting month labels as strings sorts the months chronologically. */
  lemma LabelOrder(a: Timestamp, b: Timestamp)
    ensures Lex.Less(MonthLabel(a), MonthLabel(b)) <==> MonthBefore(MonthOf(a), MonthOf(b))
    ensures MonthLabel(a) == MonthLabel(b) <==> MonthOf(a) == MonthOf(b)
  {
    var ya, yb := Digits(a.year, 4), Digits(b.year, 4);
    var ma, mb := Digits(a.month, 2), Digits(b.month, 2);
    assert MonthLabel(a) == ya + ("-" + ma) && MonthLabel(b) == yb + ("-" + mb);
    DigitsOrder(a.year, b.year, 4);
    DigitsOrder(a.month, b.month, 2);
    assert Lex.Less(ya + ("-" + ma), yb + ("-" + mb)) <==> MonthBefore(MonthOf(a), MonthOf(b)) by {
      Lex.Concat(ya, yb, "-" + ma, "-" + mb);
      Lex.Concat("-", "-", ma, mb);
    }
    if MonthLabel(a) == MonthLabel(b) {
      assert ya == MonthLabel(a)[..4] && yb == MonthLabel(b)[..4];
      assert ma == MonthLabel(a)[5..] && mb == MonthLabel(b)[5..];
    }
  }
}
