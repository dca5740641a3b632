/**
 * The parsed date of an operation (a naive Python datetime), the order in which
 * Python compares two of them, and strftime("%d.%m.%Y").
 */
module Dates {

  datatype DateTime = DateTime(
    year: int, month: int, day: int,
    hour: int, minute: int, second: int, microsecond: int)

  /**
   * The field ranges of a datetime object, with the year limited to four
   * digits (strftime's %Y) and the day only bounded by 31.
   */
  predicate ValidDateTime(d: DateTime) {
    && 1000 <= d.year <= 9999
    && 1 <= d.month <= 12
    && 1 <= d.day <= 31
    && 0 <= d.hour < 24
    && 0 <= d.minute < 60
    && 0 <= d.second < 60
    && 0 <= d.microsecond < 1000000
  }

  type Date = d: DateTime | ValidDateTime(d) witness DateTime(2000, 1, 1, 0, 0, 0, 0)

  /** hi * base + lo: one more digit of a mixed-radix number. */
  function Place(hi: int, base: int, lo: int): int {
    hi * base + lo
  }

  /**
   * The position of a date on a single time line, in microseconds: months
   * counted as 31 days, which keeps the field-by-field order.
   */
  function Ordinal(d: DateTime): int {
    var months := Place(d.year, 12, d.month - 1);
    var days := Place(months, 31, d.day - 1);
    var hours := Place(days, 24, d.hour);
    var minutes := Place(hours, 60, d.minute);
    var seconds := Place(minutes, 60, d.second);
    Place(seconds, 1000000, d.microsecond)
  }

  /** a < b for two datetimes, the comparison the sort uses. */
  predicate Before(a: DateTime, b: DateTime) {
    Ordinal(a) < Ordinal(b)
  }

  /** Python's field-by-field comparison of naive datetimes, most significant field first. */
  predicate LexicographicallyBefore(a: DateTime, b: DateTime) {
    if a.year != b.year then a.year < b.year
    else if a.month != b.month then a.month < b.month
    else if a.day != b.day then a.day < b.day
    else if a.hour != b.hour then a.hour < b.hour
    else if a.minute != b.minute then a.minute < b.minute
    else if a.second != b.second then a.second < b.second
    else a.microsecond < b.microsecond
  }

  /** With digits below the base, mixed-radix numbers compare digit by digit. */
  lemma PlaceCompare(h1: int, l1: int, h2: int, l2: int, base: int)
    requires base > 0 && 0 <= l1 < base && 0 <= l2 < base
    ensures Place(h1, base, l1) < Place(h2, base, l2) <==> h1 < h2 || (h1 == h2 && l1 < l2)
    ensures Place(h1, base, l1) == Place(h2, base, l2) <==> h1 == h2 && l1 == l2
  {
    assert Place(h2, base, l2) - Place(h1, base, l1) == (h2 - h1) * base + (l2 - l1);
    if h1 < h2 {
      MulAtLeast(h2 - h1, base);
    } else if h2 < h1 {
      MulAtLeast(h1 - h2, base);
    }
  }

  lemma MulAtLeast(k: int, base: int)
    requires k >= 1 && base > 0
    ensures k * base >= base
  {
    assert k * base == (k - 1) * base + base;
  }

  /** Comparing ordinals is comparing field by field. */
  lemma BeforeIsLexicographic(a: Date, b: Date)
    ensures Before(a, b) <==> LexicographicallyBefore(a, b)
  {
    var am, bm := Place(a.year, 12, a.month - 1), Place(b.year, 12, b.month - 1);
    var ad, bd := Place(am, 31, a.day - 1), Place(bm, 31, b.day - 1);
    var ah, bh := Place(ad, 24, a.hour), Place(bd, 24, b.hour);
    var amin, bmin := Place(ah, 60, a.minute), Place(bh, 60, b.minute);
    var asec, bsec := Place(amin, 60, a.second), Place(bmin, 60, b.second);
    PlaceCompare(a.year, a.month - 1, b.year, b.month - 1, 12);
    PlaceCompare(am, a.day - 1, bm, b.day - 1, 31);
    PlaceCompare(ad, a.hour, bd, b.hour, 24);
    PlaceCompare(ah, a.minute, bh, b.minute, 60);
    PlaceCompare(amin, a.second, bmin, b.second, 60);
    PlaceCompare(asec, a.microsecond, bsec, b.microsecond, 1000000);
  }

  /** Two distinct dates have distinct ordinals. */
  lemma OrdinalInjective(a: Date, b: Date)
    requires Ordinal(a) == Ordinal(b)
    ensures a == b
  {
    var am, bm := Place(a.year, 12, a.month - 1), Place(b.year, 12, b.month - 1);
    var ad, bd := Place(am, 31, a.day - 1), Place(bm, 31, b.day - 1);
    var ah, bh := Place(ad, 24, a.hour), Place(bd, 24, b.hour);
    var amin, bmin := Place(ah, 60, a.minute), Place(bh, 60, b.minute);
    var asec, bsec := Place(amin, 60, a.second), Place(bmin, 60, b.second);
    PlaceCompare(asec, a.microsecond, bsec, b.microsecond, 1000000);
    PlaceCompare(amin, a.second, bmin, b.second, 60);
    PlaceCompare(ah, a.minute, bh, b.minute, 60);
    PlaceCompare(ad, a.hour, bd, b.hour, 24);
    PlaceCompare(am, a.day - 1, bm, b.day - 1, 31);
    PlaceCompare(a.year, a.month - 1, b.year, b.month - 1, 12);
  }

  /** Before is a strict total order on dates: exactly one of a < b, b < a, a == b holds. */
  lemma BeforeTrichotomy(a: Date, b: Date)
    ensures !Before(a, a)
    ensures Before(a, b) ==> !Before(b, a)
    ensures Before(a, b) || Before(b, a) || a == b
  {
    if Ordinal(a) == Ordinal(b) {
      OrdinalInjective(a, b);
    }
  }

  function Digit(k: int): (c: char)
    requires 0 <= k <= 9
    ensures '0' <= c <= '9'
  {
    ('0' as int + k) as char
  }

  function DigitValue(c: char): int {
    c as int - '0' as int
  }

  /** A number below 100 written with two digits, zero-padded (%d, %m). */
  function TwoDigits(n: int): string
    requires 0 <= n <= 99
  {
    [Digit(n / 10), Digit(n % 10)]
  }

  /** A number from 1000 to 9999 written with its four digits (%Y). */
  function FourDigits(n: int): string
    requires 1000 <= n <= 9999
  {
    TwoDigits(n / 100) + TwoDigits(n % 100)
  }

  /** date.strftime("%d.%m.%Y"). */
  function FormatDate(d: Date): (r: string)
    ensures |r| == 10 && r[2] == '.' && r[5] == '.'
    ensures forall i | 0 <= i < 10 && i != 2 && i != 5 :: '0' <= r[i] <= '9'
  {
    TwoDigits(d.day) + "." + TwoDigits(d.month) + "." + FourDigits(d.year)
  }

  /** Reads day, month and year back from a DD.MM.YYYY string. */
  function ReadDayMonthYear(s: string): (int, int, int)
    requires |s| == 10
  {
    (10 * DigitValue(s[0]) + DigitValue(s[1]),
     10 * DigitValue(s[3]) + DigitValue(s[4]),
     1000 * DigitValue(s[6]) + 100 * DigitValue(s[7]) + 10 * DigitValue(s[8]) + DigitValue(s[9]))
  }

  lemma DigitValueOfDigit(k: int)
    requires 0 <= k <= 9
    ensures DigitValue(Digit(k)) == k
  {
  }

  lemma TwoDigitsValue(n: int)
    requires 0 <= n <= 99
    ensures 10 * DigitValue(TwoDigits(n)[0]) + DigitValue(TwoDigits(n)[1]) == n
  {
    DigitValueOfDigit(n / 10);
    DigitValueOfDigit(n % 10);
  }

  lemma FourDigitsValue(n: int)
    requires 1000 <= n <= 9999
    ensures var s := FourDigits(n);
      1000 * DigitValue(s[0]) + 100 * DigitValue(s[1]) + 10 * DigitValue(s[2]) + DigitValue(s[3]) == n
  {
    TwoDigitsValue(n / 100);
    TwoDigitsValue(n % 100);
  }

  /** The formatted date loses nothing of day, month and year. */
  lemma FormatDateRoundTrip(d: Date)
    ensures ReadDayMonthYear(FormatDate(d)) == (d.day, d.month, d.year)
  {
    var s := FormatDate(d);
    var dd, mm, yyyy := TwoDigits(d.day), TwoDigits(d.month), FourDigits(d.year);
    assert s == dd + "." + mm + "." + yyyy;
    assert s[0] == dd[0] && s[1] == dd[1];
    assert s[3] == mm[0] && s[4] == mm[1];
    assert s[6] == yyyy[0] && s[7] == yyyy[1] && s[8] == yyyy[2] && s[9] == yyyy[3];
    TwoDigitsValue(d.day);
    TwoDigitsValue(d.month);
    FourDigitsValue(d.year);
  }

  /** Two dates print alike exactly when they fall on the same calendar day. */
  lemma FormatDateSameDay(a: Date, b: Date)
    ensures FormatDate(a) == FormatDate(b) <==> (a.day, a.month, a.year) == (b.day, b.month, b.year)
  {
    FormatDateRoundTrip(a);
    FormatDateRoundTrip(b);
  }
}
