/** Calendar dates as the booking form's date check sees them: the value of
    an HTML date input ("YYYY-MM-DD"), read as local midnight of that day,
    compared with today's local midnight. A JavaScript time value at local
    midnight orders days as the day number `Ordinal` below does. */
module Calendar {
  import Js
  import opened Wrappers

  datatype Date = Date(year: nat, month: nat, day: nat)

  predicate IsLeapYear(y: nat) {
    y % 4 == 0 && (y % 100 != 0 || y % 400 == 0)
  }

  function YearLength(y: nat): nat {
    if IsLeapYear(y) then 366 else 365
  }

  function DaysInMonth(y: nat, m: nat): (n: nat)
    requires 1 <= m <= 12
    ensures 28 <= n <= 31
  {
    if m == 2 then (if IsLeapYear(y) then 29 else 28)
    else if m == 4 || m == 6 || m == 9 || m == 11 then 30
    else 31
  }

  /** A real day of the Gregorian calendar with a four-digit year. */
  predicate IsValid(d: Date) {
    d.year <= 9999 && 1 <= d.month <= 12 && 1 <= d.day <= DaysInMonth(d.year, d.month)
  }

  type ValidDate = d: Date | IsValid(d) witness Date(1970, 1, 1)

  /** Days in the months of year `y` before month `m`. */
  function DaysBeforeMonth(y: nat, m: nat): nat
    requires 1 <= m <= 13
  {
    var table := [0, 31, 59, 90, 120, 151, 181, 212, 243, 273, 304, 334, 365];
    table[m - 1] + (if IsLeapYear(y) && m > 2 then 1 else 0)
  }

  /** Days in the years before year `y`. */
  function DaysBeforeYear(y: nat): nat {
    if y == 0 then 0 else DaysBeforeYear(y - 1) + YearLength(y - 1)
  }

  /** The number of the day counted from 1 January of year 0. */
  function Ordinal(d: ValidDate): nat {
    DaysBeforeYear(d.year) + DaysBeforeMonth(d.year, d.month) + d.day - 1
  }

  /** Calendar order: by year, then month, then day. */
  predicate Before(a: Date, b: Date) {
    a.year < b.year
    || (a.year == b.year && a.month < b.month)
    || (a.year == b.year && a.month == b.month && a.day < b.day)
  }

  lemma MonthsFillYear(y: nat, m: nat)
    requires 1 <= m <= 12
    ensures DaysBeforeMonth(y, m) + DaysInMonth(y, m) == DaysBeforeMonth(y, m + 1)
    ensures DaysBeforeMonth(y, 13) == YearLength(y)
  {
  }

  lemma {:induction false} YearsAccumulate(x: nat, y: nat)
    requires x < y
    ensures DaysBeforeYear(x) + YearLength(x) <= DaysBeforeYear(y)
    decreases y - x
  {
    if x + 1 < y {
      YearsAccumulate(x + 1, y);
    }
  }

  lemma {:induction false} MonthsAccumulate(y: nat, m: nat, n: nat)
    requires 1 <= m < n <= 13
    ensures DaysBeforeMonth(y, m) + DaysInMonth(y, m) <= DaysBeforeMonth(y, n)
    decreases n - m
  {
    MonthsFillYear(y, m);
    if m + 1 < n {
      MonthsAccumulate(y, m + 1, n);
    }
  }

  /** Day numbers follow calendar order. */
  lemma OrdinalFollowsCalendar(a: ValidDate, b: ValidDate)
    requires Before(a, b)
    ensures Ordinal(a) < Ordinal(b)
  {
    MonthsAccumulate(a.year, a.month, 13);
    MonthsFillYear(a.year, 12);
    if a.year < b.year {
      YearsAccumulate(a.year, b.year);
    } else if a.month < b.month {
      MonthsAccumulate(a.year, a.month, b.month);
    }
  }

  /** Comparing day numbers is comparing dates: `a` is not before `b` in
      the calendar exactly when its day number is not smaller. */
  lemma OrdinalOrderIsCalendarOrder(a: ValidDate, b: ValidDate)
    ensures Ordinal(a) >= Ordinal(b) <==> !Before(a, b)
    ensures Ordinal(a) == Ordinal(b) <==> a == b
  {
    if Before(a, b) {
      OrdinalFollowsCalendar(a, b);
    } else if Before(b, a) {
      OrdinalFollowsCalendar(b, a);
    }
  }

  // ---------------------------------------------------------------------
  // The text of a date input

  function TwoDigits(n: nat): (s: string)
    requires n < 100
    ensures |s| == 2 && Js.AllDigits(s)
  {
    [Js.DigitChar(n / 10), Js.DigitChar(n % 10)]
  }

  function FourDigits(n: nat): (s: string)
    requires n < 10000
    ensures |s| == 4 && Js.AllDigits(s)
  {
    TwoDigits(n / 100) + TwoDigits(n % 100)
  }

  /** The value a date input holds for `d`: "YYYY-MM-DD". */
  function Format(d: ValidDate): (s: string)
    ensures |s| == 10
  {
    FourDigits(d.year) + "-" + TwoDigits(d.month) + "-" + TwoDigits(d.day)
  }

  predicate IsIsoShape(s: string) {
    && |s| == 10
    && Js.AllDigits(s[0..4]) && s[4] == '-'
    && Js.AllDigits(s[5..7]) && s[7] == '-'
    && Js.AllDigits(s[8..10])
  }

  /** `new Date(s + "T00:00:00")` when it is a valid date: the text must be
      "YYYY-MM-DD" and name a real day; anything else is an invalid date. */
  function Parse(s: string): (r: Option<ValidDate>)
    ensures r.Some? ==> |s| == 10 && s[4] == '-' && s[7] == '-'
  {
    if !IsIsoShape(s) then None
    else
      var d := Date(Js.DecimalValue(s[0..4]), Js.DecimalValue(s[5..7]), Js.DecimalValue(s[8..10]));
      if IsValid(d) then Some(d) else None
  }

  lemma TwoDigitsValue(s: string)
    requires |s| == 2 && Js.AllDigits(s)
    ensures Js.DecimalValue(s) == 10 * Js.DigitValue(s[0]) + Js.DigitValue(s[1])
  {
    var p := s[..1];
    assert p[..0] == [];
    assert Js.DecimalValue(p) == Js.DigitValue(s[0]);
    assert Js.DecimalValue(s) == 10 * Js.DecimalValue(p) + Js.DigitValue(s[1]);
  }

  lemma FourDigitsValue(s: string)
    requires |s| == 4 && Js.AllDigits(s)
    ensures Js.DecimalValue(s) == 100 * Js.DecimalValue(s[0..2]) + Js.DecimalValue(s[2..4])
  {
    TwoDigitsValue(s[0..2]);
    TwoDigitsValue(s[2..4]);
    var p := s[..3];
    assert p[..2] == s[0..2];
    assert p[..2][..1][..0] == [];
    assert s[..4] == s;
  }

  lemma TwoDigitsRoundTrip(n: nat)
    requires n < 100
    ensures Js.DecimalValue(TwoDigits(n)) == n
  {
    TwoDigitsValue(TwoDigits(n));
  }

  lemma FourDigitsRoundTrip(n: nat)
    requires n < 10000
    ensures Js.DecimalValue(FourDigits(n)) == n
  {
    var s := FourDigits(n);
    FourDigitsValue(s);
    assert s[0..2] == TwoDigits(n / 100);
    assert s[2..4] == TwoDigits(n % 100);
    TwoDigitsRoundTrip(n / 100);
    TwoDigitsRoundTrip(n % 100);
  }

  /** Every valid date survives being written into a date input and read back. */
  lemma ParseFormat(d: ValidDate)
    ensures Parse(Format(d)) == Some(d)
  {
    var s := Format(d);
    assert s[0..4] == FourDigits(d.year);
    assert s[5..7] == TwoDigits(d.month);
    assert s[8..10] == TwoDigits(d.day);
    FourDigitsRoundTrip(d.year);
    TwoDigitsRoundTrip(d.month);
    TwoDigitsRoundTrip(d.day);
  }

  lemma TwoDigitsCanonical(s: string)
    requires |s| == 2 && Js.AllDigits(s)
    ensures Js.DecimalValue(s) < 100 && TwoDigits(Js.DecimalValue(s)) == s
  {
    TwoDigitsValue(s);
    var a, b := Js.DigitValue(s[0]), Js.DigitValue(s[1]);
    assert (10 * a + b) / 10 == a && (10 * a + b) % 10 == b;
    assert Js.DigitChar(a) == s[0];
    assert Js.DigitChar(b) == s[1];
  }

  lemma FourDigitsCanonical(s: string)
    requires |s| == 4 && Js.AllDigits(s)
    ensures Js.DecimalValue(s) < 10000 && FourDigits(Js.DecimalValue(s)) == s
  {
    FourDigitsValue(s);
    var hi, lo := Js.DecimalValue(s[0..2]), Js.DecimalValue(s[2..4]);
    TwoDigitsCanonical(s[0..2]);
    TwoDigitsCanonical(s[2..4]);
    SplitHundreds(hi, lo);
    assert FourDigits(100 * hi + lo) == TwoDigits(hi) + TwoDigits(lo);
    assert s == s[0..2] + s[2..4];
  }

  lemma SplitHundreds(hi: nat, lo: nat)
    requires hi < 100 && lo < 100
    ensures (100 * hi + lo) / 100 == hi && (100 * hi + lo) % 100 == lo
    ensures 100 * hi + lo < 10000
  {
  }

  /** The only text read as a given date is that date's own "YYYY-MM-DD". */
  lemma FormatParse(s: string)
    requires Parse(s).Some?
    ensures Format(Parse(s).value) == s
  {
    var d := Parse(s).value;
    FourDigitsCanonical(s[0..4]);
    TwoDigitsCanonical(s[5..7]);
    TwoDigitsCanonical(s[8..10]);
    assert s == s[0..4] + "-" + s[5..7] + "-" + s[8..10];
  }
}
