/** Proleptic Gregorian dates as Python's `datetime` keeps them, the
    calendar-month addition of `dateutil.relativedelta(months=n)`, and the date
    part of `isoformat()`. */
module Calendar {
  import opened Outcomes

  datatype Date = Date(year: int, month: int, day: int)

  /** A timestamp: its calendar date and, as text, what `isoformat()` prints
      after the date (the "T", the time of day and the UTC offset). Month
      arithmetic never changes the second part. */
  datatype DateTime = DateTime(date: Date, clock: string)

  const MinYear := 1
  const MaxYear := 9999

  predicate IsLeap(y: int) {
    y % 4 == 0 && (y % 100 != 0 || y % 400 == 0)
  }

  function DaysInMonth(y: int, m: int): (n: int)
    requires 1 <= m <= 12
    ensures 28 <= n <= 31
  {
    if m == 2 then (if IsLeap(y) then 29 else 28)
    else if m == 4 || m == 6 || m == 9 || m == 11 then 30
    else 31
  }

  /** A date `datetime` can hold. */
  predicate ValidDate(d: Date) {
    MinYear <= d.year <= MaxYear && 1 <= d.month <= 12 && 1 <= d.day <= DaysInMonth(d.year, d.month)
  }

  function Min(a: int, b: int): int {
    if a <= b then a else b
  }

  /** Months since January of year 0. */
  function MonthIndex(d: Date): int {
    d.year * 12 + d.month - 1
  }

  /** `d + relativedelta(months=n)`: move `n` calendar months, keeping the day of
      month but clamping it to the length of the target month; a year outside
      1..9999 makes `datetime.replace` raise ValueError. */
  function AddMonths(d: Date, n: int): (r: Result<Date>)
    requires ValidDate(d)
    ensures r.Ok? <==> MinYear <= (MonthIndex(d) + n) / 12 <= MaxYear
    ensures r.Err? ==> r.error == ValueError
    ensures r.Ok? ==> ValidDate(r.value) && MonthIndex(r.value) == MonthIndex(d) + n
    ensures r.Ok? ==> r.value.day == Min(d.day, DaysInMonth(r.value.year, r.value.month))
  {
    var total := MonthIndex(d) + n;
    var y, m := total / 12, total % 12 + 1;
    if y < MinYear || y > MaxYear then Err(ValueError)
    else
      Ok(Date(y, m, Min(d.day, DaysInMonth(y, m))))
  }

  /** Adding no months is the identity. */
  lemma AddZeroMonths(d: Date)
    requires ValidDate(d)
    ensures AddMonths(d, 0) == Ok(d)
  {
  }

  /** A day of month up to 28 exists in every month, so it is kept. */
  lemma AddMonthsKeepsEarlyDays(d: Date, n: int)
    requires ValidDate(d) && d.day <= 28
    requires AddMonths(d, n).Ok?
    ensures AddMonths(d, n).value.day == d.day
  {
  }

  /** Month addition is not associative: 31 January plus one month is
      28 February, and one month after that is 28 March, not 31 March. */
  lemma AddMonthsClampExamples()
    ensures AddMonths(Date(2025, 1, 31), 1) == Ok(Date(2025, 2, 28))
    ensures AddMonths(Date(2024, 1, 31), 1) == Ok(Date(2024, 2, 29))
    ensures AddMonths(Date(2025, 2, 28), 1) == Ok(Date(2025, 3, 28))
    ensures AddMonths(Date(2025, 1, 31), 2) == Ok(Date(2025, 3, 31))
    ensures AddMonths(Date(2025, 1, 15), 9) == Ok(Date(2025, 10, 15))
    ensures AddMonths(Date(2025, 11, 30), -12) == Ok(Date(2024, 11, 30))
    ensures AddMonths(Date(9999, 12, 1), 1) == Err(ValueError)
  {
  }

  // ---- isoformat of the date part ----

  function DigitChar(n: int): char
    requires 0 <= n <= 9
  {
    ['0', '1', '2', '3', '4', '5', '6', '7', '8', '9'][n]
  }

  function DigitValue(c: char): (v: int)
    ensures 0 <= v <= 9
  {
    if '0' <= c <= '9' then c as int - '0' as int else 0
  }

  lemma DigitRoundTrip(k: int)
    requires 0 <= k <= 9
    ensures DigitValue(DigitChar(k)) == k
  {
  }

  predicate IsDigit(c: char) {
    '0' <= c <= '9'
  }

  function Pow10(k: nat): (p: nat)
    ensures p >= 1
  {
    if k == 0 then 1 else 10 * Pow10(k - 1)
  }

  /** `n` written with exactly `width` decimal digits, zero-padded on the left,
      as `%04d` / `%02d` print numbers that fit. */
  function Padded(n: nat, width: nat): (s: string)
    requires n < Pow10(width)
    ensures |s| == width
    ensures forall i :: 0 <= i < |s| ==> IsDigit(s[i])
  {
    if width == 0 then []
    else Padded(n / 10, width - 1) + [DigitChar(n % 10)]
  }

  /** The number a string of decimal digits denotes. */
  function DigitsValue(s: string): nat {
    if s == [] then 0 else 10 * DigitsValue(s[..|s| - 1]) + DigitValue(s[|s| - 1])
  }

  lemma {:induction false} DigitsValuePadded(n: nat, width: nat)
    requires n < Pow10(width)
    ensures DigitsValue(Padded(n, width)) == n
  {
    if width > 0 {
      DigitsValuePadded(n / 10, width - 1);
      var s := Padded(n, width);
      assert s[..|s| - 1] == Padded(n / 10, width - 1);
      DigitRoundTrip(n % 10);
      assert s[|s| - 1] == DigitChar(n % 10);
      assert n == 10 * (n / 10) + n % 10;
    }
  }

  /** `date.isoformat()`: "YYYY-MM-DD". */
  function IsoDate(d: Date): (s: string)
    requires ValidDate(d)
    ensures |s| == 10 && s[4] == '-' && s[7] == '-'
  {
    Padded(d.year, 4) + "-" + Padded(d.month, 2) + "-" + Padded(d.day, 2)
  }

  /** `datetime.isoformat()`: the date, then the time-of-day text. */
  function IsoFormat(t: DateTime): string
    requires ValidDate(t.date)
  {
    IsoDate(t.date) + t.clock
  }

  /** Reads "YYYY-MM-DD" back; `None` for text of another shape or an
      impossible date. */
  function ParseIsoDate(s: string): (r: Option<Date>)
    ensures r.Some? ==> ValidDate(r.value)
  {
    if |s| != 10 || s[4] != '-' || s[7] != '-' then None
    else if !(forall i :: 0 <= i < 10 && i != 4 && i != 7 ==> IsDigit(s[i])) then None
    else
      var d := Date(DigitsValue(s[..4]), DigitsValue(s[5..7]), DigitsValue(s[8..]));
      if ValidDate(d) then Some(d) else None
  }

  /** The printed date reads back as the same date. */
  lemma IsoDateRoundTrip(d: Date)
    requires ValidDate(d)
    ensures ParseIsoDate(IsoDate(d)) == Some(d)
  {
    var y, m, dd := Padded(d.year, 4), Padded(d.month, 2), Padded(d.day, 2);
    var s := IsoDate(d);
    assert s[..4] == y && s[5..7] == m && s[8..] == dd;
    DigitsValuePadded(d.year, 4);
    DigitsValuePadded(d.month, 2);
    DigitsValuePadded(d.day, 2);
  }

  /** Dates are printed injectively. */
  lemma IsoDateInjective(d: Date, e: Date)
    requires ValidDate(d) && ValidDate(e) && IsoDate(d) == IsoDate(e)
    ensures d == e
  {
    IsoDateRoundTrip(d);
    IsoDateRoundTrip(e);
  }
}
