/** The proleptic Gregorian calendar of Python's `datetime`, years 1 to 9999.
    Dates are numbered by their day number, the count of days since
    0001-01-01 (`date.toordinal() - 1`). The module also holds the two
    textual date forms the program reads and writes: `%Y%m%d` (file names)
    and `%Y-%m-%d` (the failure ledger). */
module Calendar {
  import opened Wrappers
  import opened Text

  predicate IsLeap(y: int) {
    y % 4 == 0 && (y % 100 != 0 || y % 400 == 0)
  }

  function YearLength(y: int): int {
    if IsLeap(y) then 366 else 365
  }

  function DaysInMonth(y: int, m: int): int
    requires 1 <= m <= 12
  {
    if m == 2 then (if IsLeap(y) then 29 else 28)
    else if m == 4 || m == 6 || m == 9 || m == 11 then 30
    else 31
  }

  datatype Date = Date(year: int, month: int, day: int)

  predicate ValidDate(d: Date) {
    1 <= d.year <= 9999 && 1 <= d.month <= 12 && 1 <= d.day <= DaysInMonth(d.year, d.month)
  }

  /** Days in the years before `y`. */
  function DaysBeforeYear(y: int): int
    requires y >= 1
  {
    var x := y - 1;
    365 * x + x / 4 - x / 100 + x / 400
  }

  /** Days in the months of year `y` before month `m` (`m == 13` gives the year's length). */
  function DaysBeforeMonth(y: int, m: int): int
    requires 1 <= m <= 13
  {
    var cum := [0, 31, 59, 90, 120, 151, 181, 212, 243, 273, 304, 334, 365];
    cum[m - 1] + (if m > 2 && IsLeap(y) then 1 else 0)
  }

  /** The number of days from 0001-01-01 to 9999-12-31 inclusive. */
  const MaxDay: int := 3652059

  lemma MulAtLeastOnce(d: int, k: int)
    requires d >= 1 && k > 0
    ensures d * k >= k
  {
    assert d * k == (d - 1) * k + k;
    assert (d - 1) * k >= 0;
  }

  /** Division by `k` determines the quotient uniquely. */
  lemma DivUnique(n: int, k: int, q: int, r: int)
    requires k > 0 && 0 <= r < k && n == q * k + r
    ensures n / k == q
  {
    var q', r' := n / k, n % k;
    assert n == q' * k + r' && 0 <= r' < k;
    assert q * k - q' * k == r' - r;
    assert (q - q') * k == q * k - q' * k;
    if q > q' {
      MulAtLeastOnce(q - q', k);
    } else if q < q' {
      assert (q' - q) * k == q' * k - q * k;
      MulAtLeastOnce(q' - q, k);
    }
  }

  /** Going from `y - 1` to `y` raises the quotient by `k` exactly when `y`
      is a multiple of `k`. */
  lemma DivStep(y: int, k: int)
    requires y >= 1 && k > 0
    ensures y / k == (y - 1) / k + (if y % k == 0 then 1 else 0)
  {
    var x := y - 1;
    var q, r := x / k, x % k;
    assert x == q * k + r;
    if r == k - 1 {
      assert y == (q + 1) * k + 0;
      DivUnique(y, k, q + 1, 0);
      DivUnique(y, k, q + 1, y % k);
    } else {
      assert y == q * k + (r + 1);
      DivUnique(y, k, q, r + 1);
      DivUnique(y, k, q, y % k);
    }
  }

  lemma DaysBeforeYearStep(y: int)
    requires y >= 1
    ensures DaysBeforeYear(y + 1) == DaysBeforeYear(y) + YearLength(y)
  {
    DivStep(y, 4);
    DivStep(y, 100);
    DivStep(y, 400);
    assert DaysBeforeYear(y + 1) == 365 * y + y / 4 - y / 100 + y / 400;
    assert DaysBeforeYear(y) == 365 * (y - 1) + (y - 1) / 4 - (y - 1) / 100 + (y - 1) / 400;
  }

  lemma {:induction false} DaysBeforeYearMono(a: int, b: int)
    requires 1 <= a <= b
    ensures DaysBeforeYear(a) <= DaysBeforeYear(b)
    ensures a < b ==> DaysBeforeYear(a) + YearLength(a) <= DaysBeforeYear(b)
    decreases b - a
  {
    if a < b {
      DaysBeforeYearStep(a);
      DaysBeforeYearMono(a + 1, b);
    }
  }

  lemma MaxDayIsEndOfYear9999()
    ensures DaysBeforeYear(10000) == MaxDay
  {
  }

  lemma DaysBeforeMonthStep(y: int, m: int)
    requires 1 <= m <= 12
    ensures DaysBeforeMonth(y, m + 1) == DaysBeforeMonth(y, m) + DaysInMonth(y, m)
  {
  }

  lemma {:induction false} DaysBeforeMonthMono(y: int, a: int, b: int)
    requires 1 <= a < b <= 13
    ensures DaysBeforeMonth(y, a) + DaysInMonth(y, a) <= DaysBeforeMonth(y, b)
    decreases b - a
  {
    DaysBeforeMonthStep(y, a);
    if a + 1 < b {
      DaysBeforeMonthMono(y, a + 1, b);
    }
  }

  /** The day number of a date (`toordinal() - 1`). */
  function DayNumber(d: Date): (n: int)
    requires ValidDate(d)
    ensures 0 <= n < MaxDay
  {
    DaysBeforeMonthStep(d.year, d.month);
    DaysBeforeMonthMono(d.year, d.month, 13);
    DaysBeforeYearStep(d.year);
    DaysBeforeYearMono(d.year + 1, 10000);
    DaysBeforeYear(d.year) + DaysBeforeMonth(d.year, d.month) + d.day - 1
  }

  /** The year holding day number `n`, searched upward from `y`. */
  function FindYear(n: int, y: int): (r: int)
    requires 1 <= y && DaysBeforeYear(y) <= n
    ensures y <= r && DaysBeforeYear(r) <= n < DaysBeforeYear(r) + YearLength(r)
    decreases n - DaysBeforeYear(y)
  {
    DaysBeforeYearStep(y);
    if n < DaysBeforeYear(y) + YearLength(y) then y else FindYear(n, y + 1)
  }

  /** The month of year `y` holding day `k` of that year, searched upward from `m`. */
  function FindMonth(y: int, k: int, m: int): (r: int)
    requires 1 <= m <= 12 && DaysBeforeMonth(y, m) <= k < YearLength(y)
    ensures m <= r <= 12 && DaysBeforeMonth(y, r) <= k < DaysBeforeMonth(y, r) + DaysInMonth(y, r)
    decreases 12 - m
  {
    DaysBeforeMonthStep(y, m);
    if k < DaysBeforeMonth(y, m) + DaysInMonth(y, m) || m == 12 then m else FindMonth(y, k, m + 1)
  }

  /** The date of a day number (`date.fromordinal(n + 1)`). */
  function FromDayNumber(n: int): (d: Date)
    requires 0 <= n < MaxDay
    ensures ValidDate(d) && DayNumber(d) == n
  {
    var y := FindYear(n, 1);
    if y >= 10000 then
      DaysBeforeYearMono(10000, y);
      assert false; Date(1, 1, 1)
    else
      var k := n - DaysBeforeYear(y);
      var m := FindMonth(y, k, 1);
      Date(y, m, k - DaysBeforeMonth(y, m) + 1)
  }

  lemma YearUnique(n: int, a: int, b: int)
    requires 1 <= a && DaysBeforeYear(a) <= n < DaysBeforeYear(a) + YearLength(a)
    requires 1 <= b && DaysBeforeYear(b) <= n < DaysBeforeYear(b) + YearLength(b)
    ensures a == b
  {
    if a < b { DaysBeforeYearMono(a, b); }
    if b < a { DaysBeforeYearMono(b, a); }
  }

  lemma MonthUnique(y: int, k: int, a: int, b: int)
    requires 1 <= a <= 12 && DaysBeforeMonth(y, a) <= k < DaysBeforeMonth(y, a) + DaysInMonth(y, a)
    requires 1 <= b <= 12 && DaysBeforeMonth(y, b) <= k < DaysBeforeMonth(y, b) + DaysInMonth(y, b)
    ensures a == b
  {
    if a < b { DaysBeforeMonthMono(y, a, b); }
    if b < a { DaysBeforeMonthMono(y, b, a); }
  }

  /** Day numbers name dates one to one. */
  lemma FromDayNumberOfDayNumber(d: Date)
    requires ValidDate(d)
    ensures FromDayNumber(DayNumber(d)) == d
  {
    var n := DayNumber(d);
    var e := FromDayNumber(n);
    DaysBeforeMonthStep(d.year, d.month);
    DaysBeforeMonthMono(d.year, d.month, 13);
    DaysBeforeMonthStep(e.year, e.month);
    DaysBeforeMonthMono(e.year, e.month, 13);
    YearUnique(n, d.year, e.year);
    MonthUnique(d.year, n - DaysBeforeYear(d.year), d.month, e.month);
  }

  lemma DayNumberInjective(d: Date, e: Date)
    requires ValidDate(d) && ValidDate(e) && DayNumber(d) == DayNumber(e)
    ensures d == e
  {
    FromDayNumberOfDayNumber(d);
    FromDayNumberOfDayNumber(e);
  }

  /** Calendar order and day-number order agree. */
  lemma DayNumberOrder(d: Date, e: Date)
    requires ValidDate(d) && ValidDate(e)
    ensures DayNumber(d) < DayNumber(e) <==> DateLess(d, e)
  {
    DaysBeforeMonthStep(d.year, d.month);
    DaysBeforeMonthMono(d.year, d.month, 13);
    DaysBeforeMonthStep(e.year, e.month);
    DaysBeforeMonthMono(e.year, e.month, 13);
    if d.year < e.year { DaysBeforeYearMono(d.year, e.year); }
    if e.year < d.year { DaysBeforeYearMono(e.year, d.year); }
    if d.year == e.year && d.month < e.month { DaysBeforeMonthMono(d.year, d.month, e.month); }
    if d.year == e.year && e.month < d.month { DaysBeforeMonthMono(d.year, e.month, d.month); }
  }

  predicate DateLess(d: Date, e: Date) {
    d.year < e.year || (d.year == e.year && (d.month < e.month || (d.month == e.month && d.day < e.day)))
  }

  // ---------------------------------------------------------------
  // Text forms

  function DigitChar(n: int): char
    requires 0 <= n < 10
  {
    '0' + n as char
  }

  /** `n` written with exactly two digits. */
  function Pad2(n: int): (r: string)
    requires 0 <= n < 100
    ensures |r| == 2 && AllDigits(r) && DigitsValue(r) == n
  {
    var r := [DigitChar(n / 10), DigitChar(n % 10)];
    assert r[..1] == [DigitChar(n / 10)] && r[..1][..0] == [];
    assert DigitValue(r[0]) == n / 10 && DigitValue(r[1]) == n % 10;
    assert DigitsValue(r[..1]) == n / 10;
    r
  }

  /** `n` written with exactly four digits. */
  function Pad4(n: int): (r: string)
    requires 0 <= n < 10000
    ensures |r| == 4 && AllDigits(r) && DigitsValue(r) == n
  {
    var r := Pad2(n / 100) + Pad2(n % 100);
    DigitsConcat2(Pad2(n / 100), Pad2(n % 100));
    r
  }

  lemma DigitsConcat2(a: string, b: string)
    requires AllDigits(a) && AllDigits(b) && |b| == 2
    ensures AllDigits(a + b) && DigitsValue(a + b) == DigitsValue(a) * 100 + DigitsValue(b)
  {
    assert (a + b)[..|a + b| - 1] == a + b[..1];
    assert (a + b[..1])[..|a|] == a;
    assert b[..1][..0] == [];
    var x, y0, y1 := DigitsValue(a), DigitValue(b[0]), DigitValue(b[1]);
    assert DigitsValue(a + b[..1]) == x * 10 + y0;
    assert b[..|b| - 1] == b[..1];
    assert DigitsValue(b[..1]) == y0;
    assert DigitsValue(b) == y0 * 10 + y1;
    assert DigitsValue(a + b) == (x * 10 + y0) * 10 + y1;
  }

  /** `date.strftime("%Y%m%d")`. */
  function FormatYmd(d: Date): (r: string)
    requires ValidDate(d)
    ensures |r| == 8 && AllDigits(r)
  {
    Pad4(d.year) + Pad2(d.month) + Pad2(d.day)
  }

  /** `date.strftime("%Y-%m-%d")`, which is also `date.isoformat()`. */
  function FormatIso(d: Date): (r: string)
    requires ValidDate(d)
    ensures |r| == 10 && r[4] == '-' && r[7] == '-'
  {
    Pad4(d.year) + "-" + Pad2(d.month) + "-" + Pad2(d.day)
  }

  /** The `%m` alternatives tried first: `1[0-2]` and `0[1-9]`. */
  predicate IsMonth2(s: string) {
    |s| == 2 && ((s[0] == '1' && '0' <= s[1] <= '2') || (s[0] == '0' && '1' <= s[1] <= '9'))
  }

  /** A whole `%d` token: `3[01]`, `[12][0-9]`, `0[1-9]`, `[1-9]` or ` [1-9]`. */
  predicate IsDayToken(s: string) {
    (|s| == 2 && s[0] == '3' && (s[1] == '0' || s[1] == '1'))
    || (|s| == 2 && (s[0] == '1' || s[0] == '2') && IsDigit(s[1]))
    || (|s| == 2 && s[0] == '0' && '1' <= s[1] <= '9')
    || (|s| == 1 && '1' <= s[0] <= '9')
    || (|s| == 2 && s[0] == ' ' && '1' <= s[1] <= '9')
  }

  function DayTokenValue(s: string): int
    requires IsDayToken(s)
  {
    if |s| == 1 then DigitValue(s[0])
    else if s[0] == ' ' then DigitValue(s[1])
    else DigitValue(s[0]) * 10 + DigitValue(s[1])
  }

  /** `datetime.strptime(s, "%Y%m%d")` as a date. `%Y` is four digits; the
      month and day may have one digit, and the day may be space-padded. The
      pattern's alternatives are tried in order: a two-digit month first,
      then a one-digit one, the day having to take the rest of the text.
      A reading that names no real date is an error (there is no second
      reading). */
  function ParseYmd(s: string): (r: Option<Date>)
    ensures r.Some? ==> ValidDate(r.value)
  {
    if |s| < 5 || !AllDigits(s[..4]) then None
    else
      var year := DigitsValue(s[..4]);
      var rest := s[4..];
      var md: Option<(int, int)> :=
        if |rest| >= 2 && IsMonth2(rest[..2]) && IsDayToken(rest[2..]) then
          Some((DigitsValue(rest[..2]), DayTokenValue(rest[2..])))
        else if '1' <= rest[0] <= '9' && IsDayToken(rest[1..]) then
          Some((DigitValue(rest[0]), DayTokenValue(rest[1..])))
        else None;
      if md.Some? && ValidDate(Date(year, md.value.0, md.value.1)) then
        Some(Date(year, md.value.0, md.value.1))
      else None
  }

  /** Formatting a date for a file name and parsing it back gives the date. */
  lemma ParseFormatYmd(d: Date)
    requires ValidDate(d)
    ensures ParseYmd(FormatYmd(d)) == Some(d)
  {
    var s := FormatYmd(d);
    assert s[..4] == Pad4(d.year);
    assert s[4..][..2] == Pad2(d.month);
    assert s[4..][2..] == Pad2(d.day);
  }

  /** `date.fromisoformat(s)` for the `YYYY-MM-DD` form. */
  function ParseIso(s: string): (r: Option<Date>)
    ensures r.Some? ==> ValidDate(r.value)
  {
    if |s| == 10 && AllDigits(s[..4]) && s[4] == '-' && AllDigits(s[5..7]) && s[7] == '-' && AllDigits(s[8..]) then
      var d := Date(DigitsValue(s[..4]), DigitsValue(s[5..7]), DigitsValue(s[8..]));
      if ValidDate(d) then Some(d) else None
    else None
  }

  lemma ParseFormatIso(d: Date)
    requires ValidDate(d)
    ensures ParseIso(FormatIso(d)) == Some(d)
  {
    var s := FormatIso(d);
    assert s[..4] == Pad4(d.year);
    assert s[5..7] == Pad2(d.month);
    assert s[8..] == Pad2(d.day);
  }
}
