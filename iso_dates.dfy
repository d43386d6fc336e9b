/** Calendar dates of the proleptic Gregorian calendar, their day numbers (day 1 is
    0001-01-01, the numbering Python's `date.toordinal` uses) and the calendar-date
    extended text format YYYY-MM-DD of section 5.2.1.1 of ISO 8601:2004, which the
    fare API and the cache use. */
module IsoDates {
  import opened Wrappers

  const MAX_YEAR := 9999
  /** The day number of 9999-12-31. */
  const MAX_ORDINAL := 3652059
  /** The number of days in 400 consecutive years. */
  const DAYS_IN_400_YEARS := 146097

  datatype Date = Date(year: int, month: int, day: int)

  predicate IsLeap(y: int) {
    y % 4 == 0 && (y % 100 != 0 || y % 400 == 0)
  }

  function DaysInYear(y: int): int {
    if IsLeap(y) then 366 else 365
  }

  function DaysInMonth(y: int, m: int): int
    requires 1 <= m <= 12
  {
    if m == 2 then (if IsLeap(y) then 29 else 28)
    else if m == 4 || m == 6 || m == 9 || m == 11 then 30
    else 31
  }

  predicate ValidDate(d: Date) {
    1 <= d.year <= MAX_YEAR && 1 <= d.month <= 12 && 1 <= d.day <= DaysInMonth(d.year, d.month)
  }

  predicate ValidOrdinal(n: int) {
    1 <= n <= MAX_ORDINAL
  }

  /** The days of the years before `y`. */
  function DaysBeforeYear(y: int): (r: int)
    requires y >= 1
    ensures r >= 0
  {
    var p := y - 1;
    365 * p + p / 4 - p / 100 + p / 400
  }

  /** The days of the months of year `y` before month `m`; for `m == 13`, the whole year. */
  function DaysBeforeMonth(y: int, m: int): (r: int)
    requires 1 <= m <= 13
    ensures r >= 0
  {
    if m == 1 then 0 else DaysBeforeMonth(y, m - 1) + DaysInMonth(y, m - 1)
  }

  /** `date.toordinal()`. */
  function ToOrdinal(d: Date): int
    requires ValidDate(d)
  {
    DaysBeforeYear(d.year) + DaysBeforeMonth(d.year, d.month) + d.day
  }

  /** Moving on one, a quotient by `k` grows exactly at the multiples of `k`. */
  lemma QuotientStep(p: int)
    requires p >= 0
    ensures (p + 1) / 4 == p / 4 + (if (p + 1) % 4 == 0 then 1 else 0)
    ensures (p + 1) / 100 == p / 100 + (if (p + 1) % 100 == 0 then 1 else 0)
    ensures (p + 1) / 400 == p / 400 + (if (p + 1) % 400 == 0 then 1 else 0)
  {
  }

  lemma DaysBeforeYearStep(y: int)
    requires y >= 1
    ensures DaysBeforeYear(y + 1) == DaysBeforeYear(y) + DaysInYear(y)
  {
    var p := y - 1;
    QuotientStep(p);
    LeapDivisors(y);
    var a4, a100, a400 := (p + 1) / 4 - p / 4, (p + 1) / 100 - p / 100, (p + 1) / 400 - p / 400;
    assert DaysInYear(y) == 365 + a4 - a100 + a400;
    assert DaysBeforeYear(y + 1) == 365 * p + 365 + (p + 1) / 4 - (p + 1) / 100 + (p + 1) / 400;
  }

  /** A multiple of 400 is one of 100, and a multiple of 100 one of 4. */
  lemma LeapDivisors(y: int)
    ensures y % 400 == 0 ==> y % 100 == 0
    ensures y % 100 == 0 ==> y % 4 == 0
  {
    if y % 400 == 0 {
      ShiftMod100(4 * (y / 400), 0);
      assert y == 100 * (4 * (y / 400)) + 0;
    }
    if y % 100 == 0 {
      ShiftMod4(25 * (y / 100), 0);
      assert y == 4 * (25 * (y / 100)) + 0;
    }
  }

  lemma DaysBeforeMonthYear(y: int)
    ensures DaysBeforeMonth(y, 13) == DaysInYear(y)
  {
    var leap := if IsLeap(y) then 1 else 0;
    assert DaysBeforeMonth(y, 2) == 31;
    assert DaysBeforeMonth(y, 3) == 59 + leap;
    assert DaysBeforeMonth(y, 4) == 90 + leap;
    assert DaysBeforeMonth(y, 5) == 120 + leap;
    assert DaysBeforeMonth(y, 6) == 151 + leap;
    assert DaysBeforeMonth(y, 7) == 181 + leap;
    assert DaysBeforeMonth(y, 8) == 212 + leap;
    assert DaysBeforeMonth(y, 9) == 243 + leap;
    assert DaysBeforeMonth(y, 10) == 273 + leap;
    assert DaysBeforeMonth(y, 11) == 304 + leap;
    assert DaysBeforeMonth(y, 12) == 334 + leap;
  }

  /** Four hundred years later the day count has grown by whole cycles. */
  lemma DaysBeforeYearCycle(q: int, y: int)
    requires q >= 0 && 1 <= y
    ensures DaysBeforeYear(400 * q + y) == DAYS_IN_400_YEARS * q + DaysBeforeYear(y)
  {
    var p := y - 1;
    assert (400 * q + p) / 4 == 100 * q + p / 4;
    assert (400 * q + p) / 100 == 4 * q + p / 100;
    assert (400 * q + p) / 400 == q + p / 400;
  }

  lemma DaysBeforeYearMonotone(a: int, b: int)
    requires 1 <= a < b
    ensures DaysBeforeYear(a) + DaysInYear(a) <= DaysBeforeYear(b)
    decreases b - a
  {
    DaysBeforeYearStep(a);
    if a + 1 < b {
      DaysBeforeYearMonotone(a + 1, b);
    }
  }

  lemma DaysBeforeMonthMonotone(y: int, a: int, b: int)
    requires 1 <= a < b <= 13
    ensures DaysBeforeMonth(y, a) + DaysInMonth(y, a) <= DaysBeforeMonth(y, b)
    decreases b - a
  {
    if a + 1 < b {
      DaysBeforeMonthMonotone(y, a + 1, b);
    }
  }

  /** The year of the 400-year cycle holding day `r` (counted from 0) of the cycle,
      found by walking the years from `y`, and the day's offset in that year. */
  function YearOfCycle(r: int, y: int): (res: (int, int))
    requires 1 <= y <= 400
    requires 0 <= r < DaysBeforeYear(401) - DaysBeforeYear(y)
    ensures y <= res.0 <= 400 && 0 <= res.1 < DaysInYear(res.0)
    ensures DaysBeforeYear(res.0) + res.1 == DaysBeforeYear(y) + r
    decreases 400 - y
  {
    DaysBeforeYearStep(y);
    if r < DaysInYear(y) then (y, r)
    else YearOfCycle(r - DaysInYear(y), y + 1)
  }

  /** The month of year `y` holding day `r` (counted from 0) of the year, found by
      walking the months from `m`, and the day's offset in that month. */
  function MonthOfYear(y: int, r: int, m: int): (res: (int, int))
    requires 1 <= m <= 12
    requires 0 <= r < DaysBeforeMonth(y, 13) - DaysBeforeMonth(y, m)
    ensures m <= res.0 <= 12 && 0 <= res.1 < DaysInMonth(y, res.0)
    ensures DaysBeforeMonth(y, res.0) + res.1 == DaysBeforeMonth(y, m) + r
    decreases 12 - m
  {
    if r < DaysInMonth(y, m) then (m, r)
    else MonthOfYear(y, r - DaysInMonth(y, m), m + 1)
  }

  lemma LeapCycle(q: int, y: int)
    requires q >= 0
    ensures IsLeap(400 * q + y) == IsLeap(y)
  {
    ShiftMod4(100 * q, y);
    ShiftMod100(4 * q, y);
    ShiftMod400(q, y);
  }

  lemma ShiftMod4(k: int, y: int)
    ensures (4 * k + y) % 4 == y % 4
  {
  }

  lemma ShiftMod100(k: int, y: int)
    ensures (100 * k + y) % 100 == y % 100
  {
  }

  lemma ShiftMod400(k: int, y: int)
    ensures (400 * k + y) % 400 == y % 400
  {
  }

  lemma CycleLength()
    ensures DaysBeforeYear(401) == DAYS_IN_400_YEARS
  {
  }

  /** Day `n - 1` counted from 0001-01-01 lies in year `400 * q + y` when it is day `r`
      of a cycle of 400 years and day `offset` of year `y` of that cycle. */
  lemma CycleYear(n: int, q: int, r: int, y: int, offset: int)
    requires ValidOrdinal(n) && q == (n - 1) / DAYS_IN_400_YEARS && r == (n - 1) % DAYS_IN_400_YEARS
    requires 1 <= y <= 400 && 0 <= offset < DaysInYear(y) && DaysBeforeYear(y) + offset == r
    ensures 1 <= 400 * q + y <= MAX_YEAR
    ensures DaysBeforeYear(400 * q + y) + offset == n - 1
    ensures IsLeap(400 * q + y) == IsLeap(y) && DaysInYear(400 * q + y) == DaysInYear(y)
  {
    assert n - 1 == DAYS_IN_400_YEARS * q + r && q >= 0;
    DaysBeforeYearCycle(q, y);
    LeapCycle(q, y);
  }

  /** `date.fromordinal(n)`: the valid date whose day number is `n`. */
  function FromOrdinal(n: int): (d: Date)
    requires ValidOrdinal(n)
    ensures ValidDate(d) && ToOrdinal(d) == n
  {
    var q := (n - 1) / DAYS_IN_400_YEARS;
    var r := (n - 1) % DAYS_IN_400_YEARS;
    CycleLength();
    var yr := YearOfCycle(r, 1);
    CycleYear(n, q, r, yr.0, yr.1);
    var year := 400 * q + yr.0;
    DaysBeforeMonthYear(year);
    var md := MonthOfYear(year, yr.1, 1);
    Date(year, md.0, md.1 + 1)
  }

  /** Two valid dates with the same day number are the same date. */
  lemma ToOrdinalInjective(a: Date, b: Date)
    requires ValidDate(a) && ValidDate(b) && ToOrdinal(a) == ToOrdinal(b)
    ensures a == b
  {
    DaysBeforeMonthYear(a.year);
    DaysBeforeMonthYear(b.year);
    DaysBeforeMonthMonotone(a.year, a.month, 13);
    DaysBeforeMonthMonotone(b.year, b.month, 13);
    if a.year < b.year {
      DaysBeforeYearMonotone(a.year, b.year);
      assert false;
    } else if b.year < a.year {
      DaysBeforeYearMonotone(b.year, a.year);
      assert false;
    }
    if a.month < b.month {
      DaysBeforeMonthMonotone(a.year, a.month, b.month);
      assert false;
    } else if b.month < a.month {
      DaysBeforeMonthMonotone(a.year, b.month, a.month);
      assert false;
    }
  }

  /** Day numbers and valid dates are in one-to-one correspondence. */
  lemma OrdinalRoundTrip(d: Date)
    requires ValidDate(d)
    ensures ValidOrdinal(ToOrdinal(d)) && FromOrdinal(ToOrdinal(d)) == d
  {
    DaysBeforeMonthYear(d.year);
    DaysBeforeMonthMonotone(d.year, d.month, 13);
    if d.year < MAX_YEAR {
      DaysBeforeYearMonotone(d.year, MAX_YEAR);
    }
    assert DaysBeforeYear(MAX_YEAR) + DaysInYear(MAX_YEAR) == MAX_ORDINAL;
    ToOrdinalInjective(FromOrdinal(ToOrdinal(d)), d);
  }

  function Pow10(w: nat): nat {
    if w == 0 then 1 else 10 * Pow10(w - 1)
  }

  predicate IsDigit(c: char) {
    '0' <= c <= '9'
  }

  /** `n` written with exactly `w` decimal digits, zero-filled on the left. */
  function Pad(n: nat, w: nat): (s: string)
    requires n < Pow10(w)
    ensures |s| == w && forall i :: 0 <= i < w ==> IsDigit(s[i])
  {
    if w == 0 then ""
    else Pad(n / 10, w - 1) + [('0' as int + n % 10) as char]
  }

  /** The number a string of decimal digits denotes. */
  function DigitsValue(s: string): (n: nat)
    requires forall i :: 0 <= i < |s| ==> IsDigit(s[i])
    ensures n < Pow10(|s|)
  {
    if s == [] then 0
    else
      assert IsDigit(s[|s| - 1]);
      DigitsValue(s[..|s| - 1]) * 10 + (s[|s| - 1] as int - '0' as int)
  }

  lemma {:induction false} PadValue(n: nat, w: nat)
    requires n < Pow10(w)
    ensures DigitsValue(Pad(n, w)) == n
  {
    if w > 0 {
      PadValue(n / 10, w - 1);
      assert Pad(n, w)[..w - 1] == Pad(n / 10, w - 1);
    }
  }

  lemma {:induction false} ValuePad(s: string)
    requires forall i :: 0 <= i < |s| ==> IsDigit(s[i])
    ensures Pad(DigitsValue(s), |s|) == s
  {
    if s != [] {
      var init := s[..|s| - 1];
      ValuePad(init);
      var n := DigitsValue(s);
      assert n / 10 == DigitsValue(init);
      assert s == init + [s[|s| - 1]];
    }
  }

  /** `d.strftime("%Y-%m-%d")`. */
  function Format(d: Date): (s: string)
    requires ValidDate(d)
    ensures |s| == 10 && s[4] == '-' && s[7] == '-'
    ensures forall i :: 0 <= i < 10 && i != 4 && i != 7 ==> IsDigit(s[i])
  {
    Pad(d.year, 4) + "-" + Pad(d.month, 2) + "-" + Pad(d.day, 2)
  }

  /** `date.fromisoformat(s)` for the YYYY-MM-DD form; none where Python raises. */
  function Parse(s: string): (r: Option<Date>)
    ensures r.Some? ==> ValidDate(r.value)
  {
    if |s| == 10 && s[4] == '-' && s[7] == '-'
       && (forall i :: 0 <= i < 4 ==> IsDigit(s[i]))
       && (forall i :: 5 <= i < 7 ==> IsDigit(s[i]))
       && (forall i :: 8 <= i < 10 ==> IsDigit(s[i]))
    then
      var d := Date(DigitsValue(s[..4]), DigitsValue(s[5..7]), DigitsValue(s[8..]));
      if ValidDate(d) then Some(d) else None
    else None
  }

  lemma FormatSlices(d: Date)
    requires ValidDate(d)
    ensures var s := Format(d);
      s[..4] == Pad(d.year, 4) && s[4] == '-' && s[5..7] == Pad(d.month, 2) && s[7] == '-' && s[8..] == Pad(d.day, 2)
  {
  }

  /** Parsing the text of a valid date gives that date back. */
  lemma ParseFormat(d: Date)
    requires ValidDate(d)
    ensures Parse(Format(d)) == Some(d)
  {
    FormatSlices(d);
    PadValue(d.year, 4);
    PadValue(d.month, 2);
    PadValue(d.day, 2);
  }

  /** Text that parses is exactly the text of the date it parses to. */
  lemma FormatParse(s: string)
    requires Parse(s).Some?
    ensures Format(Parse(s).value) == s
  {
    var d := Parse(s).value;
    ValuePad(s[..4]);
    ValuePad(s[5..7]);
    ValuePad(s[8..]);
    FormatSlices(d);
    assert s == s[..4] + "-" + s[5..7] + "-" + s[8..];
  }

  /** `DateUtils.format_date_for_api`: the YYYY-MM-DD text of a day number. */
  function FormatDateForApi(n: int): (s: string)
    requires ValidOrdinal(n)
    ensures |s| == 10 && s[4] == '-' && s[7] == '-'
    ensures forall i :: 0 <= i < 10 && i != 4 && i != 7 ==> IsDigit(s[i])
  {
    Format(FromOrdinal(n))
  }

  /** `DateUtils.parse_api_date`: the day number of YYYY-MM-DD text; none where
      Python raises. */
  function ParseApiDate(s: string): (r: Option<int>)
    ensures r.Some? <==> Parse(s).Some?
    ensures r.Some? ==> ValidOrdinal(r.value) && FromOrdinal(r.value) == Parse(s).value
    ensures r.Some? ==> |s| == 10 && s[4] == '-' && s[7] == '-'
  {
    var d := Parse(s);
    if d.Some? then
      OrdinalRoundTrip(d.value);
      Some(ToOrdinal(d.value))
    else None
  }

  /** Parsing the API text of a day number gives the day number back. */
  lemma ParseFormatApiDate(n: int)
    requires ValidOrdinal(n)
    ensures ParseApiDate(FormatDateForApi(n)) == Some(n)
  {
    ParseFormat(FromOrdinal(n));
  }

  /** Text that parses to a day number is that day number's API text. */
  lemma FormatParseApiDate(s: string)
    requires ParseApiDate(s).Some?
    ensures ValidOrdinal(ParseApiDate(s).value) && FormatDateForApi(ParseApiDate(s).value) == s
  {
    var d := Parse(s).value;
    OrdinalRoundTrip(d);
    FormatParse(s);
  }
}
