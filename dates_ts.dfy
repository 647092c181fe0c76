/**
 * The date checks of validation.ts: isValidFechaNacimiento and
 * calcularEdad, over the JavaScript Date arithmetic they rely on.
 *
 * A JavaScript time value counts milliseconds from 1970-01-01T00:00Z. A
 * date-only ISO string `YYYY-MM-DD` is read as UTC midnight; the month must
 * lie in 01..12 and the day in 01..31, and a day beyond the end of its month
 * rolls over into the next one (MakeDay arithmetic). The clock is a
 * parameter: the calendar fields of the current instant and the milliseconds
 * elapsed since its midnight, all in UTC.
 */
module FrontendDates {
  import opened Common
  import opened Text

  const MsPerDay: int := 86400000

  // ---------------------------------------------------------------------
  // Calendar arithmetic
  // ---------------------------------------------------------------------

  predicate IsLeap(y: int)
  {
    y % 4 == 0 && (y % 100 != 0 || y % 400 == 0)
  }

  function DaysInYear(y: int): (n: int)
    ensures n == 365 || n == 366
  {
    if IsLeap(y) then 366 else 365
  }

  function DaysInMonth(y: int, m: int): (n: int)
    requires 1 <= m <= 12
    ensures 28 <= n <= 31
  {
    if m == 2 then (if IsLeap(y) then 29 else 28)
    else if m == 4 || m == 6 || m == 9 || m == 11 then 30
    else 31
  }

  /** DayFromYear: days from 1970-01-01 to the first of January of `y`. */
  function DaysBeforeYear(y: int): int
  {
    365 * (y - 1970) + (y - 1969) / 4 - (y - 1901) / 100 + (y - 1601) / 400
  }

  /** Days from the first of January of `y` to the first day of month `m`. */
  function DaysBeforeMonth(y: int, m: int): (n: int)
    requires 1 <= m <= 12
    ensures 0 <= n
  {
    [0, 31, 59, 90, 120, 151, 181, 212, 243, 273, 304, 334][m - 1]
      + (if m > 2 && IsLeap(y) then 1 else 0)
  }

  /** MakeDay: the day number of day `d` of month `m` of year `y`; `d` may run past the month. */
  function Day(y: int, m: int, d: int): int
    requires 1 <= m <= 12
  {
    DaysBeforeYear(y) + DaysBeforeMonth(y, m) + d - 1
  }

  datatype CivilDate = CivilDate(year: int, month: int, day: int)

  predicate ValidDate(c: CivilDate)
  {
    1 <= c.month <= 12 && 1 <= c.day <= DaysInMonth(c.year, c.month)
  }

  function DayOf(c: CivilDate): int
    requires 1 <= c.month <= 12
  {
    Day(c.year, c.month, c.day)
  }

  /** Calendar order: year first, then month, then day. */
  predicate Before(a: CivilDate, b: CivilDate)
  {
    a.year < b.year
    || (a.year == b.year && a.month < b.month)
    || (a.year == b.year && a.month == b.month && a.day < b.day)
  }

  lemma QuadStep(y: int)
    ensures (y - 1968) / 4 == (y - 1969) / 4 + (if y % 4 == 0 then 1 else 0)
  {
    var q, r := (y - 1969) / 4, (y - 1969) % 4;
    assert y - 1969 == 4 * q + r;
    assert y % 4 == (r + 1) % 4;
  }

  lemma CenturyStep(y: int)
    ensures (y - 1900) / 100 == (y - 1901) / 100 + (if y % 100 == 0 then 1 else 0)
  {
    var q, r := (y - 1901) / 100, (y - 1901) % 100;
    assert y - 1901 == 100 * q + r;
    assert y % 100 == (r + 1) % 100;
  }

  lemma QuadCenturyStep(y: int)
    ensures (y - 1600) / 400 == (y - 1601) / 400 + (if y % 400 == 0 then 1 else 0)
  {
    var q, r := (y - 1601) / 400, (y - 1601) % 400;
    assert y - 1601 == 400 * q + r;
    assert y % 400 == (r + 1) % 400;
  }

  /** Consecutive first-of-Januaries lie one year length apart. */
  lemma DaysBeforeYearStep(y: int)
    ensures DaysBeforeYear(y + 1) == DaysBeforeYear(y) + DaysInYear(y)
  {
    QuadStep(y);
    CenturyStep(y);
    QuadCenturyStep(y);
    DivisorsNest(y);
    var leapDays := (if y % 4 == 0 then 1 else 0) - (if y % 100 == 0 then 1 else 0)
      + (if y % 400 == 0 then 1 else 0);
    assert leapDays == DaysInYear(y) - 365;
    assert DaysBeforeYear(y + 1) == DaysBeforeYear(y) + 365 + leapDays;
  }

  /** A multiple of 400 is a multiple of 100, and a multiple of 100 one of 4. */
  lemma DivisorsNest(y: int)
    ensures y % 400 == 0 ==> y % 100 == 0
    ensures y % 100 == 0 ==> y % 4 == 0
  {
    if y % 400 == 0 {
      var k := y / 400;
      var m := 4 * k;
      assert y == 100 * m;
    }
    if y % 100 == 0 {
      var k := y / 100;
      var m := 25 * k;
      assert y == 4 * m;
    }
  }

  lemma {:induction false} DaysBeforeYearMonotone(y: int, z: int)
    requires y <= z
    ensures DaysBeforeYear(y) + 365 * (z - y) <= DaysBeforeYear(z)
    decreases z - y
  {
    if y < z {
      DaysBeforeYearMonotone(y, z - 1);
      DaysBeforeYearStep(z - 1);
    }
  }

  lemma MonthStep(y: int, m: int)
    requires 1 <= m <= 12
    ensures DaysBeforeMonth(y, m) + DaysInMonth(y, m)
      == if m < 12 then DaysBeforeMonth(y, m + 1) else DaysInYear(y)
  {
  }

  lemma {:induction false} MonthMonotone(y: int, m: int, n: int)
    requires 1 <= m < n <= 12
    ensures DaysBeforeMonth(y, m) + DaysInMonth(y, m) <= DaysBeforeMonth(y, n)
    decreases n - m
  {
    MonthStep(y, m);
    if m + 1 < n {
      MonthMonotone(y, m + 1, n);
    }
  }

  /** A calendar date lies within its own year. */
  lemma WithinYear(c: CivilDate)
    requires ValidDate(c)
    ensures DaysBeforeYear(c.year) <= DayOf(c) < DaysBeforeYear(c.year + 1)
  {
    MonthStep(c.year, c.month);
    if c.month < 12 {
      MonthMonotone(c.year, c.month, 12);
      MonthStep(c.year, 12);
    }
    DaysBeforeYearStep(c.year);
  }

  /** Day numbers follow the calendar order of valid dates. */
  lemma DayMonotone(a: CivilDate, b: CivilDate)
    requires ValidDate(a) && ValidDate(b) && Before(a, b)
    ensures DayOf(a) < DayOf(b)
  {
    if a.year < b.year {
      WithinYear(a);
      WithinYear(b);
      DaysBeforeYearMonotone(a.year + 1, b.year);
    } else if a.month < b.month {
      MonthMonotone(a.year, a.month, b.month);
    }
  }

  /** Distinct valid dates have distinct day numbers. */
  lemma DayInjective(a: CivilDate, b: CivilDate)
    requires ValidDate(a) && ValidDate(b) && DayOf(a) == DayOf(b)
    ensures a == b
  {
    if Before(a, b) { DayMonotone(a, b); }
    if Before(b, a) { DayMonotone(b, a); }
  }

  /**
   * The calendar date the getters report for MakeDay(y, m, d): a day past
   * the end of the month (at most 31 in a month of 28 to 30 days) moves
   * into the next month of the same year.
   */
  function Normalize(y: int, m: int, d: int): (c: CivilDate)
    requires 1 <= m <= 12 && 1 <= d <= 31
    ensures ValidDate(c) && DayOf(c) == Day(y, m, d) && c.year == y
    ensures ValidDate(CivilDate(y, m, d)) ==> c == CivilDate(y, m, d)
  {
    if d <= DaysInMonth(y, m) then CivilDate(y, m, d)
    else
      MonthStep(y, m);
      CivilDate(y, m + 1, d - DaysInMonth(y, m))
  }

  // ---------------------------------------------------------------------
  // Date objects
  // ---------------------------------------------------------------------

  /** `^\d{4}-\d{2}-\d{2}$` */
  predicate IsoDateShape(s: string)
  {
    |s| == 10 && AllDigits(s[..4]) && s[4] == '-' && AllDigits(s[5..7]) && s[7] == '-'
    && AllDigits(s[8..])
  }

  /** The calendar fields written in an ISO date, before any range check. */
  function IsoFields(s: string): (c: CivilDate)
    requires IsoDateShape(s)
    ensures 0 <= c.year < 10000 && 0 <= c.month < 100 && 0 <= c.day < 100
  {
    CivilDate(DigitsValue(s[..4]), DigitsValue(s[5..7]), DigitsValue(s[8..]))
  }

  /** The fields are within the ranges the date-only format admits. */
  predicate InRange(c: CivilDate)
  {
    1 <= c.month <= 12 && 1 <= c.day <= 31
  }

  /** `new Date(s).getTime()` on an ISO date: None stands for NaN. */
  function ParseIsoDate(s: string): (t: Option<int>)
    requires IsoDateShape(s)
    ensures t.Some? <==> InRange(IsoFields(s))
    ensures t.Some? ==> t.value == DayOf(BirthDate(s)) * MsPerDay
  {
    var c := IsoFields(s);
    if InRange(c) then Some(Day(c.year, c.month, c.day) * MsPerDay) else None
  }

  /** The calendar date the getters of `new Date(s)` report. */
  function BirthDate(s: string): (c: CivilDate)
    requires IsoDateShape(s) && InRange(IsoFields(s))
    ensures ValidDate(c) && (ValidDate(IsoFields(s)) ==> c == IsoFields(s))
  {
    var f := IsoFields(s);
    Normalize(f.year, f.month, f.day)
  }

  /** The current instant: its calendar date and the milliseconds since its midnight. */
  datatype Clock = Clock(today: CivilDate, msOfDay: int)

  predicate ValidClock(now: Clock)
  {
    ValidDate(now.today) && 0 <= now.msOfDay < MsPerDay
  }

  /** `new Date().getTime()` */
  function NowTime(now: Clock): int
    requires ValidClock(now)
  {
    DayOf(now.today) * MsPerDay + now.msOfDay
  }

  /** `maxAge.setFullYear(maxAge.getFullYear() - 120)`: same month, day and time, 120 years back. */
  function MaxAgeTime(now: Clock): int
    requires ValidClock(now)
  {
    Day(now.today.year - 120, now.today.month, now.today.day) * MsPerDay + now.msOfDay
  }

  // ---------------------------------------------------------------------
  // isValidFechaNacimiento and calcularEdad
  // ---------------------------------------------------------------------

  /**
   * isValidFechaNacimiento: empty is allowed; otherwise an ISO date that
   * parses, lies strictly before now and not before now minus 120 years.
   */
  function IsValidFechaNacimiento(fecha: string, now: Clock): (ok: bool)
    requires ValidClock(now)
    ensures ok && fecha != "" ==> IsoDateShape(fecha) && InRange(IsoFields(fecha))
  {
    if fecha == "" then true
    else if !IsoDateShape(fecha) then false
    else
      match ParseIsoDate(fecha)
      case None => false
      case Some(date) =>
        if date >= NowTime(now) then false
        else if date < MaxAgeTime(now) then false
        else true
  }

  /**
   * calcularEdad: years between the birth date and today, one less when
   * this year's birthday has not come yet. None stands for NaN, the result
   * of an input that does not parse.
   */
  function CalcularEdad(fecha: string, now: Clock): (age: Option<int>)
    requires ValidClock(now)
    ensures fecha == "" ==> age == Some(0)
    ensures fecha != "" && age.Some? ==> IsoDateShape(fecha) && InRange(IsoFields(fecha))
  {
    if fecha == "" then Some(0)
    else if !IsoDateShape(fecha) || !InRange(IsoFields(fecha)) then None
    else
      var birth := BirthDate(fecha);
      var today := now.today;
      var age := today.year - birth.year;
      var monthDiff := today.month - birth.month;
      if monthDiff < 0 || (monthDiff == 0 && today.day < birth.day) then Some(age - 1)
      else Some(age)
  }

  /**
   * The age counts whole years: the birthday of that many years has been
   * reached, the next one has not.
   */
  lemma AgeIsWholeYears(fecha: string, now: Clock)
    requires ValidClock(now) && fecha != "" && CalcularEdad(fecha, now).Some?
    ensures var b := BirthDate(fecha);
      var a := CalcularEdad(fecha, now).value;
      !Before(now.today, CivilDate(b.year + a, b.month, b.day))
      && Before(now.today, CivilDate(b.year + a + 1, b.month, b.day))
  {
  }

  lemma MulCancel(x: int, y: int, r: int)
    requires 0 <= r < MsPerDay && x * MsPerDay < y * MsPerDay + r
    ensures x <= y
  {
  }

  lemma MulCancelStrict(x: int, y: int, r: int)
    requires x < y && 0 <= r < MsPerDay
    ensures x * MsPerDay + r < y * MsPerDay
  {
  }

  lemma MulCancelUp(x: int, y: int, r: int)
    requires 0 <= r && x * MsPerDay >= y * MsPerDay + r
    ensures x >= y
  {
  }

  /**
   * A birth instant strictly before now and not before now minus 120 years
   * falls on a date not after today, in a year at most 120 years back.
   */
  lemma BirthWindow(b: CivilDate, now: Clock)
    requires ValidDate(b) && ValidClock(now)
    requires DayOf(b) * MsPerDay < NowTime(now) && DayOf(b) * MsPerDay >= MaxAgeTime(now)
    ensures !Before(now.today, b) && now.today.year - 120 <= b.year
  {
    var n := now.today;
    MulCancel(DayOf(b), DayOf(n), now.msOfDay);
    if Before(n, b) {
      DayMonotone(n, b);
    }
    MulCancelUp(DayOf(b), Day(n.year - 120, n.month, n.day), now.msOfDay);
    if b.year < n.year - 120 {
      WithinYear(b);
      DaysBeforeYearMonotone(b.year + 1, n.year - 120);
    }
  }

  /** Every date of birth the validator accepts gives an age between 0 and 120. */
  lemma ValidBirthAge(fecha: string, now: Clock)
    requires ValidClock(now) && fecha != "" && IsValidFechaNacimiento(fecha, now)
    ensures CalcularEdad(fecha, now).Some?
    ensures 0 <= CalcularEdad(fecha, now).value <= 120
  {
    var b := BirthDate(fecha);
    assert ParseIsoDate(fecha) == Some(DayOf(b) * MsPerDay);
    BirthWindow(b, now);
  }

  /** A calendar date after today is refused. */
  lemma FutureBirthRefused(fecha: string, now: Clock)
    requires ValidClock(now) && IsoDateShape(fecha) && ValidDate(IsoFields(fecha))
    requires Before(now.today, IsoFields(fecha))
    ensures !IsValidFechaNacimiento(fecha, now)
  {
    DayMonotone(now.today, IsoFields(fecha));
  }

  /** A calendar date in a year more than 120 years back is refused. */
  lemma AncientBirthRefused(fecha: string, now: Clock)
    requires ValidClock(now) && IsoDateShape(fecha) && ValidDate(IsoFields(fecha))
    requires IsoFields(fecha).year < now.today.year - 120
    ensures !IsValidFechaNacimiento(fecha, now)
  {
    var b := IsoFields(fecha);
    BeforeLimit(b, now);
    assert ParseIsoDate(fecha) == Some(DayOf(b) * MsPerDay);
  }

  lemma BeforeLimit(b: CivilDate, now: Clock)
    requires ValidDate(b) && ValidClock(now) && b.year < now.today.year - 120
    ensures DayOf(b) * MsPerDay < MaxAgeTime(now)
  {
    var n := now.today;
    WithinYear(b);
    DaysBeforeYearMonotone(b.year + 1, n.year - 120);
    var limit := Normalize(n.year - 120, n.month, n.day);
    WithinYear(limit);
    var lo, hi := DayOf(b), DayOf(limit);
    assert lo < hi;
    MulCancelStrict(lo, hi, 0);
    assert MaxAgeTime(now) == hi * MsPerDay + now.msOfDay;
  }

  /** A calendar date from earlier today or any day up to 119 years back is accepted. */
  lemma RecentBirthAccepted(fecha: string, now: Clock)
    requires ValidClock(now) && IsoDateShape(fecha) && ValidDate(IsoFields(fecha))
    requires now.today.year - 120 < IsoFields(fecha).year
    requires Before(IsoFields(fecha), now.today) || (IsoFields(fecha) == now.today && now.msOfDay > 0)
    ensures IsValidFechaNacimiento(fecha, now)
  {
    var b := IsoFields(fecha);
    InsideWindow(b, now);
    assert ParseIsoDate(fecha) == Some(DayOf(b) * MsPerDay);
  }

  lemma InsideWindow(b: CivilDate, now: Clock)
    requires ValidDate(b) && ValidClock(now) && now.today.year - 120 < b.year
    requires Before(b, now.today) || (b == now.today && now.msOfDay > 0)
    ensures DayOf(b) * MsPerDay < NowTime(now) && DayOf(b) * MsPerDay >= MaxAgeTime(now)
  {
    var n := now.today;
    if Before(b, n) {
      DayMonotone(b, n);
      MulCancelStrict(DayOf(b), DayOf(n), 0);
    }
    AfterLimit(b, now);
  }

  lemma AfterLimit(b: CivilDate, now: Clock)
    requires ValidDate(b) && ValidClock(now) && now.today.year - 120 < b.year
    ensures DayOf(b) * MsPerDay >= MaxAgeTime(now)
  {
    var n := now.today;
    var limit := Normalize(n.year - 120, n.month, n.day);
    WithinYear(b);
    WithinYear(limit);
    DaysBeforeYearMonotone(limit.year + 1, b.year);
    var lo, hi := DayOf(limit), DayOf(b);
    assert lo < hi;
    MulCancelStrict(lo, hi, now.msOfDay);
    assert MaxAgeTime(now) == lo * MsPerDay + now.msOfDay;
  }
}
