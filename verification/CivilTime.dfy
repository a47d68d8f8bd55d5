/** The device clock's date and time as text (`agent/src/csv_utils.rs`), against the Gregorian calendar. */
module CivilTime {
  import opened Prelude
  import opened Text

  // ---------------------------------------------------------------------------
  // The calendar: leap years and month lengths, RFC 3339 section 5.7 and appendix C
  // ---------------------------------------------------------------------------

  predicate IsLeap(year: int) {
    year % 4 == 0 && (year % 100 != 0 || year % 400 == 0)
  }

  function DaysInYear(year: int): nat {
    if IsLeap(year) then 366 else 365
  }

  function DaysInMonth(year: int, month: int): nat {
    if month == 2 then (if IsLeap(year) then 29 else 28)
    else if month == 4 || month == 6 || month == 9 || month == 11 then 30
    else 31
  }

  /** Days from 1970-01-01 to the year's first day, year by year. */
  function DaysBeforeYear(year: int): int
    decreases if year >= 1970 then year - 1970 else 1970 - year
  {
    if year == 1970 then 0
    else if year > 1970 then DaysBeforeYear(year - 1) + DaysInYear(year - 1)
    else DaysBeforeYear(year + 1) - DaysInYear(year)
  }

  /** Days from the year's first day to the month's, month by month. */
  function DaysBeforeMonth(year: int, month: int): nat
    requires 1 <= month <= 13
  {
    if month == 1 then 0 else DaysBeforeMonth(year, month - 1) + DaysInMonth(year, month - 1)
  }

  datatype Date = Date(year: int, month: int, day: int)

  predicate IsDate(d: Date) {
    1 <= d.month <= 12 && 1 <= d.day <= DaysInMonth(d.year, d.month)
  }

  /** Days from 1970-01-01. */
  function DayNumber(d: Date): int
    requires IsDate(d)
  {
    DaysBeforeYear(d.year) + DaysBeforeMonth(d.year, d.month) + d.day - 1
  }

  // ---------------------------------------------------------------------------
  // The computation
  // ---------------------------------------------------------------------------

  /** Year of the 400-year era and day of the year, both counted from the first of March. */
  function YearOfEra(doe: int): int {
    (doe - doe / 1460 + doe / 36524 - doe / 146096) / 365
  }

  /** Days from the era's first day (a first of March) to the first of March of its year `yoe`. */
  function EraDays(yoe: int): int {
    365 * yoe + yoe / 4 - yoe / 100
  }

  function DayOfYear(doe: int): int {
    doe - EraDays(YearOfEra(doe))
  }

  function MonthOfDay(doy: int): int {
    (5 * doy + 2) / 153
  }

  /** The date of day `doy` of a year counted from the first of March. */
  function MarchDate(y: int, doy: int): Date {
    var mp := MonthOfDay(doy);
    var d := doy - (153 * mp + 2) / 5 + 1;
    var mo := if mp < 10 then mp + 3 else mp - 9;
    Date(if mo <= 2 then y + 1 else y, mo, d)
  }

  function DateOf(days: int): Date {
    var z := days + 719468;
    var era, doe := z / 146097, z % 146097;
    MarchDate(YearOfEra(doe) + era * 400, DayOfYear(doe))
  }

  /** An unsigned 64-bit number cast to a signed one. */
  function AsSigned(n: nat): int {
    if n < U64_SIZE / 2 then n else n - U64_SIZE
  }

  /** Signed division truncates toward zero. */
  function Quotient(n: int, d: nat): int
    requires d > 0
  {
    if n >= 0 then n / d else -(-n / d)
  }

  function Remainder(n: int, d: nat): int
    requires d > 0
  {
    n - Quotient(n, d) * d
  }

  datatype Time = Time(hour: int, minute: int, second: int)

  function TimeOfDay(time: int): Time {
    Time(Quotient(time, 3600), Quotient(Remainder(time, 3600), 60), Remainder(time, 60))
  }

  function TimeOf(secs: int): Time {
    TimeOfDay(Remainder(secs, 86400))
  }

  function DateTimeOf(epoch: nat): (Date, Time) {
    var secs := AsSigned(epoch);
    (DateOf(Quotient(secs, 86400)), TimeOf(secs))
  }

  // ---------------------------------------------------------------------------
  // Leap days
  // ---------------------------------------------------------------------------

  /** Leap years in 1..=n, when n is positive. */
  function Leaps(n: int): int {
    n / 4 - n / 100 + n / 400
  }

  lemma NextQuotient(n: int, d: int)
    requires d == 4 || d == 100 || d == 400
    ensures n / d - (n - 1) / d == if n % d == 0 then 1 else 0
  {
  }

  lemma Divisibility(n: int)
    ensures n % 400 == 0 ==> n % 100 == 0
    ensures n % 100 == 0 ==> n % 4 == 0
  {
  }

  lemma LeapsStep(n: int)
    ensures Leaps(n) - Leaps(n - 1) == if IsLeap(n) then 1 else 0
  {
    var by4, by100, by400 := n / 4 - (n - 1) / 4, n / 100 - (n - 1) / 100, n / 400 - (n - 1) / 400;
    assert by4 == if n % 4 == 0 then 1 else 0 by { NextQuotient(n, 4); }
    assert by100 == if n % 100 == 0 then 1 else 0 by { NextQuotient(n, 100); }
    assert by400 == if n % 400 == 0 then 1 else 0 by { NextQuotient(n, 400); }
    Divisibility(n);
  }

  lemma {:induction false} DaysBeforeYearFormula(year: int)
    ensures DaysBeforeYear(year) == 365 * (year - 1970) + Leaps(year - 1) - 477
    decreases if year >= 1970 then year - 1970 else 1970 - year
  {
    if year == 1970 {
      assert Leaps(1969) == 477;
    } else if year > 1970 {
      DaysBeforeYearFormula(year - 1);
      LeapsStep(year - 1);
    } else {
      DaysBeforeYearFormula(year + 1);
      LeapsStep(year);
    }
  }

  // ---------------------------------------------------------------------------
  // Years of an era
  // ---------------------------------------------------------------------------

  /** Day `s` of a four-year cycle: its year, the last day of the fourth year included. */
  function YearOfCycle(s: int): int {
    if s < 365 then 0 else if s < 730 then 1 else if s < 1095 then 2 else 3
  }

  /** The correction by 1460-day steps never moves a day into another year. */
  lemma CycleYear(century: int, q: int, s: int)
    requires 0 <= century <= 3 && 0 <= q <= 24 && 0 <= s <= 1460
    ensures var e := (24 * century + q + s) / 1460; (s - e) / 365 == YearOfCycle(s)
  {
    var e := (24 * century + q + s) / 1460;
    assert 0 <= e <= 1;
    assert e == 1 ==> s >= 1364;
    assert s == 1460 ==> e == 1;
  }

  lemma EraYear(doe: int, century: int, q: int, s: int)
    requires 0 <= century <= 3 && 0 <= q <= 24 && 0 <= s <= 1460 && 1461 * q + s < 36524
    requires doe == 36524 * century + 1461 * q + s
    ensures YearOfEra(doe) == 100 * century + 4 * q + YearOfCycle(s)
    ensures DayOfYear(doe) == s - 365 * YearOfCycle(s)
  {
    CycleYear(century, q, s);
    var e, k := (24 * century + q + s) / 1460, YearOfCycle(s);
    assert doe == 1460 * (25 * century + q) + (24 * century + q + s);
    assert doe / 1460 == 25 * century + q + e;
    assert doe / 36524 == century;
    assert doe / 146096 == 0;
    var n := doe - doe / 1460 + doe / 36524 - doe / 146096;
    assert n == 365 * (100 * century + 4 * q) + (s - e);
    assert n / 365 == 100 * century + 4 * q + k;
    var yoe := YearOfEra(doe);
    assert yoe / 4 == 25 * century + q;
    assert yoe / 100 == century;
  }

  lemma LastDayOfEra()
    ensures YearOfEra(146096) == 399 && DayOfYear(146096) == 365
  {
  }

  lemma LeapAfterCycle(era: int, century: int, q: int)
    requires 0 <= q < 24
    ensures IsLeap(400 * era + 100 * century + 4 * (q + 1))
  {
    var year := 400 * era + 100 * century + 4 * (q + 1);
    assert year == 4 * (100 * era + 25 * century + q + 1);
    assert year == 100 * (4 * era + century) + 4 * (q + 1);
  }

  lemma LeapAfterEra(era: int)
    ensures IsLeap(400 * era + 400)
  {
    assert 400 * era + 400 == 4 * (100 * era + 100);
  }

  lemma EraParts(doe: int) returns (century: int, q: int, s: int)
    requires 0 <= doe < 146096
    ensures 0 <= century <= 3 && 0 <= q <= 24 && 0 <= s <= 1460 && 1461 * q + s < 36524
    ensures doe == 36524 * century + 1461 * q + s
  {
    century := doe / 36524;
    var r := doe % 36524;
    q, s := r / 1461, r % 1461;
  }

  /** Each day of an era falls into its year; a 366th day only into a year whose February is a leap one. */
  lemma YearOfEraFacts(doe: int, era: int)
    requires 0 <= doe < 146097
    ensures 0 <= YearOfEra(doe) < 400 && 0 <= DayOfYear(doe) <= 365
    ensures DayOfYear(doe) == 365 ==> IsLeap(400 * era + YearOfEra(doe) + 1)
  {
    if doe == 146096 {
      LastDayOfEra();
      LeapAfterEra(era);
    } else {
      var century, q, s := EraParts(doe);
      YearInCycle(doe, era, century, q, s);
    }
  }

  lemma YearInCycle(doe: int, era: int, century: int, q: int, s: int)
    requires 0 <= century <= 3 && 0 <= q <= 24 && 0 <= s <= 1460 && 1461 * q + s < 36524
    requires doe == 36524 * century + 1461 * q + s
    ensures 0 <= YearOfEra(doe) < 400 && 0 <= DayOfYear(doe) <= 365
    ensures DayOfYear(doe) == 365 ==> IsLeap(400 * era + YearOfEra(doe) + 1)
  {
    EraYear(doe, century, q, s);
    if s == 1460 {
      LeapAfterCycle(era, century, q);
    }
  }

  lemma LeapsOfEra(era: int, yoe: int)
    requires 0 <= yoe < 400
    ensures Leaps(400 * era + yoe) == 97 * era + yoe / 4 - yoe / 100
  {
    var y := 400 * era + yoe;
    assert y / 4 == era * 100 + yoe / 4;
    assert y / 100 == era * 4 + yoe / 100;
    assert y / 400 == era;
  }

  // ---------------------------------------------------------------------------
  // Months
  // ---------------------------------------------------------------------------

  /** The `k`-th month counted from March begins on this day of the March year. */
  function MonthStart(k: int): int {
    (153 * k + 2) / 5
  }

  lemma MonthFacts(doy: int)
    requires 0 <= doy <= 365
    ensures var k := MonthOfDay(doy); 0 <= k <= 11 && MonthStart(k) <= doy && (k < 11 ==> doy < MonthStart(k + 1))
  {
    var k := MonthOfDay(doy);
    assert 153 * k <= 5 * doy + 2 < 153 * k + 153;
  }

  lemma {:induction false} MonthTable(year: int)
    ensures forall k :: 0 <= k <= 9 ==>
              DaysBeforeMonth(year, k + 3) == MonthStart(k) + 59 + (if IsLeap(year) then 1 else 0)
    ensures DaysBeforeMonth(year, 1) == MonthStart(10) - 306 && DaysBeforeMonth(year, 2) == MonthStart(11) - 306
    ensures forall k :: 0 <= k <= 9 ==> DaysInMonth(year, k + 3) == MonthStart(k + 1) - MonthStart(k)
    ensures MonthStart(11) - MonthStart(10) == 31
  {
    var leap := if IsLeap(year) then 1 else 0;
    assert DaysBeforeMonth(year, 2) == 31;
    assert DaysBeforeMonth(year, 3) == 59 + leap;
    assert DaysBeforeMonth(year, 4) == 90 + leap;
    assert DaysBeforeMonth(year, 5) == 120 + leap;
    assert DaysBeforeMonth(year, 6) == 151 + leap;
    assert DaysBeforeMonth(year, 7) == 181 + leap;
    assert DaysBeforeMonth(year, 8) == 212 + leap;
    assert DaysBeforeMonth(year, 9) == 243 + leap;
    assert DaysBeforeMonth(year, 10) == 273 + leap;
    assert DaysBeforeMonth(year, 11) == 304 + leap;
    assert DaysBeforeMonth(year, 12) == 334 + leap;
  }

  // ---------------------------------------------------------------------------
  // The computation inverts the calendar
  // ---------------------------------------------------------------------------

  lemma DateOfEra(era: int, doe: int)
    requires 0 <= doe < 146097
    ensures var d := MarchDate(YearOfEra(doe) + era * 400, DayOfYear(doe));
            IsDate(d) && DayNumber(d) == 146097 * era + doe - 719468
  {
    YearOfEraFacts(doe, era);
    DateOfEraYear(era, doe, YearOfEra(doe), DayOfYear(doe));
  }

  lemma DateOfEraYear(era: int, doe: int, yoe: int, doy: int)
    requires 0 <= yoe < 400 && doy == doe - EraDays(yoe) && 0 <= doy <= 365
    requires doy == 365 ==> IsLeap(400 * era + yoe + 1)
    ensures var d := MarchDate(yoe + era * 400, doy); IsDate(d) && DayNumber(d) == 146097 * era + doe - 719468
  {
    DayOfEra(era, doe, yoe, doy);
    DateInYear(146097 * era + doe - 719468, 400 * era + yoe, doy);
  }

  lemma DateSplits(days: int) returns (era: int, doe: int)
    ensures 0 <= doe < 146097 && days == 146097 * era + doe - 719468
    ensures DateOf(days) == MarchDate(YearOfEra(doe) + era * 400, DayOfYear(doe))
  {
    era, doe := (days + 719468) / 146097, (days + 719468) % 146097;
  }

  /** Every day number, before 1970 as well, gives the valid date it is the number of. */
  lemma DateInvertsDayNumber(days: int)
    ensures IsDate(DateOf(days)) && DayNumber(DateOf(days)) == days
  {
    var era, doe := DateSplits(days);
    DateOfEra(era, doe);
  }

  lemma DayOfEra(era: int, doe: int, yoe: int, doy: int)
    requires 0 <= yoe < 400 && doy == doe - EraDays(yoe)
    ensures 146097 * era + doe == 365 * (400 * era + yoe) + Leaps(400 * era + yoe) + doy
  {
    LeapsOfEra(era, yoe);
  }

  lemma DateInYear(days: int, y: int, doy: int)
    requires 0 <= doy <= 365 && (doy == 365 ==> IsLeap(y + 1))
    requires days == 365 * y + Leaps(y) + doy - 719468
    ensures IsDate(MarchDate(y, doy)) && DayNumber(MarchDate(y, doy)) == days
  {
    var k := MonthOfDay(doy);
    MonthFacts(doy);
    if k < 10 {
      MonthTable(y);
      DaysBeforeYearFormula(y);
      LeapsStep(y);
      var d := Date(y, k + 3, doy - MonthStart(k) + 1);
      assert DaysInMonth(y, k + 3) == MonthStart(k + 1) - MonthStart(k);
      assert DaysBeforeMonth(y, k + 3) == MonthStart(k) + 59 + (if IsLeap(y) then 1 else 0);
    } else {
      MonthTable(y + 1);
      DaysBeforeYearFormula(y + 1);
    }
  }

  // ---------------------------------------------------------------------------
  // The calendar is ordered
  // ---------------------------------------------------------------------------

  predicate Earlier(a: Date, b: Date) {
    a.year < b.year || (a.year == b.year && (a.month < b.month || (a.month == b.month && a.day < b.day)))
  }

  lemma {:induction false} YearEnds(year: int, month: int)
    requires 1 <= month <= 12
    ensures DaysBeforeMonth(year, month) + DaysInMonth(year, month) <= DaysInYear(year)
    decreases 12 - month
  {
    if month == 12 {
      MonthTable(year);
      assert DaysBeforeMonth(year, 9 + 3) == MonthStart(9) + 59 + (if IsLeap(year) then 1 else 0);
    } else {
      YearEnds(year, month + 1);
    }
  }

  lemma {:induction false} MonthsOrdered(year: int, one: int, other: int)
    requires 1 <= one < other <= 12
    ensures DaysBeforeMonth(year, one) + DaysInMonth(year, one) <= DaysBeforeMonth(year, other)
    decreases other
  {
    if one + 1 < other {
      MonthsOrdered(year, one, other - 1);
    }
  }

  lemma {:induction false} YearsOrdered(one: int, other: int)
    requires one < other
    ensures DaysBeforeYear(one) + DaysInYear(one) <= DaysBeforeYear(other)
    decreases other - one
  {
    assert DaysBeforeYear(one + 1) == DaysBeforeYear(one) + DaysInYear(one) by {
      DaysBeforeYearFormula(one);
      DaysBeforeYearFormula(one + 1);
      LeapsStep(one);
    }
    if one + 1 < other {
      YearsOrdered(one + 1, other);
    }
  }

  /** Day numbers are in calendar order, so a day number has one date. */
  lemma DayNumbersOrdered(a: Date, b: Date)
    requires IsDate(a) && IsDate(b)
    ensures DayNumber(a) < DayNumber(b) <==> Earlier(a, b)
  {
    if Earlier(a, b) {
      EarlierIsLess(a, b);
    } else if Earlier(b, a) {
      EarlierIsLess(b, a);
    } else {
      assert a == b;
    }
  }

  lemma EarlierIsLess(a: Date, b: Date)
    requires IsDate(a) && IsDate(b) && Earlier(a, b)
    ensures DayNumber(a) < DayNumber(b)
  {
    if a.year < b.year {
      YearEnds(a.year, a.month);
      YearsOrdered(a.year, b.year);
    } else if a.month < b.month {
      MonthsOrdered(a.year, a.month, b.month);
    }
  }

  // ---------------------------------------------------------------------------
  // Date and time of an epoch
  // ---------------------------------------------------------------------------

  predicate IsTime(t: Time) {
    0 <= t.hour < 24 && 0 <= t.minute < 60 && 0 <= t.second < 60
  }

  /** Seconds from 1970-01-01T00:00:00. */
  function Instant(dt: (Date, Time)): int
    requires IsDate(dt.0)
  {
    86400 * DayNumber(dt.0) + 3600 * dt.1.hour + 60 * dt.1.minute + dt.1.second
  }

  lemma DayParts(secs: int)
    ensures var time := Remainder(secs, 86400);
            if secs >= 0 then 0 <= time < 86400 else -86400 < time <= 0
  {
  }

  lemma DayTimeParts(time: int)
    requires 0 <= time < 86400
    ensures var t := TimeOfDay(time);
            3600 * t.hour + 60 * t.minute + t.second == time && IsTime(t)
  {
    var rest := time % 3600;
    assert time == 3600 * (time / 3600) + rest;
    assert rest == 60 * (rest / 60) + rest % 60;
    assert rest % 60 == time % 60;
  }

  lemma NegativeTimeParts(time: int)
    requires 0 < time < 86400
    ensures var t := TimeOfDay(-time);
            3600 * t.hour + 60 * t.minute + t.second == -time && !IsTime(t)
  {
    DayTimeParts(time);
    assert TimeOfDay(-time) == Time(-TimeOfDay(time).hour, -TimeOfDay(time).minute, -TimeOfDay(time).second);
  }

  lemma TimeParts(secs: int)
    ensures var t := TimeOf(secs);
            && 3600 * t.hour + 60 * t.minute + t.second == Remainder(secs, 86400)
            && (secs >= 0 ==> IsTime(t))
  {
    DayParts(secs);
    var time := Remainder(secs, 86400);
    if time >= 0 {
      DayTimeParts(time);
    } else {
      NegativeTimeParts(-time);
    }
  }

  /**
   The fields are a valid date and time that denote the epoch exactly for epochs below 2^63; from
   there on the cast makes the time a negative one.
   */
  lemma FieldsDenoteEpochExactly(epoch: nat)
    requires epoch < U64_SIZE
    ensures var dt := DateTimeOf(epoch); IsDate(dt.0) && Instant(dt) == AsSigned(epoch)
    ensures var dt := DateTimeOf(epoch);
            IsDate(dt.0) && IsTime(dt.1) && Instant(dt) == epoch <==> epoch < U64_SIZE / 2
  {
    var secs := AsSigned(epoch);
    DateInvertsDayNumber(Quotient(secs, 86400));
    TimeParts(secs);
  }

  // ---------------------------------------------------------------------------
  // The text sorts as the clock does
  // ---------------------------------------------------------------------------

  /** Padded with zeros to at least `width` characters. */
  function Padded(n: nat, width: nat): string {
    var text := DecimalText(n);
    seq(Max(0, width - |text|), _ => '0') + text
  }

  function Digits(n: nat, width: nat): (text: string)
    ensures |text| == width
  {
    if width == 0 then "" else Digits(n / 10, width - 1) + [DigitChar(n % 10)]
  }

  function Pow10(width: nat): nat {
    if width == 0 then 1 else 10 * Pow10(width - 1)
  }

  /** A number of at most `width` digits is written with exactly that many. */
  lemma {:induction false} PaddedIsDigits(n: nat, width: nat)
    requires n < Pow10(width) && width >= 1
    ensures |DecimalText(n)| <= width && Padded(n, width) == Digits(n, width)
  {
    if n < 10 {
      ZeroDigits(width - 1);
      assert Digits(n, width) == Digits(0, width - 1) + [DigitChar(n)];
    } else {
      PaddedIsDigits(n / 10, width - 1);
    }
  }

  lemma {:induction false} ZeroDigits(width: nat)
    ensures Digits(0, width) == seq(width, _ => '0')
  {
    if width > 0 {
      ZeroDigits(width - 1);
    }
  }

  lemma {:induction false} DigitsOrdered(m: nat, n: nat, width: nat)
    requires m < Pow10(width) && n < Pow10(width)
    ensures Less(Digits(m, width), Digits(n, width)) <==> m < n
    ensures Digits(m, width) == Digits(n, width) <==> m == n
  {
    if width > 0 {
      DigitsOrdered(m / 10, n / 10, width - 1);
      var x, y := [DigitChar(m % 10)], [DigitChar(n % 10)];
      LessConcat(Digits(m / 10, width - 1), Digits(n / 10, width - 1), x, y);
      LastDigit(Digits(m / 10, width - 1), x[0], Digits(n / 10, width - 1), y[0]);
      assert Less(x, y) <==> m % 10 < n % 10;
    }
  }

  lemma LastDigit(a: string, x: char, b: string, y: char)
    requires |a| == |b|
    ensures a + [x] == b + [y] <==> a == b && x == y
  {
    assert (a + [x])[..|a|] == a && (b + [y])[..|b|] == b;
    assert (a + [x])[|a|] == x && (b + [y])[|b|] == y;
  }

  function PaddedInt(n: int, width: nat): string {
    if n < 0 then "-" + Padded(-n, Max(0, width - 1)) else Padded(n, width)
  }

  function Rendered(dt: (Date, Time)): string {
    var (d, t) := dt;
    PaddedInt(d.year, 4) + ("-" + (PaddedInt(d.month, 2) + ("-" + (PaddedInt(d.day, 2) + ("T"
    + (PaddedInt(t.hour, 2) + (":" + (PaddedInt(t.minute, 2) + (":" + PaddedInt(t.second, 2))))))))))
  }

  /** The text of an epoch. */
  function DeviceDateTime(epoch: nat): string {
    Rendered(DateTimeOf(epoch))
  }

  lemma FieldOrder(m: int, n: int, width: nat, separator: string, x: string, y: string)
    requires 0 <= m < Pow10(width) && 0 <= n < Pow10(width) && width >= 1
    ensures Less(PaddedInt(m, width) + (separator + x), PaddedInt(n, width) + (separator + y))
            <==> m < n || (m == n && Less(x, y))
  {
    PaddedIsDigits(m, width);
    PaddedIsDigits(n, width);
    DigitsOrdered(m, n, width);
    LessConcat(Digits(m, width), Digits(n, width), separator + x, separator + y);
    LessConcat(separator, separator, x, y);
    LessIsTotal(separator, separator);
  }

  predicate TimeEarlier(a: Time, b: Time) {
    a.hour < b.hour || (a.hour == b.hour && (a.minute < b.minute || (a.minute == b.minute && a.second < b.second)))
  }

  predicate IsFourDigit(dt: (Date, Time)) {
    IsDate(dt.0) && IsTime(dt.1) && 0 <= dt.0.year <= 9999
  }

  function DayText(d: Date, rest: string): string {
    PaddedInt(d.year, 4) + ("-" + (PaddedInt(d.month, 2) + ("-" + (PaddedInt(d.day, 2) + ("T" + rest)))))
  }

  function TimeText(t: Time): string {
    PaddedInt(t.hour, 2) + (":" + (PaddedInt(t.minute, 2) + (":" + PaddedInt(t.second, 2))))
  }

  lemma DayTextOrder(a: Date, b: Date, x: string, y: string)
    requires IsDate(a) && IsDate(b) && 0 <= a.year <= 9999 && 0 <= b.year <= 9999
    ensures Less(DayText(a, x), DayText(b, y)) <==> Earlier(a, b) || (a == b && Less(x, y))
  {
    var dayA, dayB := PaddedInt(a.day, 2) + ("T" + x), PaddedInt(b.day, 2) + ("T" + y);
    var monthA, monthB := PaddedInt(a.month, 2) + ("-" + dayA), PaddedInt(b.month, 2) + ("-" + dayB);
    assert Pow10(4) == 10000 && Pow10(2) == 100;
    FieldOrder(a.day, b.day, 2, "T", x, y);
    FieldOrder(a.month, b.month, 2, "-", dayA, dayB);
    FieldOrder(a.year, b.year, 4, "-", monthA, monthB);
  }

  lemma TimeTextOrder(a: Time, b: Time)
    requires IsTime(a) && IsTime(b)
    ensures Less(TimeText(a), TimeText(b)) <==> TimeEarlier(a, b)
  {
    var secondA, secondB := PaddedInt(a.second, 2), PaddedInt(b.second, 2);
    var minuteA, minuteB := PaddedInt(a.minute, 2) + (":" + secondA), PaddedInt(b.minute, 2) + (":" + secondB);
    assert Pow10(2) == 100;
    FieldOrder(a.second, b.second, 2, "", "", "");
    assert secondA + ("" + "") == secondA && secondB + ("" + "") == secondB;
    FieldOrder(a.minute, b.minute, 2, ":", secondA, secondB);
    FieldOrder(a.hour, b.hour, 2, ":", minuteA, minuteB);
  }

  lemma RenderedOrder(a: (Date, Time), b: (Date, Time))
    requires IsFourDigit(a) && IsFourDigit(b)
    ensures Less(Rendered(a), Rendered(b)) <==> Instant(a) < Instant(b)
  {
    assert Rendered(a) == DayText(a.0, TimeText(a.1)) && Rendered(b) == DayText(b.0, TimeText(b.1));
    DayTextOrder(a.0, b.0, TimeText(a.1), TimeText(b.1));
    TimeTextOrder(a.1, b.1);
    InstantOrder(a, b);
  }

  lemma InstantOrder(a: (Date, Time), b: (Date, Time))
    requires IsDate(a.0) && IsDate(b.0) && IsTime(a.1) && IsTime(b.1)
    ensures Instant(a) < Instant(b) <==> Earlier(a.0, b.0) || (a.0 == b.0 && TimeEarlier(a.1, b.1))
  {
    DayNumbersOrdered(a.0, b.0);
    DayNumbersOrdered(b.0, a.0);
  }

  /** RFC 3339 section 5.1: up to the year 9999 the texts sort as the epochs do. */
  lemma TextSortsAsEpoch(one: nat, other: nat)
    requires one < U64_SIZE / 2 && other < U64_SIZE / 2
    requires DateTimeOf(one).0.year <= 9999 && DateTimeOf(other).0.year <= 9999
    ensures Less(DeviceDateTime(one), DeviceDateTime(other)) <==> one < other
  {
    FieldsDenoteEpochExactly(one);
    FieldsDenoteEpochExactly(other);
    EpochYear(one);
    EpochYear(other);
    RenderedOrder(DateTimeOf(one), DateTimeOf(other));
  }

  lemma EpochYear(epoch: nat)
    requires epoch < U64_SIZE / 2
    ensures DateTimeOf(epoch).0.year >= 1970
  {
    FieldsDenoteEpochExactly(epoch);
    var d := DateTimeOf(epoch).0;
    DateInvertsDayNumber(Quotient(epoch, 86400));
    if d.year < 1970 {
      YearEnds(d.year, d.month);
      YearsOrdered(d.year, 1970);
    }
  }
}
