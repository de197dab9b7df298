/** Calendar arithmetic (src/vm/native_modules/datetime.rs): the closed formulas for days and dates are
    the Gregorian calendar of section 3.2.1 of ISO 8601:2004, extended to all years in both directions. */
module DateTime {
  import opened Integers
  import opened Wrappers

  const MS_PER_DAY: int := 86_400_000

  datatype Date = Date(year: int, month: int, day: int)

  // ----- the calendar, day by day -----

  predicate Leap(y: int) {
    y % 4 == 0 && (y % 100 != 0 || y % 400 == 0)
  }

  function MonthLength(y: int, m: int): int {
    if m == 2 then (if Leap(y) then 29 else 28)
    else if m == 4 || m == 6 || m == 9 || m == 11 then 30 else 31
  }

  predicate Valid(d: Date) {
    1 <= d.month <= 12 && 1 <= d.day <= MonthLength(d.year, d.month)
  }

  /** The day after. */
  function Next(d: Date): Date {
    if d.day < MonthLength(d.year, d.month) then d.(day := d.day + 1)
    else if d.month < 12 then Date(d.year, d.month + 1, 1)
    else Date(d.year + 1, 1, 1)
  }

  // ----- the formulas -----

  /** `days_from_civil`: days since 1970-01-01, for any three integers. */
  function DaysFromCivil(y0: int, m: int, d: int): int {
    var y := if m <= 2 then y0 - 1 else y0;
    var era := TruncDiv(if y >= 0 then y else y - 399, 400);
    var yoe := y - era * 400;
    var mp := if m > 2 then m - 3 else m + 9;
    var doy := TruncDiv(153 * mp + 2, 5) + d - 1;
    var doe := yoe * 365 + TruncDiv(yoe, 4) - TruncDiv(yoe, 100) + doy;
    era * 146097 + doe - 719468
  }

  /** `civil_from_days`. */
  function CivilFromDays(z0: int): Date {
    var z := z0 + 719468;
    var era := TruncDiv(if z >= 0 then z else z - 146096, 146097);
    var doe := z - era * 146097;
    var yoe := YearOfEra(doe);
    var y := yoe + era * 400;
    var doy := doe - (365 * yoe + TruncDiv(yoe, 4) - TruncDiv(yoe, 100));
    var mp := TruncDiv(5 * doy + 2, 153);
    var d := doy - TruncDiv(153 * mp + 2, 5) + 1;
    var m := if mp < 10 then mp + 3 else mp - 9;
    Date(if m <= 2 then y + 1 else y, m, d)
  }

  function YearOfEra(doe: int): int {
    TruncDiv(doe - TruncDiv(doe, 1460) + TruncDiv(doe, 36524) - TruncDiv(doe, 146096), 365)
  }

  datatype Parts = Parts(
    year: int, month: int, day: int, hour: int, minute: int, second: int, ms: int, weekday: int, yearday: int)

  /** `parts_from_ms`; `div_euclid` and `rem_euclid` are Dafny's `/` and `%`. */
  function PartsFromMs(epochMs: int): Parts {
    var days := epochMs / MS_PER_DAY;
    var tod := epochMs % MS_PER_DAY;
    var c := CivilFromDays(days);
    Parts(c.year, c.month, c.day, tod / 3_600_000, tod / 60_000 % 60, tod / 1000 % 60, tod % 1000, (days + 4) % 7,
          days - DaysFromCivil(c.year, 1, 1) + 1)
  }

  /** The fields of the object given to `to_ms`; a missing one has its default. */
  datatype Fields = Fields(
    year: Option<int>, month: Option<int>, day: Option<int>, hour: Option<int>, minute: Option<int>,
      second: Option<int>, ms: Option<int>)

  function Or(o: Option<int>, default: int): int {
    match o
    case Some(n) => n
    case None => default
  }

  /** `to_ms`. */
  function ToMs(f: Fields): int {
    DaysFromCivil(Or(f.year, 1970), Or(f.month, 1), Or(f.day, 1)) * MS_PER_DAY + Or(f.hour, 0) * 3_600_000
      + Or(f.minute, 0) * 60_000
      + Or(f.second, 0) * 1000 + Or(f.ms, 0)
  }

  function FieldsOf(p: Parts): Fields {
    Fields(Some(p.year), Some(p.month), Some(p.day), Some(p.hour), Some(p.minute), Some(p.second), Some(p.ms))
  }

  // ----- years that begin in March -----

  /** Day on which the March-based year `y` begins, counted from March 1st of year 0. */
  function YearStart(y: int): int {
    365 * y + y / 4 - y / 100 + y / 400
  }

  /** Day of a March-based year on which its month `mp` begins. */
  function MonthStart(mp: int): int {
    (153 * mp + 2) / 5
  }

  lemma YearLength(y: int)
    ensures YearStart(y + 1) - YearStart(y) == if Leap(y + 1) then 366 else 365
  {
    Multiples(y, 4);
    Multiples(y, 100);
    Multiples(y, 400);
  }

  lemma Multiples(y: int, n: int)
    requires n == 4 || n == 100 || n == 400
    ensures (y + 1) / n == y / n + if (y + 1) % n == 0 then 1 else 0
  {
  }

  /** Length of a month, by where the next one begins; February is the last of a March-based year. */
  lemma MonthSpan(y: int, m: int)
    requires 1 <= m <= 12
    ensures var mp := if m > 2 then m - 3 else m + 9;
      MonthLength(y, m) == if m == 2 then (if Leap(y) then 366 else 365) - MonthStart(mp)
        else MonthStart(mp + 1) - MonthStart(mp)
  {
    hide Leap;
    if m <= 4 {
    } else if m <= 8 {
    }
  }

  /** The guarded division rounds down. */
  lemma EraIsFloor(y: int, n: int)
    requires n == 400 || n == 146097
    ensures TruncDiv(if y >= 0 then y else y - (n - 1), n) == y / n
  {
    if y < 0 {
      var k := -y;
      assert Abs(y - (n - 1)) == k + n - 1;
      assert (k + n - 1) / n == -(y / n) by {
        var q := y / n;
        assert y == n * q + y % n;
      }
    }
  }

  lemma TruncNonNegative(x: int, y: int)
    requires x >= 0 && y > 0
    ensures TruncDiv(x, y) == x / y
  {
  }

  /** The formula for days, in March-based terms. */
  lemma DaysAre(y0: int, m: int, d: int)
    requires 1 <= m <= 12
    ensures DaysFromCivil(y0, m, d) ==
      YearStart(if m <= 2 then y0 - 1 else y0) + MonthStart(if m > 2 then m - 3 else m + 9) + d - 1 - 719468
  {
    hide TruncDiv;
    var y := if m <= 2 then y0 - 1 else y0;
    var mp := if m > 2 then m - 3 else m + 9;
    EraIsFloor(y, 400);
    var era := y / 400;
    var yoe := y - era * 400;
    TruncNonNegative(153 * mp + 2, 5);
    TruncNonNegative(yoe, 4);
    TruncNonNegative(yoe, 100);
    assert y / 4 == era * 100 + yoe / 4;
    assert y / 100 == era * 4 + yoe / 100;
  }

  /** The day after has the next number. */
  lemma NextIsOneMore(c: Date)
    requires Valid(c)
    ensures Valid(Next(c))
    ensures DaysFromCivil(Next(c).year, Next(c).month, Next(c).day) == DaysFromCivil(c.year, c.month, c.day) + 1
  {
    hide YearStart, MonthStart, MonthLength, Leap, DaysFromCivil;
    var n := Next(c);
    DaysAre(c.year, c.month, c.day);
    DaysAre(n.year, n.month, n.day);
    MonthSpan(c.year, c.month);
    MonthSpan(n.year, n.month);
    MonthNotEmpty(n.year, n.month);
    YearLength(c.year - 1);
    FirstMonth();
  }

  lemma MonthNotEmpty(y: int, m: int)
    ensures 28 <= MonthLength(y, m) <= 31
  {
  }

  lemma FirstMonth()
    ensures MonthStart(0) == 0
  {
  }

  // ----- recovering the year -----

  /** Century, four-year cycle and year of a day of an era. */
  lemma YearOfEraIs(doe: int, c: int, q: int, s: int)
    requires 0 <= c <= 3 && 0 <= q <= 24 && 0 <= s <= 1460 && (q == 24 ==> s <= 1459)
    requires doe == 36524 * c + 1461 * q + s
    ensures YearOfEra(doe) == 100 * c + 4 * q + if s == 1460 then 3 else s / 365
  {
    hide TruncDiv;
    TruncNonNegative(doe, 1460);
    TruncNonNegative(doe, 36524);
    TruncNonNegative(doe, 146096);
    assert doe / 36524 == c && doe / 146096 == 0;
    var k := (24 * c + q + s) / 1460;
    assert doe / 1460 == 25 * c + q + k;
    assert k == 0 || (k == 1 && s >= 1364);
    var rest := s - k;
    assert doe - doe / 1460 + doe / 36524 - doe / 146096 == 365 * (100 * c + 4 * q) + rest;
    TruncNonNegative(365 * (100 * c + 4 * q) + rest, 365);
    assert rest / 365 == if s == 1460 then 3 else s / 365;
  }

  /** The year of era begins on or before the day, and the next one after it. */
  lemma YearOfEraFits(doe: int)
    requires 0 <= doe < 146097
    ensures 0 <= YearOfEra(doe) <= 399
    ensures YearStart(YearOfEra(doe)) <= doe < YearStart(YearOfEra(doe) + 1)
  {
    hide YearStart, YearOfEra;
    if doe == 146096 {
      LastDayOfEra();
    } else {
      var c := doe / 36524;
      var r := doe % 36524;
      var q := r / 1461;
      var s := r % 1461;
      YearOfEraIs(doe, c, q, s);
      var t := if s == 1460 then 3 else s / 365;
      CycleStart(c, q, t);
      if t < 3 {
        CycleStart(c, q, t + 1);
      } else if q < 24 {
        CycleStart(c, q + 1, 0);
      } else {
        CycleStart(c, 24, 3);
        YearLength(100 * c + 99);
      }
    }
  }

  lemma LastDayOfEra()
    ensures YearOfEra(146096) == 399 && YearStart(399) <= 146096 < YearStart(400)
  {
  }

  lemma CycleStart(c: int, q: int, t: int)
    requires 0 <= c <= 3 && 0 <= q <= 24 && 0 <= t <= 3
    ensures YearStart(100 * c + 4 * q + t) == 36524 * c + 1461 * q + 365 * t
  {
  }

  /** Years do not overlap. */
  lemma YearIsUnique(a: int, b: int, day: int)
    requires YearStart(a) <= day < YearStart(a + 1) && YearStart(b) <= day < YearStart(b + 1)
    ensures a == b
  {
    if a < b {
      YearsGrow(a + 1, b);
    } else if b < a {
      YearsGrow(b + 1, a);
    }
  }

  lemma {:induction false} YearsGrow(a: int, b: int)
    requires a <= b
    ensures YearStart(a) <= YearStart(b)
    decreases b - a
  {
    if a < b {
      YearLength(b - 1);
      YearsGrow(a, b - 1);
    }
  }

  lemma EraShift(era: int, yoe: int)
    ensures YearStart(yoe + era * 400) == YearStart(yoe) + era * 146097
  {
    assert (yoe + era * 400) / 4 == yoe / 4 + era * 100;
    assert (yoe + era * 400) / 100 == yoe / 100 + era * 4;
    assert (yoe + era * 400) / 400 == yoe / 400 + era;
  }

  /** The date of a day, in March-based terms: the year it lies in, and month and day by the day of that
      year. */
  lemma CivilIs(z0: int, y: int, doy: int)
    requires YearStart(y) <= z0 + 719468 < YearStart(y + 1) && doy == z0 + 719468 - YearStart(y)
    ensures var mp := (5 * doy + 2) / 153;
      var m := if mp < 10 then mp + 3 else mp - 9;
      CivilFromDays(z0) == Date(if m <= 2 then y + 1 else y, m, doy - MonthStart(mp) + 1)
  {
    hide TruncDiv, YearStart, YearOfEra;
    var z := z0 + 719468;
    EraIsFloor(z, 146097);
    var era := z / 146097;
    var doe := z - era * 146097;
    YearOfEraFits(doe);
    var yoe := YearOfEra(doe);
    EraShift(era, yoe);
    EraShift(era, yoe + 1);
    YearIsUnique(y, yoe + era * 400, z);
    assert YearStart(yoe) == 365 * yoe + TruncDiv(yoe, 4) - TruncDiv(yoe, 100) by { SmallYear(yoe); }
    YearLength(y);
    TruncNonNegative(5 * doy + 2, 153);
    TruncNonNegative(153 * ((5 * doy + 2) / 153) + 2, 5);
  }

  lemma SmallYear(yoe: int)
    requires 0 <= yoe <= 399
    ensures YearStart(yoe) == 365 * yoe + TruncDiv(yoe, 4) - TruncDiv(yoe, 100)
  {
  }

  lemma {:induction false} SomeYear(z: int) returns (y: int)
    ensures YearStart(y) <= z < YearStart(y + 1)
  {
    var era := z / 146097;
    var doe := z - era * 146097;
    YearOfEraFits(doe);
    y := YearOfEra(doe) + era * 400;
    EraShift(era, YearOfEra(doe));
    EraShift(era, YearOfEra(doe) + 1);
  }

  /** Months of a March-based year: the formula inverts `MonthStart`. */
  lemma MonthFits(doy: int)
    requires 0 <= doy <= 365
    ensures var mp := (5 * doy + 2) / 153;
      0 <= mp <= 11 && MonthStart(mp) <= doy && (mp < 11 ==> doy < MonthStart(mp + 1))
  {
  }

  lemma MonthIs(mp: int, d: int)
    requires 0 <= mp <= 11 && 1 <= d <= (if mp == 11 then 29 else MonthStart(mp + 1) - MonthStart(mp))
    ensures (5 * (MonthStart(mp) + d - 1) + 2) / 153 == mp
  {
  }

  lemma MonthInYear(mp: int)
    requires 0 <= mp <= 11
    ensures 0 <= MonthStart(mp) && (mp < 11 ==> MonthStart(mp + 1) <= 337) && (mp == 11 ==> MonthStart(mp) == 337)
  {
  }

  // ----- the theorems -----

  /** Every day has a valid date, and the date leads back to the day. */
  lemma DayRoundTrip(z: int)
    ensures var c := CivilFromDays(z); Valid(c) && DaysFromCivil(c.year, c.month, c.day) == z
  {
    hide YearStart, MonthStart, MonthLength, Leap, DaysFromCivil, CivilFromDays;
    var y := SomeYear(z + 719468);
    var doy := z + 719468 - YearStart(y);
    CivilIs(z, y, doy);
    YearLength(y);
    MonthFits(doy);
    var c := CivilFromDays(z);
    DaysAre(c.year, c.month, c.day);
    MonthSpan(c.year, c.month);
  }

  /** Every valid date comes back from its day. */
  lemma DateRoundTrip(c: Date)
    requires Valid(c)
    ensures CivilFromDays(DaysFromCivil(c.year, c.month, c.day)) == c
  {
    hide YearStart, MonthStart, MonthLength, Leap, DaysFromCivil, CivilFromDays;
    var y := if c.month <= 2 then c.year - 1 else c.year;
    var mp := if c.month > 2 then c.month - 3 else c.month + 9;
    DaysAre(c.year, c.month, c.day);
    MonthSpan(c.year, c.month);
    MonthInYear(mp);
    MonthIs(mp, c.day);
    YearLength(y);
    CivilIs(DaysFromCivil(c.year, c.month, c.day), y, MonthStart(mp) + c.day - 1);
  }

  /** The date of the next day is the next date. */
  lemma DatesFollow(z: int)
    ensures CivilFromDays(z + 1) == Next(CivilFromDays(z))
  {
    hide DaysFromCivil, CivilFromDays;
    var c := CivilFromDays(z);
    DayRoundTrip(z);
    NextIsOneMore(c);
    DateRoundTrip(Next(c));
  }

  /** Day 0 is 1970-01-01, a Thursday. */
  lemma Epoch()
    ensures CivilFromDays(0) == Date(1970, 1, 1) && DaysFromCivil(1970, 1, 1) == 0
    ensures PartsFromMs(0).weekday == 4
  {
    hide DaysFromCivil, CivilFromDays;
    DaysAre(1970, 1, 1);
    DateRoundTrip(Date(1970, 1, 1));
  }

  /** The parts of any instant, before or after the epoch, give that instant back, and are in range. */
  lemma InstantRoundTrip(t: int)
    ensures ToMs(FieldsOf(PartsFromMs(t))) == t
    ensures var p := PartsFromMs(t);
      && Valid(Date(p.year, p.month, p.day)) && 0 <= p.hour < 24 && 0 <= p.minute < 60 && 0 <= p.second < 60
      && 0 <= p.ms < 1000
      && 0 <= p.weekday < 7
  {
    hide DaysFromCivil, CivilFromDays, Valid;
    DayRoundTrip(t / MS_PER_DAY);
    TimeOfDay(t % MS_PER_DAY);
  }

  lemma TimeOfDay(tod: int)
    requires 0 <= tod < MS_PER_DAY
    ensures tod / 3_600_000 * 3_600_000 + tod / 60_000 % 60 * 60_000 + tod / 1000 % 60 * 1000 + tod % 1000 == tod
    ensures 0 <= tod / 3_600_000 < 24
  {
    var minutes := tod / 60_000;
    var seconds := tod / 1000;
    assert seconds / 60 == minutes && minutes / 60 == tod / 3_600_000;
  }

  /** The part that a field gives; `absent` stands in for a field left out. */
  predicate Given(field: Option<int>, part: int, absent: int) {
    if field.Some? then part == field.value else part == absent
  }

  /** A date and a time of day, in full or in part, come back from their instant, with the fields left out as in
      1970-01-01 00:00:00.000. */
  lemma FieldsRoundTrip(f: Fields, p: Parts)
    requires Given(f.year, p.year, 1970) && Given(f.month, p.month, 1) && Given(f.day, p.day, 1)
    requires Given(f.hour, p.hour, 0) && Given(f.minute, p.minute, 0) && Given(f.second, p.second, 0)
    requires Given(f.ms, p.ms, 0) && Valid(Date(p.year, p.month, p.day))
    requires 0 <= p.hour < 24 && 0 <= p.minute < 60 && 0 <= p.second < 60 && 0 <= p.ms < 1000
    ensures FieldsOf(PartsFromMs(ToMs(f))) == FieldsOf(p)
  {
    hide DaysFromCivil, CivilFromDays, Valid;
    var days := DaysFromCivil(p.year, p.month, p.day);
    var tod := p.hour * 3_600_000 + p.minute * 60_000 + p.second * 1000 + p.ms;
    DateRoundTrip(Date(p.year, p.month, p.day));
    ClockIsRead(p.hour, p.minute, p.second, p.ms);
    DivideBy(ToMs(f), MS_PER_DAY, days, tod);
  }

  lemma ClockIsRead(hour: int, minute: int, second: int, ms: int)
    requires 0 <= hour < 24 && 0 <= minute < 60 && 0 <= second < 60 && 0 <= ms < 1000
    ensures var tod := hour * 3_600_000 + minute * 60_000 + second * 1000 + ms;
      && 0 <= tod < MS_PER_DAY && tod / 3_600_000 == hour && tod / 60_000 % 60 == minute
      && tod / 1000 % 60 == second && tod % 1000 == ms
  {
    var tod := hour * 3_600_000 + minute * 60_000 + second * 1000 + ms;
    DivideBy(tod, 1000, hour * 3600 + minute * 60 + second, ms);
    DivideBy(tod, 60_000, hour * 60 + minute, second * 1000 + ms);
    DivideBy(tod, 3_600_000, hour, minute * 60_000 + second * 1000 + ms);
    DivideBy(hour * 3600 + minute * 60 + second, 60, hour * 60 + minute, second);
    DivideBy(hour * 60 + minute, 60, hour, minute);
  }

  /** Weekdays run through the week, and `yearday` counts from 1 on January 1st, by one a day, to the length of the
      year. */
  lemma WeekAndYear(t: int)
    ensures PartsFromMs(t + MS_PER_DAY).weekday == (PartsFromMs(t).weekday + 1) % 7
    ensures var p := PartsFromMs(t); 1 <= p.yearday <= (if Leap(p.year) then 366 else 365)
    ensures var p := PartsFromMs(t); p.yearday == 1 <==> p.month == 1 && p.day == 1
    ensures var p, q := PartsFromMs(t), PartsFromMs(t + MS_PER_DAY);
      q.yearday == if q.year == p.year then p.yearday + 1 else 1
  {
    hide YearStart, CivilFromDays, DaysFromCivil;
    assert (t + MS_PER_DAY) / MS_PER_DAY == t / MS_PER_DAY + 1;
    var z := t / MS_PER_DAY;
    YeardayOf(z);
    YeardayOf(z + 1);
    DatesFollow(z);
  }

  /** The number of a day in its year. */
  lemma YeardayOf(z: int)
    ensures var c := CivilFromDays(z); var n := z - DaysFromCivil(c.year, 1, 1) + 1;
      1 <= n <= (if Leap(c.year) then 366 else 365) && (n == 1 <==> c.month == 1 && c.day == 1)
  {
    hide YearStart, CivilFromDays, DaysFromCivil;
    DayRoundTrip(z);
    var c := CivilFromDays(z);
    DaysAre(c.year, c.month, c.day);
    DaysAre(c.year, 1, 1);
    YearLength(c.year - 1);
  }
}
