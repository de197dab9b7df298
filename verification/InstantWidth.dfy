/** The calendar functions of src/vm/native_modules/datetime.rs in 64 bits: which instants and which dates
    they handle without leaving the range of an `i64` on the way. A checked build of the program panics on the
    first value outside it, an unchecked one goes on with the value wrapped around. */
module InstantWidth {
  import opened Integers
  import opened DateTime

  const TWO63: int := 0x8000_0000_0000_0000
  const TWO64: int := 0x1_0000_0000_0000_0000
  const MIN64: int := -TWO63
  const MAX64: int := TWO63 - 1

  predicate I64(x: int) {
    MIN64 <= x <= MAX64
  }

  // ----- the values on the way -----

  /** Every value `days_from_civil` computes is an `i64`. */
  predicate DaysFit(y0: int, m: int, d: int) {
    var y := if m <= 2 then y0 - 1 else y0;
    var start := if y >= 0 then y else y - 399;
    var era := TruncDiv(start, 400);
    var yoe := y - era * 400;
    var mp := if m > 2 then m - 3 else m + 9;
    var months := TruncDiv(153 * mp + 2, 5);
    var years := yoe * 365 + TruncDiv(yoe, 4);
    var doe := years - TruncDiv(yoe, 100) + (months + d - 1);
    && I64(y) && I64(start) && I64(era) && I64(era * 400) && I64(yoe)
    && I64(mp) && I64(153 * mp) && I64(153 * mp + 2) && I64(months) && I64(months + d) && I64(months + d - 1)
    && I64(yoe * 365) && I64(TruncDiv(yoe, 4)) && I64(years) && I64(TruncDiv(yoe, 100))
    && I64(years - TruncDiv(yoe, 100))
    && I64(doe) && I64(era * 146097) && I64(era * 146097 + doe) && I64(DaysFromCivil(y0, m, d))
  }

  /** Every value `civil_from_days` computes is an `i64`. */
  predicate CivilFit(z0: int) {
    var z := z0 + 719468;
    var start := if z >= 0 then z else z - 146096;
    var era := TruncDiv(start, 146097);
    var doe := z - era * 146097;
    var less := doe - TruncDiv(doe, 1460);
    var more := less + TruncDiv(doe, 36524);
    var last := more - TruncDiv(doe, 146096);
    var yoe := YearOfEra(doe);
    var y := yoe + era * 400;
    var days := 365 * yoe + TruncDiv(yoe, 4);
    var doy := doe - (days - TruncDiv(yoe, 100));
    var mp := TruncDiv(5 * doy + 2, 153);
    var months := TruncDiv(153 * mp + 2, 5);
    && I64(z) && I64(start) && I64(era) && I64(era * 146097) && I64(doe)
    && I64(TruncDiv(doe, 1460)) && I64(less) && I64(TruncDiv(doe, 36524)) && I64(more)
    && I64(TruncDiv(doe, 146096)) && I64(last) && I64(yoe) && I64(era * 400) && I64(y)
    && I64(365 * yoe) && I64(TruncDiv(yoe, 4)) && I64(days) && I64(TruncDiv(yoe, 100)) && I64(days - TruncDiv(yoe, 100))
    && I64(doy) && I64(5 * doy) && I64(5 * doy + 2) && I64(mp)
    && I64(153 * mp) && I64(153 * mp + 2) && I64(months) && I64(doy - months) && I64(doy - months + 1)
    && I64(mp + 3) && I64(mp - 9) && I64(y + 1)
  }

  /** Every value `parts_from_ms` computes is an `i64`. */
  predicate PartsFit(t: int) {
    var days := t / MS_PER_DAY;
    var p := PartsFromMs(t);
    && I64(days) && I64(t % MS_PER_DAY) && CivilFit(days)
    && I64(p.hour) && I64(t % MS_PER_DAY / 60_000) && I64(p.minute) && I64(t % MS_PER_DAY / 1000) && I64(p.second)
    && I64(p.ms)
    && I64(days + 4) && I64(p.weekday)
    && DaysFit(p.year, 1, 1) && I64(days - DaysFromCivil(p.year, 1, 1)) && I64(p.yearday)
  }

  function DayOf(f: Fields): int {
    DaysFromCivil(Or(f.year, 1970), Or(f.month, 1), Or(f.day, 1))
  }

  /** Every value `to_ms` computes is an `i64`. */
  predicate ToMsFits(f: Fields) {
    var h, m, s := Or(f.hour, 0) * 3_600_000, Or(f.minute, 0) * 60_000, Or(f.second, 0) * 1000;
    var day := DayOf(f) * MS_PER_DAY;
    && DaysFit(Or(f.year, 1970), Or(f.month, 1), Or(f.day, 1))
    && I64(day) && I64(h) && I64(day + h) && I64(m) && I64(day + h + m) && I64(s) && I64(day + h + m + s)
    && I64(ToMs(f))
  }

  /** A date of the calendar and a time of day, as `parts_from_ms` makes them. */
  predicate Sensible(f: Fields) {
    && DateTime.Valid(Date(Or(f.year, 1970), Or(f.month, 1), Or(f.day, 1)))
    && 0 <= Or(f.hour, 0) < 24 && 0 <= Or(f.minute, 0) < 60 && 0 <= Or(f.second, 0) < 60 && 0 <= Or(f.ms, 0) < 1000
  }

  function TimeOf(f: Fields): int {
    Or(f.hour, 0) * 3_600_000 + Or(f.minute, 0) * 60_000 + Or(f.second, 0) * 1000 + Or(f.ms, 0)
  }

  // ----- days near enough to the epoch -----

  /** The last day whose first millisecond is an `i64`; its negative is the first such day. */
  const LAST_DAY: int := 106_751_991_167

  lemma YearsAreBounded(y: int, day: int)
    requires YearStart(y) <= day < YearStart(y + 1)
    ensures (day >= 0 ==> 0 <= y <= day) && (day < 0 ==> 2 * day - 2 <= y < 0)
  {
    YearLength(y);
    if day < 0 && y >= 0 {
      YearsGrow(0, y);
    }
    if day >= 0 && y < 0 {
      YearsGrow(y + 1, 0);
    }
  }

  /** The day number of a date bounds its year. */
  lemma DayBoundsYear(c: Date)
    requires DateTime.Valid(c) && -2 * LAST_DAY <= DaysFromCivil(c.year, c.month, c.day) <= 2 * LAST_DAY
    ensures -0x1000_0000_0000 <= c.year <= 0x1000_0000_0000
  {
    hide YearStart, MonthStart, MonthLength, Leap, DaysFromCivil;
    var y := if c.month <= 2 then c.year - 1 else c.year;
    var mp := if c.month > 2 then c.month - 3 else c.month + 9;
    DaysAre(c.year, c.month, c.day);
    MonthSpan(c.year, c.month);
    MonthInYear(mp);
    YearLength(y);
    YearsAreBounded(y, YearStart(y) + MonthStart(mp) + c.day - 1);
  }

  lemma SmallYearFits(y0: int, m: int, d: int)
    requires -0x1000_0000_0000 <= y0 <= 0x1000_0000_0000 && 1 <= m <= 12 && 1 <= d <= 31
    ensures DaysFit(y0, m, d)
  {
    hide TruncDiv;
    var y := if m <= 2 then y0 - 1 else y0;
    var era := TruncDiv(if y >= 0 then y else y - 399, 400);
    var yoe := y - era * 400;
    var mp := if m > 2 then m - 3 else m + 9;
    assert 0 <= yoe < 400 by { EraIsFloor(y, 400); }
    assert 0 <= TruncDiv(153 * mp + 2, 5) <= 400 by { TruncNonNegative(153 * mp + 2, 5); }
    assert 0 <= TruncDiv(yoe, 4) <= 100 && 0 <= TruncDiv(yoe, 100) <= 4 by {
      TruncNonNegative(yoe, 4);
      TruncNonNegative(yoe, 100);
    }
  }

  lemma NearDayFits(z0: int)
    requires -2 * LAST_DAY <= z0 <= 2 * LAST_DAY
    ensures CivilFit(z0)
  {
    hide TruncDiv, YearStart, YearOfEra;
    var z := z0 + 719468;
    var era := TruncDiv(if z >= 0 then z else z - 146096, 146097);
    var doe := z - era * 146097;
    assert 0 <= doe < 146097 by { EraIsFloor(z, 146097); }
    YearSteps(doe);
    var yoe := YearOfEra(doe);
    var doy := doe - YearStart(yoe);
    assert 0 <= yoe < 400 && 0 <= doy < 366 by {
      YearOfEraFits(doe);
      YearLength(yoe);
    }
    assert 0 <= TruncDiv(yoe, 4) <= 100 && 0 <= TruncDiv(yoe, 100) <= 4 by {
      TruncNonNegative(yoe, 4);
      TruncNonNegative(yoe, 100);
    }
    SmallYear(yoe);
    MonthSteps(doy);
  }

  lemma YearSteps(doe: int)
    requires 0 <= doe < 146097
    ensures 0 <= TruncDiv(doe, 1460) <= doe && 0 <= TruncDiv(doe, 36524) <= doe && 0 <= TruncDiv(doe, 146096) <= doe
  {
  }

  lemma MonthSteps(doy: int)
    requires 0 <= doy < 366
    ensures var mp := TruncDiv(5 * doy + 2, 153); 0 <= mp <= 12 && 0 <= TruncDiv(153 * mp + 2, 5) <= 400
  {
  }

  // ----- the theorems -----

  /** The parts of every 64-bit instant are computed within 64 bits. */
  lemma PartsAlwaysFit(t: int)
    requires I64(t)
    ensures PartsFit(t)
  {
    hide DaysFromCivil, CivilFromDays, DaysFit, CivilFit;
    var days := t / MS_PER_DAY;
    assert -LAST_DAY - 1 <= days <= LAST_DAY;
    var p := PartsFromMs(t);
    NearDayFits(days);
    DayRoundTrip(days);
    DayBoundsYear(CivilFromDays(days));
    SmallYearFits(p.year, 1, 1);
    WeekAndYear(t);
  }

  /** Back from parts to an instant: for a date and time of the calendar `to_ms` stays within 64 bits exactly
      when the instant meant is not above the range and not in its first, incomplete day. */
  lemma ToMsFitsExactly(f: Fields)
    requires Sensible(f)
    ensures ToMsFits(f) <==> -LAST_DAY * MS_PER_DAY <= ToMs(f) <= MAX64
  {
    hide DaysFromCivil, DaysFit, DateTime.Valid;
    var c := Date(Or(f.year, 1970), Or(f.month, 1), Or(f.day, 1));
    assert ToMs(f) == DayOf(f) * MS_PER_DAY + TimeOf(f) && 0 <= TimeOf(f) < MS_PER_DAY;
    if -LAST_DAY * MS_PER_DAY <= ToMs(f) <= MAX64 {
      assert -LAST_DAY <= DayOf(f) <= LAST_DAY;
      DayBoundsYear(c);
      MonthBounds(c);
      SmallYearFits(c.year, c.month, c.day);
    }
  }

  lemma MonthBounds(c: Date)
    requires DateTime.Valid(c)
    ensures 1 <= c.month <= 12 && 1 <= c.day <= 31
  {
  }

  /** Parts and back, in 64 bits: nothing overflows exactly from the first whole day of the range on. */
  lemma RoundTripFitsExactly(t: int)
    requires I64(t)
    ensures PartsFit(t) && ToMs(FieldsOf(PartsFromMs(t))) == t
    ensures ToMsFits(FieldsOf(PartsFromMs(t))) <==> t >= -9_223_372_036_828_800_000
  {
    hide ToMsFits, PartsFit, PartsFromMs, ToMs;
    PartsAlwaysFit(t);
    InstantRoundTrip(t);
    ToMsFitsExactly(FieldsOf(PartsFromMs(t)));
  }

  /** The earliest instant: its day times the length of a day is below the range. */
  lemma EarliestInstantOverflows()
    ensures
      var f := FieldsOf(PartsFromMs(MIN64));
      DayOf(f) == -106_751_991_168 && DayOf(f) * MS_PER_DAY < MIN64 && !ToMsFits(f)
  {
    hide DaysFromCivil, CivilFromDays;
    DayRoundTrip(MIN64 / MS_PER_DAY);
  }

  // ----- dates in order -----

  /** Earlier in the calendar. */
  predicate Before(a: Date, b: Date) {
    a.year < b.year || (a.year == b.year && (a.month < b.month || (a.month == b.month && a.day < b.day)))
  }

  /** Where a date lies in its March-based year. */
  lemma InMarchYear(c: Date) returns (y: int, offset: int)
    requires DateTime.Valid(c)
    ensures y == if c.month <= 2 then c.year - 1 else c.year
    ensures offset == MonthStart(if c.month > 2 then c.month - 3 else c.month + 9) + c.day - 1
    ensures DaysFromCivil(c.year, c.month, c.day) == YearStart(y) + offset - 719468
    ensures 0 <= offset && YearStart(y) + offset < YearStart(y + 1)
    ensures c.month > 2 <==> offset < 306
  {
    hide YearStart, Leap, DaysFromCivil;
    y := if c.month <= 2 then c.year - 1 else c.year;
    var mp := if c.month > 2 then c.month - 3 else c.month + 9;
    offset := MonthStart(mp) + c.day - 1;
    DaysAre(c.year, c.month, c.day);
    MonthSpan(c.year, c.month);
    MonthInYear(mp);
    YearLength(y);
  }

  /** Day numbers are in the order of the dates. */
  lemma DaysInOrder(a: Date, b: Date)
    requires DateTime.Valid(a) && DateTime.Valid(b)
    ensures Before(a, b) <==> DaysFromCivil(a.year, a.month, a.day) < DaysFromCivil(b.year, b.month, b.day)
  {
    hide DaysFromCivil;
    if Before(a, b) {
      EarlierIsLess(a, b);
    } else if Before(b, a) {
      EarlierIsLess(b, a);
    } else {
      assert a == b;
    }
  }

  lemma EarlierIsLess(a: Date, b: Date)
    requires DateTime.Valid(a) && DateTime.Valid(b) && Before(a, b)
    ensures DaysFromCivil(a.year, a.month, a.day) < DaysFromCivil(b.year, b.month, b.day)
  {
    hide DaysFromCivil, YearStart, Leap;
    var ya, oa := InMarchYear(a);
    var yb, ob := InMarchYear(b);
    if ya < yb {
      YearsGrow(ya + 1, yb);
    } else {
      assert ya == yb;
      MonthSpan(a.year, a.month);
    }
  }

  /** The days at the two ends of the range. */
  lemma EndDates()
    ensures DateTime.Valid(Date(-292_275_055, 5, 17)) && DaysFromCivil(-292_275_055, 5, 17) == -LAST_DAY
    ensures DateTime.Valid(Date(292_278_994, 8, 17)) && DaysFromCivil(292_278_994, 8, 17) == LAST_DAY
  {
    hide DaysFromCivil;
    DaysAre(-292_275_055, 5, 17);
    DaysAre(292_278_994, 8, 17);
  }

  /** In terms of the calendar: `to_ms` takes every date and time from -292275055-05-17 to the time
      07:12:55.807 on 292278994-08-17, and overflows on every other one. */
  lemma DatesThatFit(f: Fields)
    requires Sensible(f)
    ensures
      var c := Date(Or(f.year, 1970), Or(f.month, 1), Or(f.day, 1));
      var last := Date(292_278_994, 8, 17);
      ToMsFits(f) <==>
        !Before(c, Date(-292_275_055, 5, 17)) && (Before(c, last) || (c == last && TimeOf(f) <= 25_975_807))
  {
    hide DaysFromCivil, ToMsFits, DateTime.Valid;
    var c := Date(Or(f.year, 1970), Or(f.month, 1), Or(f.day, 1));
    var first, last := Date(-292_275_055, 5, 17), Date(292_278_994, 8, 17);
    ToMsFitsExactly(f);
    EndDates();
    DaysInOrder(c, first);
    DaysInOrder(c, last);
    DaysInOrder(last, c);
    assert ToMs(f) == DayOf(f) * MS_PER_DAY + TimeOf(f) && 0 <= TimeOf(f) < MS_PER_DAY;
  }

  // ----- when an overflow matters -----

  /** The `i64` with the same low 64 bits. */
  function Wrap(x: int): int {
    (x + TWO63) % TWO64 - TWO63
  }

  lemma WrapTwice(a: int, b: int)
    ensures Wrap(Wrap(a) + b) == Wrap(a + b) && Wrap(a + Wrap(b)) == Wrap(a + b)
  {
    WrapMoves(a);
    WrapMoves(b);
    var i, j := (a + TWO63) / TWO64, (b + TWO63) / TWO64;
    WrapShift(a + b, -i);
    WrapShift(a + b, -j);
  }

  lemma WrapMoves(a: int)
    ensures Wrap(a) == a - (a + TWO63) / TWO64 * TWO64
  {
  }

  lemma WrapShift(a: int, k: int)
    ensures Wrap(a + k * TWO64) == Wrap(a)
  {
    var x := a + TWO63;
    var y := x + k * TWO64;
    var q, r := x / TWO64, x % TWO64;
    var p, s := y / TWO64, y % TWO64;
    assert x == q * TWO64 + r && 0 <= r < TWO64;
    assert y == p * TWO64 + s && 0 <= s < TWO64;
    assert (q + k - p) * TWO64 == s - r;
  }

  /** `to_ms` where every product and sum wraps around. */
  function WrappedToMs(f: Fields): int {
    var day := Wrap(DayOf(f) * MS_PER_DAY);
    var h := Wrap(day + Wrap(Or(f.hour, 0) * 3_600_000));
    var m := Wrap(h + Wrap(Or(f.minute, 0) * 60_000));
    var s := Wrap(m + Wrap(Or(f.second, 0) * 1000));
    Wrap(s + Or(f.ms, 0))
  }

  /** As long as the day is computed without overflow, the wrapped sum is right exactly when the instant meant
      is a 64-bit one; overflows on the way cancel. */
  lemma WrappingIsHarmless(f: Fields)
    ensures WrappedToMs(f) == Wrap(ToMs(f))
    ensures WrappedToMs(f) == ToMs(f) <==> I64(ToMs(f))
  {
    hide Wrap, DaysFromCivil;
    var day, h, m, s := DayOf(f) * MS_PER_DAY, Or(f.hour, 0) * 3_600_000, Or(f.minute, 0) * 60_000,
      Or(f.second, 0) * 1000;
    WrapTwice(day, Wrap(h));
    WrapTwice(day, h);
    WrapTwice(day + h, Wrap(m));
    WrapTwice(day + h, m);
    WrapTwice(day + h + m, Wrap(s));
    WrapTwice(day + h + m, s);
    WrapTwice(day + h + m + s, Or(f.ms, 0));
    WrapKeeps(ToMs(f));
  }

  lemma WrapKeeps(x: int)
    ensures Wrap(x) == x <==> I64(x)
  {
  }

  /** Every 64-bit instant comes back from its parts where arithmetic wraps around, the first day included. */
  lemma RoundTripWraps(t: int)
    requires I64(t)
    ensures
      var p := PartsFromMs(t);
      DaysFit(p.year, p.month, p.day) && WrappedToMs(FieldsOf(p)) == t
  {
    hide DaysFromCivil, CivilFromDays, DaysFit, Wrap;
    var days := t / MS_PER_DAY;
    var c := CivilFromDays(days);
    DayRoundTrip(days);
    DayBoundsYear(c);
    MonthBounds(c);
    SmallYearFits(c.year, c.month, c.day);
    InstantRoundTrip(t);
    WrappingIsHarmless(FieldsOf(PartsFromMs(t)));
  }
}
