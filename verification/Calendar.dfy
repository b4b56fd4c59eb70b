/** The proleptic Gregorian calendar and the timestamps printed with it (src/foundation.cpp).
    The leap-year rule is that of Appendix C of RFC 3339. */
module Calendar {
  import opened Foundation
  import opened Capability
  import opened Decimal

  datatype Date = Date(year: int, month: int, day: int)

  predicate Leap(year: int) {
    year % 4 == 0 && (year % 100 != 0 || year % 400 == 0)
  }

  function DaysIn(year: int, month: int): int {
    if month == 2 then (if Leap(year) then 29 else 28)
    else if month == 4 || month == 6 || month == 9 || month == 11 then 30
    else 31
  }

  predicate IsDate(d: Date) {
    1 <= d.month <= 12 && 1 <= d.day <= DaysIn(d.year, d.month)
  }

  function Tomorrow(d: Date): Date {
    if d.day < DaysIn(d.year, d.month) then d.(day := d.day + 1)
    else if d.month < 12 then Date(d.year, d.month + 1, 1)
    else Date(d.year + 1, 1, 1)
  }

  // ---------------------------------------------------------------------------------
  // The conversion as written
  // ---------------------------------------------------------------------------------

  const ERA := 146097
  const SHIFT := 719468

  /** C++ division truncates toward zero. */
  function TruncatedDiv(a: int, b: int): int
    requires b > 0
  {
    if a >= 0 then a / b else -((-a) / b)
  }

  function TruncatedMod(a: int, b: int): int
    requires b > 0
  {
    a - b * TruncatedDiv(a, b)
  }

  function EraOf(shifted: int): int {
    TruncatedDiv(if shifted >= 0 then shifted else shifted - 146096, ERA)
  }

  function YearOfEra(doe: nat): nat
    requires doe < ERA
  {
    (doe - doe / 1460 + doe / 36524 - doe / 146096) / 365
  }

  /** The date of one day of a year that starts in March. */
  function DateOf(era: int, yoe: int, doy: nat): Date {
    var mp := (5 * doy + 2) / 153;
    var month := mp + if mp < 10 then 3 else -9;
    Date(yoe + era * 400 + (if month <= 2 then 1 else 0), month, doy - (153 * mp + 2) / 5 + 1)
  }

  lemma EraIsFloor(shifted: int)
    ensures EraOf(shifted) == shifted / ERA && shifted - EraOf(shifted) * ERA == shifted % ERA
  {
  }

  /** The date `z` days after 1970-01-01. */
  function CivilFromDays(z: int): Date {
    var shifted := z + SHIFT;
    EraIsFloor(shifted);
    var doe := shifted - EraOf(shifted) * ERA;
    var yoe := YearOfEra(doe);
    YearBounds(doe);
    DateOf(EraOf(shifted), yoe, doe - (365 * yoe + yoe / 4 - yoe / 100))
  }

  // ---------------------------------------------------------------------------------
  // Years of a 400-year era
  // ---------------------------------------------------------------------------------

  /** Days before the n-th year of an era. */
  function YearStart(n: nat): nat {
    365 * n + n / 4 - n / 100 + n / 400
  }

  lemma YearLength(n: nat)
    ensures YearStart(n + 1) == YearStart(n) + if Leap(n + 1) then 366 else 365
  {
    assert (n + 1) / 4 == n / 4 + if (n + 1) % 4 == 0 then 1 else 0;
    assert (n + 1) / 100 == n / 100 + if (n + 1) % 100 == 0 then 1 else 0;
    assert (n + 1) / 400 == n / 400 + if (n + 1) % 400 == 0 then 1 else 0;
  }

  /** Century, four-year cycle, year and day of an era's day. */
  lemma Decompose(doe: nat) returns (c: nat, q: nat, y: nat, d: nat)
    requires doe < ERA
    ensures c < 4 && q < 25 && y < 4 && d < 366 && (d == 365 ==> y == 3 && (q < 24 || c == 3))
    ensures doe == 36524 * c + 1461 * q + 365 * y + d
  {
    c := if doe / 36524 == 4 then 3 else doe / 36524;
    var r := doe - 36524 * c;
    q := r / 1461;
    var s := r - 1461 * q;
    y := if s / 365 == 4 then 3 else s / 365;
    d := s - 365 * y;
  }

  lemma YearFormula(c: nat, q: nat, y: nat, d: nat, doe: nat)
    requires c < 4 && q < 25 && y < 4 && d < 366 && (d == 365 ==> y == 3 && (q < 24 || c == 3))
    requires doe == 36524 * c + 1461 * q + 365 * y + d
    ensures doe < ERA && YearOfEra(doe) == 100 * c + 4 * q + y
  {
    var e := if 24 * c + q + 365 * y + d >= 1460 then 1 else 0;
    assert doe / 1460 == 25 * c + q + e by {
      assert doe == 1460 * (25 * c + q) + (24 * c + q + 365 * y + d);
    }
    var f := if doe == 146096 then 1 else 0;
    assert doe / 36524 == c + f && doe / 146096 == f;
    assert doe - doe / 1460 + doe / 36524 - doe / 146096 == 365 * (100 * c + 4 * q + y) + (d - e);
  }

  lemma YearStartFormula(c: nat, q: nat, y: nat)
    requires c < 4 && q < 25 && y < 4
    ensures YearStart(100 * c + 4 * q + y) == 36524 * c + 1461 * q + 365 * y
  {
    var n := 100 * c + 4 * q + y;
    assert n / 4 == 25 * c + q && n / 100 == c && n / 400 == 0;
  }

  /** The year formula finds the year the day lies in. */
  lemma YearBounds(doe: nat)
    requires doe < ERA
    ensures var yoe := YearOfEra(doe);
            && yoe < 400 && YearStart(yoe) <= doe < YearStart(yoe + 1)
            && 365 * yoe + yoe / 4 - yoe / 100 == YearStart(yoe)
  {
    var c, q, y, d := Decompose(doe);
    YearFormula(c, q, y, d, doe);
    YearStartFormula(c, q, y);
    YearLength(100 * c + 4 * q + y);
    if d == 365 {
      LeapAtCycleEnd(c, q);
    }
  }

  lemma LeapAtCycleEnd(c: nat, q: nat)
    requires c < 4 && q < 25 && (q < 24 || c == 3)
    ensures Leap(100 * c + 4 * q + 3 + 1)
  {
    var n := 100 * c + 4 * q + 4;
    if q < 24 {
      assert n % 100 == 4 * q + 4;
    }
  }

  lemma {:induction false} YearStartsIncrease(m: nat, n: nat)
    requires m <= n
    ensures YearStart(m) <= YearStart(n)
  {
    hide YearStart, Leap;
    if m < n {
      YearStartsIncrease(m, n - 1);
      YearLength(n - 1);
    }
  }

  /** The year of a day is unique. */
  lemma YearIsUnique(doe: nat, yoe: nat)
    requires doe < ERA && YearStart(yoe) <= doe < YearStart(yoe + 1)
    ensures YearOfEra(doe) == yoe
  {
    hide YearStart, YearOfEra;
    YearBounds(doe);
    if YearOfEra(doe) < yoe {
      YearStartsIncrease(YearOfEra(doe) + 1, yoe);
    } else if yoe < YearOfEra(doe) {
      YearStartsIncrease(yoe + 1, YearOfEra(doe));
    }
  }

  // ---------------------------------------------------------------------------------
  // Days and months
  // ---------------------------------------------------------------------------------

  predicate LeapInEra(era: int, yoe: int) {
    Leap(yoe + 1 + era * 400)
  }

  lemma Period400(n: int, k: int)
    ensures (n + 400 * k) % 400 == n % 400
  {
  }

  lemma Period100(n: int, k: int)
    ensures (n + 100 * k) % 100 == n % 100
  {
  }

  lemma Period4(n: int, k: int)
    ensures (n + 4 * k) % 4 == n % 4
  {
  }

  lemma LeapsRepeat(era: int, n: int)
    ensures Leap(n + era * 400) <==> Leap(n)
  {
    Period400(n, era);
    Period100(n, 4 * era);
    Period4(n, 100 * era);
  }

  /** Month lengths and the month formula agree. */
  lemma MonthFormula(doy: nat)
    requires doy < 366
    ensures var mp := (5 * doy + 2) / 153;
            && mp <= 11 && (153 * mp + 2) / 5 <= doy && (mp < 11 ==> doy < (153 * (mp + 1) + 2) / 5)
  {
  }

  lemma DatesAreValid(era: int, yoe: int, doy: nat)
    requires doy < if LeapInEra(era, yoe) then 366 else 365
    ensures IsDate(DateOf(era, yoe, doy))
  {
    hide Leap;
    MonthFormula(doy);
  }

  /** The first day of a month of the March-based year. */
  function MonthStart(mp: nat): nat {
    (153 * mp + 2) / 5
  }

  function MonthNumber(mp: nat): int {
    mp + if mp < 10 then 3 else -9
  }

  lemma MonthLengths(mp: nat, year: int)
    requires mp < 11
    ensures MonthStart(mp + 1) - MonthStart(mp) == DaysIn(year, MonthNumber(mp))
    ensures MonthNumber(mp) != 2
  {
  }

  lemma MonthIsUnique(doy: nat, mp: nat)
    requires mp <= 11 && MonthStart(mp) <= doy < 366 && (mp < 11 ==> doy < MonthStart(mp + 1))
    ensures (5 * doy + 2) / 153 == mp
  {
  }

  lemma NextDayOfYear(era: int, yoe: int, doy: nat)
    requires doy + 1 < if LeapInEra(era, yoe) then 366 else 365
    ensures DateOf(era, yoe, doy + 1) == Tomorrow(DateOf(era, yoe, doy))
  {
    var mp := (5 * doy + 2) / 153;
    MonthFormula(doy);
    if mp == 11 {
      hide Leap;
      MonthIsUnique(doy + 1, 11);
    } else {
      hide Leap, DaysIn;
      var d := DateOf(era, yoe, doy);
      MonthLengths(mp, d.year);
      if doy + 1 < MonthStart(mp + 1) {
        MonthIsUnique(doy + 1, mp);
      } else {
        if mp < 10 { MonthLengths(mp + 1, d.year); }
        MonthIsUnique(doy + 1, mp + 1);
      }
    }
  }

  lemma FirstDayOfNextYear(era: int, yoe: int, doy: nat)
    requires doy + 1 == if LeapInEra(era, yoe) then 366 else 365
    ensures DateOf(era, yoe + 1, 0) == Tomorrow(DateOf(era, yoe, doy))
  {
    hide Leap;
  }

  lemma FirstDayOfNextEra(era: int)
    ensures DateOf(era + 1, 0, 0) == DateOf(era, 400, 0)
  {
  }

  // ---------------------------------------------------------------------------------
  // The calendar
  // ---------------------------------------------------------------------------------

  lemma DayOfYear(era: int, doe: nat)
    requires doe < ERA
    ensures var yoe := YearOfEra(doe);
            && yoe < 400 && YearStart(yoe) <= doe
            && doe - YearStart(yoe) < (if LeapInEra(era, yoe) then 366 else 365)
            && YearStart(yoe + 1) == YearStart(yoe) + if LeapInEra(era, yoe) then 366 else 365
  {
    hide YearStart, YearOfEra, Leap;
    YearBounds(doe);
    YearLength(YearOfEra(doe));
    LeapsRepeat(era, YearOfEra(doe) + 1);
  }

  lemma CivilInParts(z: int)
    ensures var shifted := z + SHIFT;
            var doe := shifted % ERA;
            && YearStart(YearOfEra(doe)) <= doe
            && CivilFromDays(z) == DateOf(shifted / ERA, YearOfEra(doe), doe - YearStart(YearOfEra(doe)))
  {
    hide YearOfEra, DateOf;
    EraIsFloor(z + SHIFT);
    YearBounds((z + SHIFT) % ERA);
  }

  /** Day 0 is 1970-01-01. */
  lemma EpochIsDayZero()
    ensures CivilFromDays(0) == Date(1970, 1, 1)
  {
  }

  /** Every day has a valid date. */
  lemma CivilDatesAreValid(z: int)
    ensures IsDate(CivilFromDays(z))
  {
    hide YearOfEra, DateOf, CivilFromDays, YearStart, LeapInEra;
    CivilInParts(z);
    var era, doe := (z + SHIFT) / ERA, (z + SHIFT) % ERA;
    DayOfYear(era, doe);
    DatesAreValid(era, YearOfEra(doe), doe - YearStart(YearOfEra(doe)));
  }

  /** The next day's date is the calendar successor of the day's date. */
  lemma CivilSucceeds(z: int)
    ensures CivilFromDays(z + 1) == Tomorrow(CivilFromDays(z))
  {
    hide YearOfEra, DateOf, CivilFromDays, YearStart, LeapInEra;
    var shifted := z + SHIFT;
    var era, doe := shifted / ERA, shifted % ERA;
    var yoe := YearOfEra(doe);
    CivilInParts(z);
    CivilInParts(z + 1);
    DayOfYear(era, doe);
    var doy := doe - YearStart(yoe);
    if doe + 1 < ERA {
      assert (shifted + 1) / ERA == era && (shifted + 1) % ERA == doe + 1;
      if doe + 1 < YearStart(yoe + 1) {
        YearIsUnique(doe + 1, yoe);
        NextDayOfYear(era, yoe, doy);
      } else {
        YearBounds(doe + 1);
        NextYearContains(doe + 1, yoe + 1);
        YearIsUnique(doe + 1, yoe + 1);
        FirstDayOfNextYear(era, yoe, doy);
      }
    } else {
      assert (shifted + 1) / ERA == era + 1 && (shifted + 1) % ERA == 0;
      LastDayOfEra();
      FirstDayOfNextYear(era, yoe, doy);
      FirstDayOfNextEra(era);
    }
  }

  lemma NextYearContains(doe: nat, yoe: nat)
    requires doe == YearStart(yoe)
    ensures doe < YearStart(yoe + 1)
  {
    hide YearStart, Leap;
    YearLength(yoe);
  }

  lemma LastDayOfEra()
    ensures YearOfEra(146096) == 399 && YearStart(400) == ERA && YearOfEra(0) == 0 && YearStart(0) == 0
  {
  }

  // ---------------------------------------------------------------------------------
  // Back from dates to days
  // ---------------------------------------------------------------------------------

  /** The inverse conversion. */
  function DaysFromCivil(d: Date): int {
    var y := if d.month <= 2 then d.year - 1 else d.year;
    var yoe := y % 400;
    var mp := if d.month > 2 then d.month - 3 else d.month + 9;
    (y / 400) * ERA + YearStart(yoe) + (153 * mp + 2) / 5 + d.day - 1 - SHIFT
  }

  lemma DateDeterminesDay(era: int, yoe: nat, doy: nat)
    requires yoe < 400 && doy < 366
    ensures DaysFromCivil(DateOf(era, yoe, doy)) == era * ERA + YearStart(yoe) + doy - SHIFT
  {
    hide YearStart;
    MonthFormula(doy);
    assert (yoe + era * 400) / 400 == era && (yoe + era * 400) % 400 == yoe;
  }

  /** A date belongs to one day only. */
  lemma CivilIsInvertible(z: int)
    ensures DaysFromCivil(CivilFromDays(z)) == z
  {
    hide YearOfEra, DateOf, CivilFromDays, YearStart, LeapInEra, DaysFromCivil;
    CivilInParts(z);
    var era, doe := (z + SHIFT) / ERA, (z + SHIFT) % ERA;
    DayOfYear(era, doe);
    DateDeterminesDay(era, YearOfEra(doe), doe - YearStart(YearOfEra(doe)));
  }

  // ---------------------------------------------------------------------------------
  // Timestamps
  // ---------------------------------------------------------------------------------

  const NANOS_PER_SECOND := 1000000000
  const SECONDS_PER_DAY := 86400

  /** u n s e t */
  const UNSET: Text := [117, 110, 115, 101, 116]

  /** YYYY-MM-DDT */
  function RenderDate(d: Date): Text
    requires d.year >= 0 && d.month >= 0 && d.day >= 0
  {
    Pad(d.year, 4) + [45] + Pad(d.month, 2) + [45] + Pad(d.day, 2) + [84]
  }

  /** hh:mm:ss.mmmZ */
  function RenderClock(hours: nat, minutes: nat, seconds: nat, millis: nat): Text {
    Pad(hours, 2) + [58] + Pad(minutes, 2) + [58] + Pad(seconds, 2) + [46] + Pad(millis, 3) + [90]
  }

  function Render(d: Date, hours: nat, minutes: nat, seconds: nat, millis: nat): Text
    requires d.year >= 0 && d.month >= 0 && d.day >= 0
  {
    RenderDate(d) + RenderClock(hours, minutes, seconds, millis)
  }

  /** The text of a nonzero instant, defined by floors. */
  function TimestampText(nanos: I64): Text {
    var millis := nanos / 1000000;
    var seconds := millis / 1000;
    var day := seconds / SECONDS_PER_DAY;
    var rest := seconds % SECONDS_PER_DAY;
    YearsInRange(nanos);
    CivilDatesAreValid(day);
    Render(CivilFromDays(day), rest / 3600, rest % 3600 / 60, rest % 60, millis % 1000)
  }

  lemma YearsInRange(nanos: I64)
    ensures 1600 <= CivilFromDays(nanos / 1000000 / 1000 / SECONDS_PER_DAY).year <= 2400
  {
    hide YearOfEra, CivilFromDays, YearStart, LeapInEra;
    var z := nanos / 1000000 / 1000 / SECONDS_PER_DAY;
    assert -106752 <= z <= 106751;
    CivilInParts(z);
    YearBounds((z + SHIFT) % ERA);
  }

  /** Truncated quotient and remainder, corrected, are the floors. */
  lemma NanosecondFloors(a: int)
    ensures var q, r := TruncatedDiv(a, NANOS_PER_SECOND), TruncatedMod(a, NANOS_PER_SECOND);
            && (if r < 0 then q - 1 else q) == a / NANOS_PER_SECOND
            && (if r < 0 then r + NANOS_PER_SECOND else r) == a % NANOS_PER_SECOND
  {
  }

  lemma DayFloors(a: int)
    ensures var q, r := TruncatedDiv(a, SECONDS_PER_DAY), TruncatedMod(a, SECONDS_PER_DAY);
            && (if r < 0 then q - 1 else q) == a / SECONDS_PER_DAY
            && (if r < 0 then r + SECONDS_PER_DAY else r) == a % SECONDS_PER_DAY
  {
  }

  lemma FloorsCompose(nanos: int)
    ensures nanos / NANOS_PER_SECOND == nanos / 1000000 / 1000
    ensures nanos % NANOS_PER_SECOND / 1000000 == nanos / 1000000 % 1000
  {
  }

  /** What is printed: instant 0 stands for an unset time. */
  function Printed(nanos: I64): Text {
    if nanos == 0 then UNSET else TimestampText(nanos)
  }

  method FormatTimestamp(nanos: I64) returns (text: Text)
    ensures text == Printed(nanos)
  {
    hide CivilFromDays, Pad, TruncatedDiv, TruncatedMod;
    if nanos == 0 {
      return UNSET;
    }
    var seconds := TruncatedDiv(nanos, NANOS_PER_SECOND);
    var fraction := TruncatedMod(nanos, NANOS_PER_SECOND);
    NanosecondFloors(nanos);
    if fraction < 0 {
      fraction := fraction + NANOS_PER_SECOND;
      seconds := seconds - 1;
    }
    FloorsCompose(nanos);
    var days := TruncatedDiv(seconds, SECONDS_PER_DAY);
    var rem := TruncatedMod(seconds, SECONDS_PER_DAY);
    DayFloors(seconds);
    if rem < 0 {
      rem := rem + SECONDS_PER_DAY;
      days := days - 1;
    }
    YearsInRange(nanos);
    CivilDatesAreValid(days);
    var date := CivilFromDays(days);
    text := Pad(date.year, 4);
    text := text + [45];
    text := text + Pad(date.month, 2);
    text := text + [45];
    text := text + Pad(date.day, 2);
    text := text + [84];
    assert text == RenderDate(date);
    ghost var clock := RenderClock(rem / 3600, rem % 3600 / 60, rem % 60, fraction / 1000000);
    text := text + Pad(rem / 3600, 2);
    text := text + [58];
    text := text + Pad(rem % 3600 / 60, 2);
    text := text + [58];
    text := text + Pad(rem % 60, 2);
    text := text + [46];
    text := text + Pad(fraction / 1000000, 3);
    text := text + [90];
    assert text == RenderDate(date) + clock;
  }

  /** The instant a timestamp text denotes, in milliseconds. */
  function Denoted(text: Text): int
    requires |text| == 24
  {
    var day := DaysFromCivil(Date(Value(text[0..4]), Value(text[5..7]), Value(text[8..10])));
    ((day * 24 + Value(text[11..13])) * 60 + Value(text[14..16])) * 60000
    + Value(text[17..19]) * 1000 + Value(text[20..23])
  }

  lemma PaddedField(n: nat, width: nat)
    requires (width == 2 && n < 100) || (width == 3 && n < 1000) || (width == 4 && n < 10000)
    ensures |Pad(n, width)| == width && Value(Pad(n, width)) == n
  {
    assert Power(10, 2) == 100 && Power(10, 3) == 1000 && Power(10, 4) == 10000;
    PadWidth(n, width);
    PadDenotes(n, width);
  }

  lemma DateFields(d: Date)
    requires 0 <= d.year < 10000 && IsDate(d)
    ensures var t := RenderDate(d);
            && |t| == 11
            && Value(t[0..4]) == d.year && Value(t[5..7]) == d.month && Value(t[8..10]) == d.day
  {
    hide Pad, Value, Leap;
    PaddedField(d.year, 4);
    PaddedField(d.month, 2);
    PaddedField(d.day, 2);
    var t := RenderDate(d);
    assert t[0..4] == Pad(d.year, 4) && t[5..7] == Pad(d.month, 2) && t[8..10] == Pad(d.day, 2);
  }

  lemma ClockFields(hours: nat, minutes: nat, seconds: nat, millis: nat)
    requires hours < 100 && minutes < 100 && seconds < 100 && millis < 1000
    ensures var t := RenderClock(hours, minutes, seconds, millis);
            && |t| == 13
            && Value(t[0..2]) == hours && Value(t[3..5]) == minutes && Value(t[6..8]) == seconds
            && Value(t[9..12]) == millis
  {
    hide Pad, Value;
    PaddedField(hours, 2);
    PaddedField(minutes, 2);
    PaddedField(seconds, 2);
    PaddedField(millis, 3);
    var t := RenderClock(hours, minutes, seconds, millis);
    assert t[0..2] == Pad(hours, 2) && t[3..5] == Pad(minutes, 2);
    assert t[6..8] == Pad(seconds, 2) && t[9..12] == Pad(millis, 3);
  }

  lemma FieldsOf(d: Date, hours: nat, minutes: nat, seconds: nat, millis: nat)
    requires 0 <= d.year < 10000 && IsDate(d) && hours < 100 && minutes < 100 && seconds < 100 && millis < 1000
    ensures var t := Render(d, hours, minutes, seconds, millis);
            && |t| == 24
            && Value(t[0..4]) == d.year && Value(t[5..7]) == d.month && Value(t[8..10]) == d.day
            && Value(t[11..13]) == hours && Value(t[14..16]) == minutes && Value(t[17..19]) == seconds
            && Value(t[20..23]) == millis
  {
    hide Value, Leap, RenderDate, RenderClock;
    DateFields(d);
    ClockFields(hours, minutes, seconds, millis);
    var a, b := RenderDate(d), RenderClock(hours, minutes, seconds, millis);
    var t := a + b;
    assert t[0..4] == a[0..4] && t[5..7] == a[5..7] && t[8..10] == a[8..10];
    assert t[11..13] == b[0..2] && t[14..16] == b[3..5] && t[17..19] == b[6..8] && t[20..23] == b[9..12];
  }

  /** The printed text of every nonzero instant, negative ones included, denotes the instant
      floored to milliseconds. */
  lemma TimestampDenotesInstant(nanos: I64)
    ensures |TimestampText(nanos)| == 24
    ensures Denoted(TimestampText(nanos)) == nanos / 1000000
  {
    hide Render, CivilFromDays, DaysFromCivil, Value;
    var millis := nanos / 1000000;
    var seconds := millis / 1000;
    var day := seconds / SECONDS_PER_DAY;
    var rest := seconds % SECONDS_PER_DAY;
    YearsInRange(nanos);
    CivilDatesAreValid(day);
    FieldsOf(CivilFromDays(day), rest / 3600, rest % 3600 / 60, rest % 60, millis % 1000);
    CivilIsInvertible(day);
    assert seconds == day * 86400 + rest && millis == seconds * 1000 + millis % 1000;
    assert rest == rest / 3600 * 3600 + rest % 3600 / 60 * 60 + rest % 60;
  }

  /** Hence two instants are printed alike exactly when both are unset, or neither is and they
      fall into the same millisecond. */
  lemma TimestampsIdentifyMilliseconds(a: I64, b: I64)
    ensures TimestampText(a) == TimestampText(b) <==> a / 1000000 == b / 1000000
    ensures Printed(a) == Printed(b) <==> (a == 0 <==> b == 0) && a / 1000000 == b / 1000000
  {
    hide Render, Denoted, CivilFromDays;
    TimestampDenotesInstant(a);
    TimestampDenotesInstant(b);
    assert |UNSET| == 5;
  }
}
