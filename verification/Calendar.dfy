/** Days since 1970-01-01 to dates of the proleptic Gregorian calendar, and their rendering (RFC 3339, section 5.6). */
module Calendar {
  datatype Date = Date(year: int, month: nat, day: nat)

  // ----- The calendar, by its own rules --------------------------------------------------------------------------

  predicate IsLeap(year: int) {
    year % 4 == 0 && (year % 100 != 0 || year % 400 == 0)
  }

  function DaysIn(year: int, month: nat): nat {
    if month == 2 then (if IsLeap(year) then 29 else 28)
    else if month == 4 || month == 6 || month == 9 || month == 11 then 30
    else 31
  }

  predicate IsDate(date: Date) {
    1 <= date.month <= 12 && 1 <= date.day <= DaysIn(date.year, date.month)
  }

  function NextDay(date: Date): Date {
    if date.day < DaysIn(date.year, date.month) then Date(date.year, date.month, date.day + 1)
    else if date.month < 12 then Date(date.year, date.month + 1, 1)
    else Date(date.year + 1, 1, 1)
  }

  // ----- The arithmetic --------------------------------------------------------------------------------------------

  /** Division that truncates towards zero, as in the source. */
  function Truncated(a: int, b: int): int
    requires b > 0
  {
    if a >= 0 then a / b else -(-a / b)
  }

  function Era(z: int): int {
    Truncated(if z >= 0 then z else z - 146_096, 146_097)
  }

  function YearOfEra(doe: nat): nat
    requires doe < 146_097
  {
    (doe - doe / 1460 + doe / 36_524 - doe / 146_096) / 365
  }

  /** Days of an era before a year of it; years here begin in March. */
  function YearStart(yoe: nat): nat {
    365 * yoe + yoe / 4 - yoe / 100
  }

  /** Days of a year before a month of it, counted from March. */
  function MonthStart(mp: nat): nat {
    (153 * mp + 2) / 5
  }

  function CivilOf(era: int, yoe: nat, doy: nat): Date {
    var mp := (5 * doy + 2) / 153;
    var y := yoe + era * 400;
    var d := if doy >= MonthStart(mp) then doy - MonthStart(mp) + 1 else 0;
    var m := if mp < 10 then mp + 3 else mp - 9;
    Date(if m <= 2 then y + 1 else y, m, d)
  }

  function CivilFromDays(days: int): Date {
    var z := days + 719_468;
    var doe := z - Era(z) * 146_097;
    EraIsFloor(z);
    var yoe := YearOfEra(doe);
    YearIsFound(doe);
    CivilOf(Era(z), yoe, doe - YearStart(yoe))
  }

  lemma {:induction false} EraIsFloor(z: int)
    ensures 0 <= z - Era(z) * 146_097 < 146_097
  {
  }

  /** Whether a March year of an era has 366 days. */
  predicate LongYear(yoe: nat) {
    (yoe + 1) % 4 == 0 && ((yoe + 1) % 100 != 0 || yoe == 399)
  }

  function YearLength(yoe: nat): nat {
    if LongYear(yoe) then 366 else 365
  }

  /** A day of an era as centuries, four-year cycles, years and days. */
  datatype Parts = Parts(century: nat, cycle: nat, rest: nat, day: nat) {
    function Year(): nat {
      100 * century + 4 * cycle + rest
    }

    function Day(): nat {
      36_524 * century + 1461 * cycle + 365 * rest + day
    }

    predicate InRange() {
      century < 4 && cycle < 25 && rest < 4 && day < YearLength(Year())
    }
  }

  lemma {:induction false} PartsAreYear(p: Parts)
    requires p.InRange()
    ensures YearStart(p.Year()) + p.day == p.Day() && p.Day() < 146_097
    ensures LongYear(p.Year()) <==> p.rest == 3 && (p.cycle < 24 || p.century == 3)
  {
    var y := p.Year();
    assert y / 4 == 25 * p.century + p.cycle && y / 100 == p.century;
    assert (y + 1) % 4 == 0 <==> p.rest == 3;
    assert (y + 1) % 100 == 0 <==> p.rest == 3 && p.cycle == 24;
  }

  function Min(a: nat, b: nat): nat {
    if a < b then a else b
  }

  function PartsOf(doe: nat): Parts {
    var century := Min(doe / 36_524, 3);
    var r := doe - 36_524 * century;
    var cycle := Min(r / 1461, 24);
    var q := r - 1461 * cycle;
    var rest := Min(q / 365, 3);
    Parts(century, cycle, rest, q - 365 * rest)
  }

  lemma {:induction false} PartsAreFound(doe: nat)
    requires doe < 146_097
    ensures PartsOf(doe).InRange() && PartsOf(doe).Day() == doe
  {
    var p := PartsOf(doe);
    var r := doe - 36_524 * p.century;
    assert r <= 36_524 && (r == 36_524 ==> p.century == 3);
    var y := p.Year();
    assert (y + 1) % 4 == 0 <==> p.rest == 3;
    assert (y + 1) % 100 == 0 <==> p.rest == 3 && p.cycle == 24;
    var q := r - 1461 * p.cycle;
    assert q <= 1461;
  }

  /** The formula finds the year of a day: its three corrections count the leap days before it. */
  lemma {:induction false} FormulaFindsYear(p: Parts)
    requires p.InRange()
    ensures YearOfEra(p.Day()) == p.Year()
  {
    PartsAreYear(p);
    var doe := p.Day();
    var over := 24 * p.century + p.cycle + 365 * p.rest + p.day;
    assert doe == 1460 * (25 * p.century + p.cycle) + over;
    assert doe / 1460 == 25 * p.century + p.cycle + (if over < 1460 then 0 else 1);
    if doe == 146_096 {
      assert p.day == 365;
    } else {
      assert doe / 36_524 == p.century && doe / 146_096 == 0;
    }
  }

  lemma {:induction false} YearIsFound(doe: nat)
    requires doe < 146_097
    ensures YearOfEra(doe) < 400
    ensures YearStart(YearOfEra(doe)) <= doe < YearStart(YearOfEra(doe)) + YearLength(YearOfEra(doe))
  {
    PartsAreFound(doe);
    FormulaFindsYear(PartsOf(doe));
    PartsAreYear(PartsOf(doe));
  }

  /** Conversely, a day of a year is found in that year. */
  lemma {:induction false} YearIsUnique(yoe: nat, doy: nat)
    requires yoe < 400 && doy < YearLength(yoe)
    ensures YearStart(yoe) + doy < 146_097 && YearOfEra(YearStart(yoe) + doy) == yoe
  {
    var p := Parts(yoe / 100, yoe % 100 / 4, yoe % 4, doy);
    assert p.Year() == yoe;
    PartsAreYear(p);
    FormulaFindsYear(p);
  }

  // ----- Days, counted in eras, years and days -----------------------------------------------------------------------

  /** A day number as an era, a March year of it and a day of that. */
  function DayNumber(era: int, yoe: nat, doy: nat): int {
    era * 146_097 + YearStart(yoe) + doy - 719_468
  }

  lemma {:induction false} CivilOfDayNumber(era: int, yoe: nat, doy: nat)
    requires yoe < 400 && doy < YearLength(yoe)
    ensures CivilFromDays(DayNumber(era, yoe, doy)) == CivilOf(era, yoe, doy)
  {
    var z := DayNumber(era, yoe, doy) + 719_468;
    var doe := YearStart(yoe) + doy;
    YearIsUnique(yoe, doy);
    EraIsFloor(z);
    SameEra(Era(z), z - Era(z) * 146_097, era, doe);
  }

  lemma {:induction false} SameEra(a: int, x: int, b: int, y: int)
    requires a * 146_097 + x == b * 146_097 + y && 0 <= x < 146_097 && 0 <= y < 146_097
    ensures a == b && x == y
  {
  }

  lemma {:induction false} DayNumberOf(days: int) returns (era: int, yoe: nat, doy: nat)
    ensures yoe < 400 && doy < YearLength(yoe) && days == DayNumber(era, yoe, doy)
  {
    var z := days + 719_468;
    EraIsFloor(z);
    era := Era(z);
    var doe := z - era * 146_097;
    YearIsFound(doe);
    yoe, doy := YearOfEra(doe), doe - YearStart(YearOfEra(doe));
  }

  lemma {:induction false} MonthIsFound(doy: nat)
    requires doy < 366
    ensures var mp := (5 * doy + 2) / 153;
            mp < 12 && MonthStart(mp) <= doy && (mp < 11 ==> doy < MonthStart(mp + 1))
  {
  }

  lemma {:induction false} MonthLengths(mp: nat, year: int)
    requires mp < 11
    ensures MonthStart(mp + 1) - MonthStart(mp) == DaysIn(year, if mp < 10 then mp + 3 else mp - 9)
    ensures MonthStart(11) == 337
  {
    assert mp == 0 || mp == 1 || mp == 2 || mp == 3 || mp == 4 || mp == 5 || mp == 6 || mp == 7 || mp == 8 || mp == 9
        || mp == 10;
  }

  /** A March year is long exactly when the February it ends with belongs to a leap year. */
  lemma {:induction false} LongIsLeap(era: int, yoe: nat)
    requires yoe < 400
    ensures LongYear(yoe) <==> IsLeap(yoe + era * 400 + 1)
  {
    Remainders(yoe + 1, era);
  }

  lemma {:induction false} Remainders(a: int, era: int)
    ensures (a + era * 400) % 4 == a % 4
    ensures (a + era * 400) % 100 == a % 100
    ensures (a + era * 400) % 400 == a % 400
  {
    Remainder4(a, 100 * era);
    Remainder100(a, 4 * era);
    Remainder400(a, era);
  }

  lemma {:induction false} Remainder4(a: int, k: int)
    ensures (a + 4 * k) % 4 == a % 4
  {
  }

  lemma {:induction false} Remainder100(a: int, k: int)
    ensures (a + 100 * k) % 100 == a % 100
  {
  }

  lemma {:induction false} Remainder400(a: int, k: int)
    ensures (a + 400 * k) % 400 == a % 400
  {
  }

  lemma {:induction false} CivilIsDate(era: int, yoe: nat, doy: nat)
    requires yoe < 400 && doy < YearLength(yoe)
    ensures IsDate(CivilOf(era, yoe, doy))
  {
    MonthIsFound(doy);
    LongIsLeap(era, yoe);
    var mp := (5 * doy + 2) / 153;
    MonthLengths(if mp < 11 then mp else 0, CivilOf(era, yoe, doy).year);
  }

  /** Within a year, the next day has the next date. */
  lemma {:induction false} NextInYear(era: int, yoe: nat, doy: nat)
    requires yoe < 400 && doy + 1 < YearLength(yoe)
    ensures CivilOf(era, yoe, doy + 1) == NextDay(CivilOf(era, yoe, doy))
  {
    MonthIsFound(doy);
    MonthIsFound(doy + 1);
    LongIsLeap(era, yoe);
    var mp := (5 * doy + 2) / 153;
    MonthLengths(if mp < 11 then mp else 0, CivilOf(era, yoe, doy).year);
  }

  /** The last day of a March year is the last of February, and the first of March comes next. */
  lemma {:induction false} NextYear(era: int, yoe: nat)
    requires yoe < 400
    ensures var last := CivilOf(era, yoe, YearLength(yoe) - 1);
            NextDay(last) == if yoe < 399 then CivilOf(era, yoe + 1, 0) else CivilOf(era + 1, 0, 0)
  {
    LongIsLeap(era, yoe);
    MonthIsFound(YearLength(yoe) - 1);
    MonthLengths(0, 0);
  }

  lemma {:induction false} YearsFollow(yoe: nat)
    requires yoe < 400
    ensures yoe < 399 ==> YearStart(yoe + 1) == YearStart(yoe) + YearLength(yoe)
    ensures YearStart(399) + YearLength(399) == 146_097
  {
    var leaps := (yoe + 1) / 4 - (yoe + 1) / 100;
    assert leaps - (yoe / 4 - yoe / 100) == if (yoe + 1) % 4 == 0 && (yoe + 1) % 100 != 0 then 1 else 0;
  }

  /**
   For every day number there is a valid date, and consecutive days have consecutive dates of the calendar.
   */
  lemma {:induction false} CivilFollowsCalendar(days: int)
    ensures IsDate(CivilFromDays(days))
    ensures CivilFromDays(days + 1) == NextDay(CivilFromDays(days))
  {
    var era, yoe, doy := DayNumberOf(days);
    CivilOfDayNumber(era, yoe, doy);
    CivilIsDate(era, yoe, doy);
    NextCivil(era, yoe, doy, days + 1);
  }

  lemma {:induction false} NextCivil(era: int, yoe: nat, doy: nat, next: int)
    requires yoe < 400 && doy < YearLength(yoe) && next == DayNumber(era, yoe, doy) + 1
    ensures CivilFromDays(next) == NextDay(CivilOf(era, yoe, doy))
  {
    NextNumber(era, yoe, doy);
    if doy + 1 < YearLength(yoe) {
      CivilAt(next, era, yoe, doy + 1);
      NextInYear(era, yoe, doy);
    } else {
      NextYear(era, yoe);
      if yoe < 399 {
        CivilAt(next, era, yoe + 1, 0);
      } else {
        CivilAt(next, era + 1, 0, 0);
      }
    }
  }

  lemma {:induction false} CivilAt(days: int, era: int, yoe: nat, doy: nat)
    requires yoe < 400 && doy < YearLength(yoe) && days == DayNumber(era, yoe, doy)
    ensures CivilFromDays(days) == CivilOf(era, yoe, doy)
  {
    CivilOfDayNumber(era, yoe, doy);
  }

  lemma {:induction false} NextNumber(era: int, yoe: nat, doy: nat)
    requires yoe < 400 && doy < YearLength(yoe)
    ensures DayNumber(era, yoe, doy) + 1
         == if doy + 1 < YearLength(yoe) then DayNumber(era, yoe, doy + 1)
            else if yoe < 399 then DayNumber(era, yoe + 1, 0) else DayNumber(era + 1, 0, 0)
  {
    YearsFollow(yoe);
  }

  lemma {:induction false} EpochIsDayZero()
    ensures CivilFromDays(0) == Date(1970, 1, 1)
  {
    assert DayNumber(4, 369, 306) == 0;
    CivilOfDayNumber(4, 369, 306);
  }

  // ----- The day number of a date ------------------------------------------------------------------------------------

  /** The day number of a date, counted by the calendar's rules: whole years, whole months, days. */
  function DaysFromCivil(date: Date): int {
    var march := if date.month <= 2 then date.year - 1 else date.year;
    var mp := if date.month <= 2 then date.month + 9 else date.month - 3;
    var era := march / 400;
    DayNumber(era, march % 400, 0) + (153 * mp + 2) / 5 + date.day - 1
  }

  lemma {:induction false} DaysOfCivil(era: int, yoe: nat, doy: nat)
    requires yoe < 400 && doy < YearLength(yoe)
    ensures DaysFromCivil(CivilOf(era, yoe, doy)) == DayNumber(era, yoe, doy)
  {
    MonthIsFound(doy);
    var march := yoe + era * 400;
    Quotient(yoe, era);
  }

  lemma {:induction false} Quotient(a: int, k: int)
    requires 0 <= a < 400
    ensures (a + k * 400) / 400 == k && (a + k * 400) % 400 == a
  {
  }

  /** Each day number is the day number of its own date, so no two days share a date. */
  lemma {:induction false} CivilRoundTrip(days: int)
    ensures DaysFromCivil(CivilFromDays(days)) == days
  {
    var era, yoe, doy := DayNumberOf(days);
    CivilOfDayNumber(era, yoe, doy);
    DaysOfCivil(era, yoe, doy);
  }

  lemma {:induction false} DayOfYearInRange(era: int, yoe: nat, mp: nat, day: nat)
    requires yoe < 400 && mp < 12
    requires 1 <= day <= DaysIn(if mp < 10 then yoe + era * 400 else yoe + era * 400 + 1,
                                   if mp < 10 then mp + 3 else mp - 9)
    ensures var doy := MonthStart(mp) + day - 1;
            0 <= doy < YearLength(yoe) && (5 * doy + 2) / 153 == mp
  {
    LongIsLeap(era, yoe);
    MonthLengths(if mp < 11 then mp else 0, if mp < 10 then yoe + era * 400 else yoe + era * 400 + 1);
    assert mp == 0 || mp == 1 || mp == 2 || mp == 3 || mp == 4 || mp == 5 || mp == 6 || mp == 7 || mp == 8 || mp == 9
        || mp == 10 || mp == 11;
  }

  /** And every valid date is the date of its own day number: no date is skipped. */
  lemma {:induction false} DaysRoundTrip(date: Date)
    requires IsDate(date)
    ensures CivilFromDays(DaysFromCivil(date)) == date
  {
    var march := if date.month <= 2 then date.year - 1 else date.year;
    var mp := if date.month <= 2 then date.month + 9 else date.month - 3;
    var era, yoe := march / 400, march % 400;
    var doy := MonthStart(mp) + date.day - 1;
    DayOfYearInRange(era, yoe, mp, date.day);
    CivilAt(DaysFromCivil(date), era, yoe, doy);
    DateOfDay(era, yoe, mp, date);
  }

  lemma {:induction false} DateOfDay(era: int, yoe: nat, mp: nat, date: Date)
    requires yoe < 400 && mp < 12 && date.day >= 1
    requires date.month == if mp < 10 then mp + 3 else mp - 9
    requires date.year == if mp < 10 then yoe + era * 400 else yoe + era * 400 + 1
    requires (5 * (MonthStart(mp) + date.day - 1) + 2) / 153 == mp
    ensures CivilOf(era, yoe, MonthStart(mp) + date.day - 1) == date
  {
  }

  // ----- The instant -------------------------------------------------------------------------------------------------

  datatype Fields = Fields(date: Date, hour: nat, minute: nat, second: nat, ms: nat)

  const MS_PER_DAY := 86_400_000

  /** The rendered fields of an instant; a day before the epoch borrows as Euclidean division does. */
  function FieldsOf(unixMs: int): Fields {
    var ofDay := unixMs % MS_PER_DAY;
    var seconds := ofDay / 1000;
    Fields(CivilFromDays(unixMs / MS_PER_DAY), seconds / 3600, seconds % 3600 / 60, seconds % 60, ofDay % 1000)
  }

  function InstantOf(fields: Fields): int {
    DaysFromCivil(fields.date) * MS_PER_DAY
    + ((fields.hour * 60 + fields.minute) * 60 + fields.second) * 1000 + fields.ms
  }

  /** The rendered fields are a valid time of a valid day and determine the instant, before the epoch too. */
  lemma {:induction false} FieldsDetermineInstant(unixMs: int)
    ensures InstantOf(FieldsOf(unixMs)) == unixMs
    ensures IsDate(FieldsOf(unixMs).date)
    ensures var f := FieldsOf(unixMs); f.hour < 24 && f.minute < 60 && f.second < 60 && f.ms < 1000
  {
    CivilRoundTrip(unixMs / MS_PER_DAY);
    CivilFollowsCalendar(unixMs / MS_PER_DAY);
    ClockAddsUp(unixMs % MS_PER_DAY);
    assert unixMs == unixMs / MS_PER_DAY * MS_PER_DAY + unixMs % MS_PER_DAY;
  }

  lemma {:induction false} ClockAddsUp(ofDay: nat)
    requires ofDay < MS_PER_DAY
    ensures var seconds := ofDay / 1000;
            && ((seconds / 3600 * 60 + seconds % 3600 / 60) * 60 + seconds % 60) * 1000 + ofDay % 1000 == ofDay
            && seconds / 3600 < 24 && seconds % 3600 / 60 < 60
  {
    var seconds := ofDay / 1000;
    var rest := seconds % 3600;
    assert seconds == 3600 * (seconds / 3600) + rest;
    assert rest == 60 * (rest / 60) + rest % 60 && rest % 60 == seconds % 60;
  }

  // ----- The text ----------------------------------------------------------------------------------------------------

  function Digit(n: nat): char
    requires n < 10
  {
    '0' + n as char
  }

  function Padded(n: nat, width: nat): (r: string)
    ensures |r| == width
  {
    if width == 0 then "" else Padded(n / 10, width - 1) + [Digit(n % 10)]
  }

  function DigitValue(c: char): nat {
    if '0' <= c <= '9' then c as int - '0' as int else 0
  }

  function Value(s: string): nat {
    if s == "" then 0 else 10 * Value(s[..|s| - 1]) + DigitValue(s[|s| - 1])
  }

  function Power10(n: nat): nat {
    if n == 0 then 1 else 10 * Power10(n - 1)
  }

  lemma {:induction false} PaddedRoundTrip(n: nat, width: nat)
    requires n < Power10(width)
    ensures Value(Padded(n, width)) == n
  {
    if width > 0 {
      PaddedRoundTrip(n / 10, width - 1);
      var s := Padded(n, width);
      assert s[..|s| - 1] == Padded(n / 10, width - 1);
    }
  }

  /** RFC 3339 in UTC, to the millisecond, for years that need no sign. */
  function Rendered(f: Fields): string
    requires f.date.year >= 0
  {
    Padded(f.date.year, 4) + "-" + Padded(f.date.month, 2) + "-" + Padded(f.date.day, 2) + "T"
    + Padded(f.hour, 2) + ":" + Padded(f.minute, 2) + ":" + Padded(f.second, 2) + "." + Padded(f.ms, 3) + "Z"
  }

  function ReadBack(s: string): Fields
    requires |s| == 24
  {
    Fields(Date(Value(s[0..4]), Value(s[5..7]), Value(s[8..10])), Value(s[11..13]), Value(s[14..16]),
           Value(s[17..19]), Value(s[20..23]))
  }

  lemma {:induction false} Slices(f: Fields)
    requires f.date.year >= 0
    ensures var s := Rendered(f);
            && |s| == 24
            && s[0..4] == Padded(f.date.year, 4) && s[5..7] == Padded(f.date.month, 2)
            && s[8..10] == Padded(f.date.day, 2) && s[11..13] == Padded(f.hour, 2)
            && s[14..16] == Padded(f.minute, 2) && s[17..19] == Padded(f.second, 2) && s[20..23] == Padded(f.ms, 3)
            && s[4] == '-' && s[7] == '-' && s[10] == 'T' && s[13] == ':' && s[16] == ':' && s[19] == '.' && s[23] == 'Z'
  {
  }

  /** In the years 0 to 9999 the rendered text alone gives the instant back. */
  lemma {:induction false} TextDeterminesInstant(unixMs: int)
    requires 0 <= FieldsOf(unixMs).date.year <= 9999
    ensures |Rendered(FieldsOf(unixMs))| == 24
    ensures InstantOf(ReadBack(Rendered(FieldsOf(unixMs)))) == unixMs
    ensures var s := Rendered(FieldsOf(unixMs));
            s[4] == s[7] == '-' && s[10] == 'T' && s[13] == s[16] == ':' && s[19] == '.' && s[23] == 'Z'
  {
    var f := FieldsOf(unixMs);
    FieldsDetermineInstant(unixMs);
    Slices(f);
    assert Power10(2) == 100 && Power10(3) == 1000 && Power10(4) == 10_000 by {
      assert Power10(1) == 10 && Power10(2) == 10 * Power10(1) && Power10(3) == 10 * Power10(2);
    }
    PaddedRoundTrip(f.date.year, 4);
    PaddedRoundTrip(f.date.month, 2);
    PaddedRoundTrip(f.date.day, 2);
    PaddedRoundTrip(f.hour, 2);
    PaddedRoundTrip(f.minute, 2);
    PaddedRoundTrip(f.second, 2);
    PaddedRoundTrip(f.ms, 3);
  }
}
