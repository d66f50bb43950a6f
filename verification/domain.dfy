/** The records the application keeps in its data store, and the clock and
    calendar arithmetic every view applies to their timestamps. */
module Domain {

  datatype Option<T> = None | Some(value: T)

  /** A row of the `mood_logs` table. `createdAt` is the creation time in
      milliseconds since the epoch; `mood` is on the 1-10 scale the forms offer. */
  datatype MoodLog = MoodLog(
    id: string,
    userId: string,
    mood: int,
    stressLevel: string,
    journalEntry: Option<string>,
    aiResponse: Option<string>,
    createdAt: int)

  /** JavaScript truthiness of an optional text field: present and not empty. */
  predicate HasText(field: Option<string>)
  {
    field.Some? && field.value != ""
  }

  /** The stress levels the `stress_level` column is declared to hold. */
  predicate KnownStress(level: string)
  {
    level == "low" || level == "medium" || level == "high"
  }

  const MsPerDay: int := 86400000

  /** The calendar day (days since the epoch) a timestamp falls on. */
  function DayOf(t: int): (d: int)
    ensures Midnight(d) <= t < Midnight(d) + MsPerDay
  {
    t / MsPerDay
  }

  /** The first millisecond of a calendar day: what `new Date(d.toDateString())` yields. */
  function Midnight(day: int): int
  {
    day * MsPerDay
  }

  /** The distinct calendar days on which the logs were written. */
  function DaysOf(logs: seq<MoodLog>): set<int>
  {
    set l | l in logs :: DayOf(l.createdAt)
  }

  /** Whole days elapsed from the start of `day` until `now`, rounded down,
      are the difference of the calendar days. */
  lemma DaysSince(now: int, day: int)
    ensures (now - Midnight(day)) / MsPerDay == DayOf(now) - day
  {
  }

  /** Whole days between two midnights are the difference of their days. */
  lemma DaysBetweenMidnights(a: int, b: int)
    ensures (Midnight(a) - Midnight(b)) / MsPerDay == a - b
  {
  }

  /** Day of the week, 0 for Sunday; the epoch day was a Thursday. */
  function WeekdayOf(day: int): int
  {
    (day + 4) % 7
  }

  /** `startOfWeek(t)`: midnight of the Sunday that opens the week of `t`. */
  function StartOfWeek(t: int): (r: int)
    ensures r <= t < r + 7 * MsPerDay
    ensures r == Midnight(DayOf(r)) && WeekdayOf(DayOf(r)) == 0
  {
    var d := DayOf(t) - WeekdayOf(DayOf(t));
    assert DayOf(Midnight(d)) == d;
    Midnight(d)
  }

  /** `endOfWeek(t)`: the last millisecond of the Saturday that closes the week of `t`. */
  function EndOfWeek(t: int): (r: int)
    ensures StartOfWeek(t) <= t <= r
    ensures DayOf(r) == DayOf(StartOfWeek(t)) + 6 && WeekdayOf(DayOf(r)) == 6
    ensures DayOf(r + 1) == DayOf(r) + 1
  {
    var start := StartOfWeek(t);
    assert DayOf(start + 7 * MsPerDay - 1) == DayOf(start) + 6;
    start + 7 * MsPerDay - 1
  }

  /** The proleptic Gregorian (year, month 1-12) of a day number, what
      `getFullYear()` and `getMonth() + 1` read: the day is counted from
      1 March of year 0 in eras of 400 years (146097 days). */
  function CivilYearMonth(day: int): (r: (int, int))
    ensures 1 <= r.1 <= 12
  {
    var z := day + 719468;
    var era := z / 146097;
    EraYearMonth(era, z - era * 146097)
  }

  /** The (year, month) of day `doe` of era `era`: its year of era, its day
      in that March-based year, then its month. */
  function EraYearMonth(era: int, doe: int): (r: (int, int))
  {
    var yoe := (doe - doe / 1460 + doe / 36524 - doe / 146096) / 365;
    var doy := doe - (365 * yoe + yoe / 4 - yoe / 100);
    var mp := (5 * doy + 2) / 153;
    var month := if mp < 10 then mp + 3 else mp - 9;
    (yoe + era * 400 + (if month <= 2 then 1 else 0), month)
  }

  // ------------------------------------------------ the Gregorian calendar

  /** A leap year of the proleptic Gregorian calendar. */
  predicate IsLeapYear(y: int)
  {
    y % 4 == 0 && (y % 100 != 0 || y % 400 == 0)
  }

  /** The number of days of month `m` of year `y`. */
  function DaysInMonth(y: int, m: int): (n: int)
    requires 1 <= m <= 12
    ensures 28 <= n <= 31
    ensures n == 29 <==> m == 2 && IsLeapYear(y)
  {
    if m == 2 then (if IsLeapYear(y) then 29 else 28)
    else if m == 4 || m == 6 || m == 9 || m == 11 then 30
    else 31
  }

  /** The leap years from year 1 up to year `y`, counted negatively below. */
  function LeapsThrough(y: int): int
  {
    y / 4 - y / 100 + y / 400
  }

  /** Each year adds one to the leap count exactly when it is a leap year. */
  lemma LeapsStep(y: int)
    ensures LeapsThrough(y) - LeapsThrough(y - 1) == if IsLeapYear(y) then 1 else 0
  {
    QuotientStep4(y);
    QuotientStep100(y);
    QuotientStep400(y);
  }

  lemma QuotientStep4(y: int)
    ensures y / 4 - (y - 1) / 4 == if y % 4 == 0 then 1 else 0
  {
  }

  lemma QuotientStep100(y: int)
    ensures y / 100 - (y - 1) / 100 == if y % 100 == 0 then 1 else 0
  {
  }

  lemma QuotientStep400(y: int)
    ensures y / 400 - (y - 1) / 400 == if y % 400 == 0 then 1 else 0
  {
  }

  /** The day number of 1 January of year `y`. */
  function DaysBeforeYear(y: int): int
  {
    365 * (y - 1970) + LeapsThrough(y - 1) - LeapsThrough(1969)
  }

  /** Consecutive years start 365 days apart, 366 after a leap year. */
  lemma YearLength(y: int)
    ensures DaysBeforeYear(y + 1) - DaysBeforeYear(y) == if IsLeapYear(y) then 366 else 365
  {
    LeapsStep(y);
  }

  /** The days of year `y` before the first of month `m`. */
  function DaysBeforeMonth(y: int, m: int): (n: int)
    requires 1 <= m <= 12
    ensures 0 <= n <= 31 * (m - 1)
  {
    if m == 1 then 0 else DaysBeforeMonth(y, m - 1) + DaysInMonth(y, m - 1)
  }

  /** The day number of the date `y`-`m`-`d`. */
  function DaysFromCivil(y: int, m: int, d: int): int
    requires 1 <= m <= 12
  {
    DaysBeforeYear(y) + DaysBeforeMonth(y, m) + d - 1
  }

  // ---------------------------------- the conversion against the calendar

  /** The day number of 1 March of year `y`. */
  function MarchFirst(y: int): int
  {
    DaysBeforeYear(y) + 59 + (if IsLeapYear(y) then 1 else 0)
  }

  /** The month starts: January and February, then March to December counted
      from 1 March, 153 days for every five months. */
  lemma MonthStarts(y: int, m: int)
    requires 1 <= m <= 12
    ensures m <= 2 ==> DaysBeforeMonth(y, m) == 31 * (m - 1)
    ensures m > 2 ==> DaysBeforeMonth(y, m) == 59 + (if IsLeapYear(y) then 1 else 0) + (153 * (m - 3) + 2) / 5
  {
    var f := if IsLeapYear(y) then 29 else 28;
    assert DaysBeforeMonth(y, 2) == 31;
    assert DaysBeforeMonth(y, 3) == 31 + f;
    assert DaysBeforeMonth(y, 4) == 62 + f;
    assert DaysBeforeMonth(y, 5) == 92 + f;
    assert DaysBeforeMonth(y, 6) == 123 + f;
    assert DaysBeforeMonth(y, 7) == 153 + f;
    assert DaysBeforeMonth(y, 8) == 184 + f;
    assert DaysBeforeMonth(y, 9) == 215 + f;
    assert DaysBeforeMonth(y, 10) == 245 + f;
    assert DaysBeforeMonth(y, 11) == 276 + f;
    assert DaysBeforeMonth(y, 12) == 306 + f;
  }

  /** A date counted from 1 March: January and February belong to the
      March-based year before. */
  lemma MarchForm(y: int, m: int, d: int)
    requires 1 <= m <= 12
    ensures var yp := if m <= 2 then y - 1 else y;
            var mp := if m > 2 then m - 3 else m + 9;
            DaysFromCivil(y, m, d) == MarchFirst(yp) + (153 * mp + 2) / 5 + d - 1
  {
    MonthStarts(y, m);
    if m <= 2 {
      LeapsStep(y - 1);
    }
  }

  /** 1 March of a year, counted in eras of 400 years from 1 March of year 0. */
  lemma EraForm(yp: int)
    ensures var era := yp / 400;
            var yoe := yp % 400;
            MarchFirst(yp) + 719468 == era * 146097 + 365 * yoe + yoe / 4 - yoe / 100
  {
    var era, yoe := yp / 400, yp % 400;
    LeapsStep(yp);
    assert yp / 4 == 100 * era + yoe / 4;
    assert yp / 100 == 4 * era + yoe / 100;
  }

  lemma Quot153(x: int, q: int)
    requires 153 * q <= x < 153 * q + 153
    ensures x / 153 == q
  {
  }

  lemma Quot365(x: int, q: int)
    requires 365 * q <= x < 365 * q + 365
    ensures x / 365 == q
  {
  }

  lemma Quot400(x: int, q: int)
    requires 400 * q <= x < 400 * q + 400
    ensures x / 400 == q && x % 400 == x - 400 * q
  {
  }

  lemma Quot1460(x: int, q: int)
    requires 1460 * q <= x < 1460 * q + 1460
    ensures x / 1460 == q
  {
  }

  lemma Quot36524(x: int, q: int)
    requires 36524 * q <= x < 36524 * q + 36524
    ensures x / 36524 == q
  {
  }

  lemma Quot146096(x: int, q: int)
    requires 146096 * q <= x < 146096 * q + 146096
    ensures x / 146096 == q
  {
  }

  lemma Quot146097(x: int, q: int)
    requires 146097 * q <= x < 146097 * q + 146097
    ensures x / 146097 == q
  {
  }

  /** The leap rule repeats every 400 years. */
  lemma LeapPeriodic(e: int, n: int)
    ensures IsLeapYear(400 * e + n) == IsLeapYear(n)
  {
    var x := 400 * e + n;
    Rem4(x, e, n);
    Rem100(x, e, n);
    Rem400(x, e, n);
  }

  lemma Rem4(x: int, e: int, n: int)
    requires x == 400 * e + n
    ensures x % 4 == n % 4
  {
    assert x == 4 * (100 * e + n / 4) + n % 4;
  }

  lemma Rem100(x: int, e: int, n: int)
    requires x == 400 * e + n
    ensures x % 100 == n % 100
  {
    assert x == 100 * (4 * e + n / 100) + n % 100;
  }

  lemma Rem400(x: int, e: int, n: int)
    requires x == 400 * e + n
    ensures x % 400 == n % 400
  {
    assert x == 400 * (e + n / 400) + n % 400;
  }

  /** A year of era split into centuries, four-year cycles and years; the
      March-based year `yoe` holds a 29 February exactly when `yoe + 1` is a
      leap year. */
  lemma EraYearParts(yoe: int) returns (c: int, q: int, r: int)
    requires 0 <= yoe < 400
    ensures 0 <= c < 4 && 0 <= q < 25 && 0 <= r < 4
    ensures yoe == 100 * c + 4 * q + r
    ensures yoe / 4 == 25 * c + q && yoe / 100 == c
    ensures IsLeapYear(yoe + 1) <==> r == 3 && (q != 24 || c == 3)
  {
    c := yoe / 100;
    q := (yoe % 100) / 4;
    r := yoe % 4;
  }

  /** The year of era is recovered from the day of era. */
  lemma YearOfEra(yoe: int, doy: int)
    requires 0 <= yoe < 400 && 0 <= doy <= 365
    requires doy == 365 ==> IsLeapYear(yoe + 1)
    ensures var doe := 365 * yoe + yoe / 4 - yoe / 100 + doy;
            0 <= doe < 146097 &&
            (doe - doe / 1460 + doe / 36524 - doe / 146096) / 365 == yoe
  {
    var c, q, r := EraYearParts(yoe);
    var doe := 365 * yoe + yoe / 4 - yoe / 100 + doy;
    assert doe == 36524 * c + 1461 * q + 365 * r + doy;
    if c == 3 && q == 24 && r == 3 && doy == 365 {
      Quot1460(doe, 100);
      Quot36524(doe, 4);
      Quot146096(doe, 1);
      Quot365(doe - 100 + 4 - 1, yoe);
    } else {
      Quot146096(doe, 0);
      Quot36524(doe, c);
      var e := 24 * c + q + 365 * r + doy;
      var k := if e >= 1460 then 1 else 0;
      Quot1460(doe, 25 * c + q + k);
      Quot365(365 * yoe + doy - k, yoe);
    }
  }

  /** The month is recovered from the day of the March-based year. */
  lemma MonthOfYear(mp: int, d: int)
    requires 0 <= mp <= 11
    requires 1 <= d <= (if mp == 11 then 29 else if mp == 1 || mp == 3 || mp == 6 || mp == 8 then 30 else 31)
    ensures (5 * ((153 * mp + 2) / 5 + d - 1) + 2) / 153 == mp
  {
    var start := (153 * mp + 2) / 5;
    assert 5 * start <= 153 * mp + 2 < 5 * start + 5;
    Quot153(5 * (start + d - 1) + 2, mp);
  }

  lemma EraSplit(era: int, doe: int)
    requires 0 <= doe < 146097
    ensures CivilYearMonth(era * 146097 + doe - 719468) == EraYearMonth(era, doe)
  {
    Quot146097(era * 146097 + doe, era);
  }

  lemma EraYearMonthOf(era: int, doe: int, yoe: int, doy: int, mp: int)
    requires (doe - doe / 1460 + doe / 36524 - doe / 146096) / 365 == yoe
    requires doe - (365 * yoe + yoe / 4 - yoe / 100) == doy
    requires (5 * doy + 2) / 153 == mp && 0 <= mp <= 11
    ensures EraYearMonth(era, doe) == (400 * era + yoe + (if mp >= 10 then 1 else 0), if mp < 10 then mp + 3 else mp - 9)
  {
  }

  /** The conversion of a day given by its era, year of era, month from
      March and day of month. */
  lemma CivilOfEraParts(era: int, yoe: int, mp: int, d: int)
    requires 0 <= yoe < 400 && 0 <= mp <= 11
    requires 1 <= d <= (if mp == 11 then 29 else if mp == 1 || mp == 3 || mp == 6 || mp == 8 then 30 else 31)
    requires mp == 11 && d == 29 ==> IsLeapYear(yoe + 1)
    ensures var doy := (153 * mp + 2) / 5 + d - 1;
            CivilYearMonth(era * 146097 + 365 * yoe + yoe / 4 - yoe / 100 + doy - 719468)
              == (400 * era + yoe + (if mp >= 10 then 1 else 0), if mp < 10 then mp + 3 else mp - 9)
  {
    var doy := (153 * mp + 2) / 5 + d - 1;
    MonthOfYear(mp, d);
    assert (5 * doy + 2) / 153 == mp;
    YearOfEra(yoe, doy);
    var doe := 365 * yoe + yoe / 4 - yoe / 100 + doy;
    assert 0 <= doe < 146097 && (doe - doe / 1460 + doe / 36524 - doe / 146096) / 365 == yoe;
    EraYearMonthOf(era, doe, yoe, doy, mp);
    EraSplit(era, doe);
  }

  /** The conversion gives back the year and month of every calendar date. */
  lemma CivilRoundTrip(y: int, m: int, d: int)
    requires 1 <= m <= 12 && 1 <= d <= DaysInMonth(y, m)
    ensures CivilYearMonth(DaysFromCivil(y, m, d)) == (y, m)
  {
    var yp := if m <= 2 then y - 1 else y;
    var mp := if m > 2 then m - 3 else m + 9;
    var era, yoe := yp / 400, yp % 400;
    MarchForm(y, m, d);
    EraForm(yp);
    if mp == 11 && d == 29 {
      assert y == 400 * era + (yoe + 1);
      LeapPeriodic(era, yoe + 1);
    }
    CivilOfEraParts(era, yoe, mp, d);
  }

  /** Every day of an era has a year of era and a day in that year. */
  lemma EraDayParts(doe: int) returns (yoe: int, doy: int)
    requires 0 <= doe < 146097
    ensures 0 <= yoe < 400 && 0 <= doy <= 365
    ensures doy == 365 ==> IsLeapYear(yoe + 1)
    ensures doe == 365 * yoe + yoe / 4 - yoe / 100 + doy
  {
    var c := if doe >= 3 * 36524 then 3 else if doe >= 2 * 36524 then 2 else if doe >= 36524 then 1 else 0;
    var rem := doe - 36524 * c;
    var q := rem / 1461;
    var rem2 := rem - 1461 * q;
    var r := if rem2 >= 1095 then 3 else if rem2 >= 730 then 2 else if rem2 >= 365 then 1 else 0;
    doy := rem2 - 365 * r;
    yoe := 100 * c + 4 * q + r;
    var c', q', r' := EraYearParts(yoe);
    assert c' == c && q' == q && r' == r;
  }

  /** Every day of a March-based year lies in one month, at a valid day. */
  lemma MonthOfDay(doy: int) returns (mp: int, d: int)
    requires 0 <= doy <= 365
    ensures 0 <= mp <= 11
    ensures 1 <= d <= (if mp == 11 then 29 else if mp == 1 || mp == 3 || mp == 6 || mp == 8 then 30 else 31)
    ensures mp == 11 && d == 29 ==> doy == 365
    ensures doy == (153 * mp + 2) / 5 + d - 1
  {
    mp := if doy >= 337 then 11 else if doy >= 306 then 10 else if doy >= 275 then 9
      else if doy >= 245 then 8 else if doy >= 214 then 7 else if doy >= 184 then 6
      else if doy >= 153 then 5 else if doy >= 122 then 4 else if doy >= 92 then 3
      else if doy >= 61 then 2 else if doy >= 31 then 1 else 0;
    d := doy - (153 * mp + 2) / 5 + 1;
  }

  /** Every day number is some calendar date. */
  lemma CivilDateExists(day: int) returns (y: int, m: int, d: int)
    ensures 1 <= m <= 12 && 1 <= d <= DaysInMonth(y, m)
    ensures DaysFromCivil(y, m, d) == day
  {
    var z := day + 719468;
    var era := z / 146097;
    var doe := z - era * 146097;
    var yoe, doy := EraDayParts(doe);
    var mp;
    mp, d := MonthOfDay(doy);
    m := if mp < 10 then mp + 3 else mp - 9;
    y := 400 * era + yoe + (if mp >= 10 then 1 else 0);
    var yp := 400 * era + yoe;
    Quot400(yp, era);
    if mp == 11 && d == 29 {
      LeapPeriodic(era, yoe + 1);
    }
    MarchForm(y, m, d);
    EraForm(yp);
  }

  /** A day falls in year `y` and month `m` exactly when it is one of that
      month's dates. */
  lemma CivilYearMonthIff(day: int, y: int, m: int)
    requires 1 <= m <= 12
    ensures CivilYearMonth(day) == (y, m) <==> exists d :: 1 <= d <= DaysInMonth(y, m) && DaysFromCivil(y, m, d) == day
  {
    var y', m', d' := CivilDateExists(day);
    CivilRoundTrip(y', m', d');
    if exists d :: 1 <= d <= DaysInMonth(y, m) && DaysFromCivil(y, m, d) == day {
      var d :| 1 <= d <= DaysInMonth(y, m) && DaysFromCivil(y, m, d) == day;
      CivilRoundTrip(y, m, d);
    }
  }
}
