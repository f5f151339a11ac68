/** The proleptic Gregorian calendar and the IMF-fixdate of section 5.6.7 of RFC 9110. */
module Calendar {

  datatype Date = Date(year: int, month: int, day: int)

  // -- the calendar itself ------------------------------------------------------------

  predicate IsLeap(year: int) { year % 4 == 0 && (year % 100 != 0 || year % 400 == 0) }

  function MonthLength(year: int, month: int): int {
    if month == 2 then (if IsLeap(year) then 29 else 28)
    else if month in {4, 6, 9, 11} then 30
    else 31
  }

  predicate Valid(d: Date) {
    1 <= d.month <= 12 && 1 <= d.day <= MonthLength(d.year, d.month)
  }

  function NextDay(d: Date): Date {
    if d.day < MonthLength(d.year, d.month) then d.(day := d.day + 1)
    else if d.month < 12 then Date(d.year, d.month + 1, 1)
    else Date(d.year + 1, 1, 1)
  }

  // -- the program's algorithm ----------------------------------------------------------

  /** Division that truncates toward zero, as the program's does. */
  function TruncDiv(a: int, b: int): int
    requires b > 0
  {
    if a >= 0 then a / b else -(-a / b)
  }

  /** The year of a 400-year era, counted from March. */
  function YearOfEra(doe: int): int { (doe - doe / 1460 + doe / 36_524 - doe / 146_096) / 365 }

  function DayOfYear(doe: int, yoe: int): int { doe - (365 * yoe + yoe / 4 - yoe / 100) }

  /** The date `doy` days after 1 March of year `y`. */
  function FromMarch(y: int, doy: int): Date {
    var mp := (5 * doy + 2) / 153;
    var d := doy - (153 * mp + 2) / 5 + 1;
    var m := if mp < 10 then mp + 3 else mp - 9;
    Date(if m <= 2 then y + 1 else y, m, d)
  }

  /** The date of day `doe` of a 400-year era. */
  function FromEra(era: int, doe: int): Date {
    var yoe := YearOfEra(doe);
    FromMarch(yoe + era * 400, DayOfYear(doe, yoe))
  }

  /** The date `days` days after 1970-01-01. */
  function CivilFromDays(days: int): Date {
    var z := days + 719_468;
    var era := TruncDiv(if z >= 0 then z else z - 146_096, 146_097);
    FromEra(era, z - era * 146_097)
  }

  // -- counting days ---------------------------------------------------------------------

  /** Days from 1 January of year 1 to 1 January of `year`. */
  function DaysBeforeYear(year: int): int {
    var y := year - 1;
    365 * y + y / 4 - y / 100 + y / 400
  }

  function DaysBeforeMonth(year: int, month: int): int {
    if month <= 1 then 0 else DaysBeforeMonth(year, month - 1) + MonthLength(year, month - 1)
  }

  /** Days from 1970-01-01 to a date. */
  function DaysFromCivil(d: Date): int {
    DaysBeforeYear(d.year) + DaysBeforeMonth(d.year, d.month) + d.day - 1 - 719_162
  }

  lemma Carry4(y: int)
    ensures y / 4 == (y - 1) / 4 + (if y % 4 == 0 then 1 else 0)
  {}

  lemma Carry100(y: int)
    ensures y / 100 == (y - 1) / 100 + (if y % 100 == 0 then 1 else 0)
  {}

  lemma Carry400(y: int)
    ensures y / 400 == (y - 1) / 400 + (if y % 400 == 0 then 1 else 0)
  {}

  lemma Multiples(y: int)
    ensures y % 400 == 0 ==> y % 100 == 0
    ensures y % 100 == 0 ==> y % 4 == 0
  {}

  lemma YearLength(year: int)
    ensures DaysBeforeYear(year + 1) == DaysBeforeYear(year) + 365 + (if IsLeap(year) then 1 else 0)
  {
    Carry4(year);
    Carry100(year);
    Carry400(year);
    Multiples(year);
  }

  lemma MonthsBefore(year: int, month: int)
    requires 1 <= month <= 12
    ensures DaysBeforeMonth(year, month) ==
            [0, 31, 59, 90, 120, 151, 181, 212, 243, 273, 304, 334][month - 1]
            + (if month > 2 && IsLeap(year) then 1 else 0)
  {
    if month > 1 {
      MonthsBefore(year, month - 1);
    }
  }

  lemma EraIsFloor(z: int)
    ensures TruncDiv(if z >= 0 then z else z - 146_096, 146_097) == z / 146_097
  {}

  /** Year `k` of a century in which day `r` falls, where `c` centuries of the era have gone. */
  lemma YearOfCentury(c: int, r: int)
    requires 0 <= c <= 3 && 0 <= r < 36_524
    ensures var k := (r - (24 * c + r) / 1460) / 365;
      && 0 <= k < 100
      && 0 <= r - (365 * k + k / 4) <= 365
      && (r - (365 * k + k / 4) == 365 ==> (k + 1) % 4 == 0 && k != 99)
  {
    var a, b := r / 1461, r % 1461;
    var t := (a + b + 24 * c) / 1460;
    assert 24 * c + r == 1460 * a + (a + b + 24 * c);
    assert (24 * c + r) / 1460 == a + t;
    assert r - (24 * c + r) / 1460 == 1460 * a + (b - t);
    var j := (b - t) / 365;
    assert (1460 * a + (b - t)) / 365 == 4 * a + j;
    assert 0 <= j <= 3;
    assert (4 * a + j) / 4 == a;
  }

  lemma YearSplits(doe: int, c: int, r: int)
    requires 0 <= c <= 3 && 0 <= r < 36_524 && doe == 36_524 * c + r && doe < 146_096
    ensures YearOfEra(doe) == 100 * c + (r - (24 * c + r) / 1460) / 365
  {
    assert doe == 1460 * (25 * c) + (24 * c + r);
    assert doe / 1460 == 25 * c + (24 * c + r) / 1460;
    assert doe - doe / 1460 + doe / 36_524 - doe / 146_096 == 365 * (100 * c) + (r - (24 * c + r) / 1460);
  }

  lemma DayInCentury(c: int, k: int, r: int)
    requires 0 <= k < 100
    ensures DayOfYear(36_524 * c + r, 100 * c + k) == r - (365 * k + k / 4)
  {
    assert (100 * c + k) / 100 == c && (100 * c + k) / 4 == 25 * c + k / 4;
  }

  predicate HasDay(yoe: int, doy: int) {
    && 0 <= yoe < 400 && 0 <= doy <= 365
    && (doy == 365 ==> (yoe + 1) % 4 == 0 && ((yoe + 1) % 100 != 0 || yoe == 399))
  }

  lemma DayIsInYear(c: int, k: int, doy: int)
    requires 0 <= c <= 3 && 0 <= k < 100 && 0 <= doy <= 365
    requires doy == 365 ==> (k + 1) % 4 == 0 && k != 99
    ensures HasDay(100 * c + k, doy)
  {
    assert (100 * c + k + 1) % 4 == (k + 1) % 4;
    assert k != 99 ==> (100 * c + k + 1) % 100 == k + 1;
  }

  lemma YearIsFoundIn(doe: int, c: int, r: int, k: int)
    requires 0 <= c <= 3 && 0 <= r < 36_524 && doe == 36_524 * c + r && doe < 146_096
    requires k == (r - (24 * c + r) / 1460) / 365
    ensures HasDay(YearOfEra(doe), DayOfYear(doe, YearOfEra(doe)))
  {
    YearOfCentury(c, r);
    YearSplits(doe, c, r);
    DayInCentury(c, k, r);
    DayIsInYear(c, k, r - (365 * k + k / 4));
  }

  lemma YearIsFound(doe: int)
    requires 0 <= doe < 146_097
    ensures HasDay(YearOfEra(doe), DayOfYear(doe, YearOfEra(doe)))
  {
    if doe < 146_096 {
      var c, r := doe / 36_524, doe % 36_524;
      YearIsFoundIn(doe, c, r, (r - (24 * c + r) / 1460) / 365);
    }
  }

  /** The months counted from March, and the day they start on. */
  function MonthStart(mp: int): int { (153 * mp + 2) / 5 }

  lemma MonthIsFound(doy: int)
    requires 0 <= doy <= 365
    ensures var mp := (5 * doy + 2) / 153;
      && 0 <= mp <= 11
      && 0 <= doy - MonthStart(mp) < [31, 30, 31, 30, 31, 31, 30, 31, 30, 31, 31, 29][mp]
      && (mp == 11 && doy - MonthStart(mp) == 28 ==> doy == 365)
  {}

  lemma ModRepeats4(year: int, k: int)
    ensures (year + 4 * k) % 4 == year % 4
  {}

  lemma ModRepeats100(year: int, k: int)
    ensures (year + 100 * k) % 100 == year % 100
  {}

  lemma ModRepeats400(year: int, k: int)
    ensures (year + 400 * k) % 400 == year % 400
  {}

  lemma LeapRepeats(year: int, era: int)
    ensures IsLeap(year + era * 400) == IsLeap(year)
  {
    ModRepeats4(year, 100 * era);
    ModRepeats100(year, 4 * era);
    ModRepeats400(year, era);
  }

  /** Days from 1 March of year 0 to 1 March of year `y`, taken apart into eras. */
  lemma DaysBeforeMarch(yoe: int, era: int)
    requires 0 <= yoe < 400
    ensures DaysBeforeYear(yoe + era * 400 + 1) == 146_097 * era + (365 * yoe + yoe / 4 - yoe / 100)
  {
    var y := yoe + era * 400;
    assert y / 4 == yoe / 4 + 100 * era;
    assert y / 100 == yoe / 100 + 4 * era;
    assert y / 400 == era;
  }

  lemma MonthStartsAgree(year: int, mp: int)
    requires 0 <= mp <= 11
    ensures var m := if mp < 10 then mp + 3 else mp - 9;
      if mp < 10
      then DaysBeforeMonth(year, m) == 59 + (if IsLeap(year) then 1 else 0) + MonthStart(mp)
      else DaysBeforeMonth(year, m) == MonthStart(mp) - 306
  {
    MonthsBefore(year, if mp < 10 then mp + 3 else mp - 9);
  }

  lemma MarchDateIsValid(y: int, doy: int)
    requires 0 <= doy <= 365 && (doy == 365 ==> IsLeap(y + 1))
    ensures Valid(FromMarch(y, doy))
  {
    MonthIsFound(doy);
  }

  lemma MarchDateIsCounted(y: int, doy: int)
    requires 0 <= doy <= 365 && (doy == 365 ==> IsLeap(y + 1))
    ensures Valid(FromMarch(y, doy))
    ensures DaysFromCivil(FromMarch(y, doy)) == DaysBeforeYear(y + 1) + doy - 719_468
  {
    MarchDateIsValid(y, doy);
    MonthIsFound(doy);
    YearLength(y);
    MonthStartsAgree(FromMarch(y, doy).year, (5 * doy + 2) / 153);
  }

  lemma LeapOnDay365(yoe: int)
    requires (yoe + 1) % 4 == 0 && ((yoe + 1) % 100 != 0 || yoe == 399)
    ensures IsLeap(yoe + 1)
  {}

  lemma LastDayIsLeap(era: int, yoe: int, doy: int)
    requires doy == 365 ==> (yoe + 1) % 4 == 0 && ((yoe + 1) % 100 != 0 || yoe == 399)
    ensures doy == 365 ==> IsLeap(yoe + era * 400 + 1)
  {
    if doy == 365 {
      LeapOnDay365(yoe);
      LeapRepeats(yoe + 1, era);
      assert yoe + era * 400 + 1 == yoe + 1 + era * 400;
    }
  }

  /** Day `doe` of an era, found as day `doy` of year `yoe`, counts back to where it was. */
  lemma EraDateIsCounted(era: int, doe: int, yoe: int, doy: int, d: Date)
    requires HasDay(yoe, doy) && doy == doe - (365 * yoe + yoe / 4 - yoe / 100)
    requires d == FromMarch(yoe + era * 400, doy)
    ensures Valid(d)
    ensures DaysFromCivil(d) == era * 146_097 + doe - 719_468
  {
    LastDayIsLeap(era, yoe, doy);
    DaysBeforeMarch(yoe, era);
    MarchDateIsCounted(yoe + era * 400, doy);
  }

  /** The day lies in its era, also before day zero of era 0. */
  lemma DayIsInEra(z: int)
    ensures 0 <= z - TruncDiv(if z >= 0 then z else z - 146_096, 146_097) * 146_097 < 146_097
  {
    EraIsFloor(z);
  }

  lemma CivilUnfolds(days: int) returns (era: int, doe: int)
    ensures doe == days + 719_468 - era * 146_097 && 0 <= doe < 146_097
    ensures CivilFromDays(days) == FromEra(era, doe)
  {
    var z := days + 719_468;
    era := TruncDiv(if z >= 0 then z else z - 146_096, 146_097);
    doe := z - era * 146_097;
    DayIsInEra(z);
  }

  /** Every day number is a valid date ... */
  lemma CivilIsValid(days: int)
    ensures Valid(CivilFromDays(days))
  {
    var era, doe := CivilUnfolds(days);
    var yoe := YearOfEra(doe);
    YearIsFound(doe);
    EraDateIsCounted(era, doe, yoe, DayOfYear(doe, yoe), FromEra(era, doe));
  }

  /** ... and counting the days of that date gives the number back. */
  lemma DaysInvertsCivil(days: int)
    ensures DaysFromCivil(CivilFromDays(days)) == days
  {
    var era, doe := CivilUnfolds(days);
    var yoe := YearOfEra(doe);
    YearIsFound(doe);
    EraDateIsCounted(era, doe, yoe, DayOfYear(doe, yoe), FromEra(era, doe));
  }

  /** The next date is one day on. */
  lemma NextDayIsOneMore(d: Date)
    requires Valid(d)
    ensures Valid(NextDay(d)) && DaysFromCivil(NextDay(d)) == DaysFromCivil(d) + 1
  {
    YearLength(d.year);
    MonthsBefore(d.year, 12);
  }

  lemma {:induction false} YearsAreOrdered(year: int, later: int)
    requires year < later
    ensures DaysBeforeYear(year + 1) <= DaysBeforeYear(later)
    decreases later - year
  {
    if year + 1 < later {
      YearLength(later - 1);
      YearsAreOrdered(year, later - 1);
    }
  }

  lemma {:induction false} MonthsAreOrdered(year: int, month: int, later: int)
    requires 1 <= month < later <= 12
    ensures DaysBeforeMonth(year, month) + MonthLength(year, month) <= DaysBeforeMonth(year, later)
  {
    if month + 1 < later {
      MonthsAreOrdered(year, month, later - 1);
    }
  }

  predicate Before(a: Date, b: Date) {
    a.year < b.year || (a.year == b.year && (a.month < b.month || (a.month == b.month && a.day < b.day)))
  }

  lemma EarlierIsFewerDays(a: Date, b: Date)
    requires Valid(a) && Valid(b) && Before(a, b)
    ensures DaysFromCivil(a) < DaysFromCivil(b)
  {
    if a.year < b.year {
      YearsAreOrdered(a.year, b.year);
      YearLength(a.year);
      MonthsBefore(a.year, a.month);
      MonthsBefore(b.year, b.month);
    } else if a.month < b.month {
      MonthsAreOrdered(a.year, a.month, b.month);
    }
  }

  lemma DaysAreDistinct(a: Date, b: Date)
    requires Valid(a) && Valid(b) && DaysFromCivil(a) == DaysFromCivil(b)
    ensures a == b
  {
    if Before(a, b) {
      EarlierIsFewerDays(a, b);
    } else if Before(b, a) {
      EarlierIsFewerDays(b, a);
    }
  }

  /** And the other way round: every valid date is the date of its own day number. */
  lemma CivilInvertsDays(d: Date, days: int)
    requires Valid(d) && days == DaysFromCivil(d)
    ensures CivilFromDays(days) == d
  {
    CivilIsValid(days);
    DaysInvertsCivil(days);
    DaysAreDistinct(CivilFromDays(days), d);
  }

  /** Whatever inverts the count of days runs through the dates one after another. */
  lemma InverseFollowsCalendar(civil: int -> Date, days: int)
    requires forall n :: Valid(civil(n)) && DaysFromCivil(civil(n)) == n
    ensures civil(days + 1) == NextDay(civil(days))
  {
    NextDayIsOneMore(civil(days));
    DaysAreDistinct(civil(days + 1), NextDay(civil(days)));
  }

  /**
   The algorithm is the calendar: the day after any day, before the epoch or after it, is that date's
   successor; `EpochIsDayZero` says where the count starts.
   */
  lemma CivilIsTheCalendar(days: int)
    ensures CivilFromDays(days + 1) == NextDay(CivilFromDays(days))
  {
    forall n ensures Valid(CivilFromDays(n)) && DaysFromCivil(CivilFromDays(n)) == n {
      CivilIsValid(n);
      DaysInvertsCivil(n);
    }
    InverseFollowsCalendar(CivilFromDays, days);
  }

  lemma EpochIsDayZero()
    ensures CivilFromDays(0) == Date(1970, 1, 1)
  {
    assert YearOfEra(135_080) == 369 && DayOfYear(135_080, 369) == 306;
    assert FromMarch(1969, 306) == Date(1970, 1, 1);
  }

  // -- the header ------------------------------------------------------------------------

  const DAYS: seq<string> := ["Mon", "Tue", "Wed", "Thu", "Fri", "Sat", "Sun"]

  const MONTHS: seq<string> :=
    ["Jan", "Feb", "Mar", "Apr", "May", "Jun", "Jul", "Aug", "Sep", "Oct", "Nov", "Dec"]

  function Digit(n: int): char
    requires 0 <= n < 10
  {
    '0' + n as char
  }

  function Pad2(n: int): (s: string)
    requires 0 <= n < 100
    ensures |s| == 2
  {
    [Digit(n / 10), Digit(n % 10)]
  }

  function Natural(n: nat): (s: string)
    ensures s != ""
  {
    if n < 10 then [Digit(n)] else Natural(n / 10) + [Digit(n % 10)]
  }

  function Decimal(n: int): string {
    if n < 0 then "-" + Natural(-n) else Natural(n)
  }

  /** The day of the week: day 0 was a Thursday, and the names come round every seven days. */
  function Weekday(days: int): string { DAYS[(days + 3) % 7] }

  function DayAfter(name: string): string {
    if name == "Mon" then "Tue" else if name == "Tue" then "Wed" else if name == "Wed" then "Thu"
    else if name == "Thu" then "Fri" else if name == "Fri" then "Sat" else if name == "Sat" then "Sun"
    else "Mon"
  }

  lemma NamedInTurn(j: int)
    requires 0 <= j < 7
    ensures DAYS[(j + 1) % 7] == DayAfter(DAYS[j])
  {
    var name := DAYS[j];
    assert name[0] == DAYS[j][0] && name[1] == DAYS[j][1];
  }

  /** The epoch was a Thursday, and each date is named after the day that follows its predecessor's. */
  lemma WeekdaysGoRound(days: int)
    ensures Weekday(0) == "Thu" && Weekday(days + 1) == DayAfter(Weekday(days))
  {
    NamedInTurn((days + 3) % 7);
    assert (days + 4) % 7 == ((days + 3) % 7 + 1) % 7;
  }

  lemma WeekdayLength(days: int)
    ensures |Weekday(days)| == 3
  {}

  function Clock(secs: int): (s: string)
    requires 0 <= secs < 86_400
    ensures |s| == 8
  {
    Pad2(secs / 3600) + ":" + Pad2((secs % 3600) / 60) + ":" + Pad2(secs % 60)
  }

  /** The part in front of the year: weekday, day of the month, month. */
  function DayPart(days: int): string {
    CivilIsValid(days);
    DaysInvertsCivil(days);
    var d := CivilFromDays(days);
    Weekday(days) + ", " + Pad2(d.day) + " " + MONTHS[d.month - 1] + " "
  }

  function HttpDate(unixMs: int): string {
    var secs := unixMs / 1_000;
    var days := secs / 86_400;
    DayPart(days) + Decimal(CivilFromDays(days).year) + " " + Clock(secs % 86_400) + " GMT"
  }

  // -- reading it back --------------------------------------------------------------------

  /** The number a string of digits stands for. */
  function ReadNumber(s: string): int {
    if s == "" then 0 else 10 * ReadNumber(s[..|s| - 1]) + (s[|s| - 1] as int - '0' as int)
  }

  function ReadInteger(s: string): int {
    if s != "" && s[0] == '-' then -ReadNumber(s[1..]) else ReadNumber(s)
  }

  function MonthNamed(name: string): int {
    if name == "Jan" then 1 else if name == "Feb" then 2 else if name == "Mar" then 3
    else if name == "Apr" then 4 else if name == "May" then 5 else if name == "Jun" then 6
    else if name == "Jul" then 7 else if name == "Aug" then 8 else if name == "Sep" then 9
    else if name == "Oct" then 10 else if name == "Nov" then 11 else if name == "Dec" then 12
    else 0
  }

  lemma PadReads(n: int)
    requires 0 <= n < 100
    ensures ReadNumber(Pad2(n)) == n
  {
    assert Pad2(n)[..1] == [Digit(n / 10)];
    assert ReadNumber([Digit(n / 10)]) == n / 10;
  }

  lemma {:induction false} NaturalReads(n: nat)
    ensures ReadNumber(Natural(n)) == n && Natural(n)[0] != '-'
  {
    if n >= 10 {
      NaturalReads(n / 10);
      assert Natural(n)[..|Natural(n)| - 1] == Natural(n / 10);
    }
  }

  lemma DecimalReads(n: int)
    ensures ReadInteger(Decimal(n)) == n
  {
    NaturalReads(if n < 0 then -n else n);
    assert n < 0 ==> Decimal(n)[1..] == Natural(-n);
  }

  lemma MonthReads(m: int)
    requires 0 <= m < 12
    ensures |MONTHS[m]| == 3 && MonthNamed(MONTHS[m]) == m + 1
  {
    var s := MONTHS[m];
    assert s[0] == MONTHS[m][0] && s[1] == MONTHS[m][1] && s[2] == MONTHS[m][2];
  }

  /** The hour, minute and second stand at their places in the clock. */
  lemma ClockReads(secs: int)
    requires 0 <= secs < 86_400
    ensures var s := Clock(secs);
      && ReadNumber(s[..2]) == secs / 3600
      && ReadNumber(s[3..5]) == secs % 3600 / 60
      && ReadNumber(s[6..]) == secs % 60
  {
    ClockSlices(secs);
    PadReads(secs / 3600);
    PadReads((secs % 3600) / 60);
    PadReads(secs % 60);
  }

  lemma ClockSlices(secs: int)
    requires 0 <= secs < 86_400
    ensures var s := Clock(secs);
      s[..2] == Pad2(secs / 3600) && s[3..5] == Pad2((secs % 3600) / 60) && s[6..] == Pad2(secs % 60)
  {}

  lemma ClockAddsUp(secs: int)
    requires 0 <= secs < 86_400
    ensures secs == 3600 * (secs / 3600) + 60 * ((secs % 3600) / 60) + secs % 60
  {
    assert (secs % 3600) % 60 == secs % 60;
  }

  lemma DayPartSlices(days: int)
    ensures var s, d := DayPart(days), CivilFromDays(days);
      && Valid(d) && |s| == 12
      && s[..3] == Weekday(days) && s[5..7] == Pad2(d.day) && s[8..11] == MONTHS[d.month - 1]
  {
    CivilIsValid(days);
    DaysInvertsCivil(days);
    WeekdayLength(days);
    MonthReads(CivilFromDays(days).month - 1);
  }

  lemma ThreeStretches(front: string, middle: string, back: string)
    requires |front| == 12 && |back| == 8
    ensures var s := front + middle + " " + back + " GMT";
      |s| >= 25 && s[..12] == front && s[12..|s| - 13] == middle && s[|s| - 12..|s| - 4] == back
  {}

  /** The three stretches of the header, whose outer two have a fixed length. */
  lemma HeaderParts(unixMs: int)
    ensures var s, secs := HttpDate(unixMs), unixMs / 1_000;
      && |s| >= 25
      && s[..12] == DayPart(secs / 86_400)
      && s[12..|s| - 13] == Decimal(CivilFromDays(secs / 86_400).year)
      && s[|s| - 12..|s| - 4] == Clock(secs % 86_400)
  {
    var secs := unixMs / 1_000;
    var days := secs / 86_400;
    DayPartSlices(days);
    ThreeStretches(DayPart(days), Decimal(CivilFromDays(days).year), Clock(secs % 86_400));
  }

  /** The date a header names: its day of the month, month and year, wherever the year ends. */
  function ReadDate(s: string): Date
    requires |s| >= 25
  {
    Date(ReadInteger(s[12..|s| - 13]), MonthNamed(s[8..11]), ReadNumber(s[5..7]))
  }

  /** The time of day a header names: the hour, minute and second before the zone. */
  function ReadTime(s: string): int
    requires |s| >= 25
  {
    var clock := s[|s| - 12..|s| - 4];
    3600 * ReadNumber(clock[..2]) + 60 * ReadNumber(clock[3..5]) + ReadNumber(clock[6..])
  }

  lemma DateReads(s: string, days: int)
    requires |s| >= 25 && s[..12] == DayPart(days) && s[12..|s| - 13] == Decimal(CivilFromDays(days).year)
    ensures s[..3] == Weekday(days) && ReadDate(s) == CivilFromDays(days)
  {
    var d := CivilFromDays(days);
    DayPartSlices(days);
    assert s[..3] == s[..12][..3] && s[5..7] == s[..12][5..7] && s[8..11] == s[..12][8..11];
    PadReads(d.day);
    MonthReads(d.month - 1);
    DecimalReads(d.year);
  }

  lemma TimeReads(s: string, time: int)
    requires |s| >= 25 && 0 <= time < 86_400 && s[|s| - 12..|s| - 4] == Clock(time)
    ensures ReadTime(s) == time
  {
    ClockReads(time);
    ClockAddsUp(time);
  }

  /**
   Read back field by field, a header names the weekday, the date and the hour, minute and second of its
   instant; so the second it was written for can be worked out from it.
   */
  lemma HttpDateReadsBack(unixMs: int)
    ensures var s, secs := HttpDate(unixMs), unixMs / 1_000;
      && |s| >= 25
      && s[..3] == Weekday(secs / 86_400) && ReadDate(s) == CivilFromDays(secs / 86_400)
      && (var clock := s[|s| - 12..|s| - 4];
          && ReadNumber(clock[..2]) == secs % 86_400 / 3600
          && ReadNumber(clock[3..5]) == secs % 86_400 % 3600 / 60
          && ReadNumber(clock[6..]) == secs % 86_400 % 60)
      && 86_400 * DaysFromCivil(ReadDate(s)) + ReadTime(s) == secs
  {
    var s, secs := HttpDate(unixMs), unixMs / 1_000;
    HeaderParts(unixMs);
    DateReads(s, secs / 86_400);
    TimeReads(s, secs % 86_400);
    ClockReads(secs % 86_400);
    DaysInvertsCivil(secs / 86_400);
  }

  /** Two instants get the same header exactly when they fall in the same second. */
  lemma HttpDateNamesTheSecond(a: int, b: int)
    ensures HttpDate(a) == HttpDate(b) <==> a / 1_000 == b / 1_000
  {
    HttpDateReadsBack(a);
    HttpDateReadsBack(b);
  }

  // -- its shape ----------------------------------------------------------------------------

  predicate IsDigit(c: char) { '0' <= c <= '9' }

  predicate TwoDigits(s: string) { |s| == 2 && IsDigit(s[0]) && IsDigit(s[1]) }

  /** `day-name "," SP day SP month SP year SP hour ":" minute ":" second SP "GMT"`, 29 characters. */
  predicate IsFixdate(s: string) {
    && |s| == 29
    && s[..3] in DAYS && s[3..5] == ", "
    && TwoDigits(s[5..7]) && s[7] == ' ' && s[8..11] in MONTHS && s[11] == ' '
    && TwoDigits(s[12..14]) && TwoDigits(s[14..16]) && s[16] == ' '
    && TwoDigits(s[17..19]) && s[19] == ':' && TwoDigits(s[20..22]) && s[22] == ':' && TwoDigits(s[23..25])
    && s[25..] == " GMT"
  }

  lemma {:induction false} NaturalIsDigits(n: nat)
    ensures forall c :: c in Natural(n) ==> IsDigit(c)
  {
    if n >= 10 {
      NaturalIsDigits(n / 10);
    }
  }

  /** The number of digits, up to four. */
  lemma {:induction false} NaturalWidth(n: nat)
    ensures |Natural(n)| == 1 <==> n < 10
    ensures |Natural(n)| == 2 <==> 10 <= n < 100
    ensures |Natural(n)| == 3 <==> 100 <= n < 1_000
    ensures |Natural(n)| == 4 <==> 1_000 <= n < 10_000
  {
    if n >= 10 {
      NaturalWidth(n / 10);
    }
  }

  lemma FourDigitsExactly(year: int)
    ensures var y := Decimal(year);
      |y| == 4 && TwoDigits(y[..2]) && TwoDigits(y[2..]) <==> 1_000 <= year <= 9_999
    ensures |Decimal(year)| == 4 <==> 1_000 <= year <= 9_999 || -999 <= year <= -100
  {
    var y := Decimal(year);
    NaturalWidth(if year < 0 then -year else year);
    NaturalIsDigits(if year < 0 then -year else year);
    if 1_000 <= year <= 9_999 {
      assert y[..2][0] == y[0] && y[..2][1] == y[1] && y[2..][0] == y[2] && y[2..][1] == y[3];
      assert y[0] in y && y[1] in y && y[2] in y && y[3] in y;
    } else if year < 0 && |y| == 4 {
      assert y[..2][0] == '-';
    }
  }

  lemma DayPartShape(days: int)
    ensures var s := DayPart(days);
      && |s| == 12 && s[..3] in DAYS && s[3..5] == ", " && TwoDigits(s[5..7]) && s[7] == ' '
      && s[8..11] in MONTHS && s[11] == ' '
  {
    DayPartSlices(days);
    WeekdayLength(days);
    var s := DayPart(days);
    assert s[..3] == Weekday(days);
    assert s[5..7] == Pad2(CivilFromDays(days).day);
  }

  lemma ClockShape(secs: int)
    requires 0 <= secs < 86_400
    ensures var s := Clock(secs);
      TwoDigits(s[..2]) && s[2] == ':' && TwoDigits(s[3..5]) && s[5] == ':' && TwoDigits(s[6..])
  {
    ClockSlices(secs);
  }

  lemma FixdateStretches(front: string, year: string, clock: string)
    requires |front| == 12 && |clock| == 8
    requires front[..3] in DAYS && front[3..5] == ", " && TwoDigits(front[5..7]) && front[7] == ' '
    requires front[8..11] in MONTHS && front[11] == ' '
    requires TwoDigits(clock[..2]) && clock[2] == ':' && TwoDigits(clock[3..5])
    requires clock[5] == ':' && TwoDigits(clock[6..])
    ensures var s := front + year + " " + clock + " GMT";
      && |s| == 25 + |year|
      && (IsFixdate(s) <==> |year| == 4 && TwoDigits(year[..2]) && TwoDigits(year[2..]))
  {
    var s := front + year + " " + clock + " GMT";
    assert s[..12] == front;
    assert front[..3] == s[..3] && front[3..5] == s[3..5] && front[5..7] == s[5..7] && front[8..11] == s[8..11];
    if |year| == 4 {
      assert s[12..14] == year[..2] && s[14..16] == year[2..];
      assert s[17..19] == clock[..2] && s[20..22] == clock[3..5] && s[23..25] == clock[6..];
      assert s[25..] == " GMT";
    }
  }

  /**
   The year is written without padding, so the header is the 29-character IMF-fixdate exactly in the years
   1000 to 9999; it is as long, with a sign in place of a digit, in three-digit years before year 0.
   */
  lemma HttpDateIsFixdate(unixMs: int)
    ensures var year := CivilFromDays(unixMs / 1_000 / 86_400).year;
      && (IsFixdate(HttpDate(unixMs)) <==> 1_000 <= year <= 9_999)
      && (|HttpDate(unixMs)| == 29 <==> 1_000 <= year <= 9_999 || -999 <= year <= -100)
  {
    var secs := unixMs / 1_000;
    var days := secs / 86_400;
    DayPartShape(days);
    ClockShape(secs % 86_400);
    FourDigitsExactly(CivilFromDays(days).year);
    FixdateStretches(DayPart(days), Decimal(CivilFromDays(days).year), Clock(secs % 86_400));
  }
}
