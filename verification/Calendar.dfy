/** src/event_log.h: epoch seconds to civil time and to RFC 3339 stamps. */
module Calendar {

  const EPOCHS := 0x1_0000_0000

  datatype Civil = Civil(year: int, month: int, day: int, hour: int, minute: int, second: int)

  // -------------------------------------------------- the proleptic Gregorian calendar

  predicate IsLeap(y: int) {
    y % 4 == 0 && (y % 100 != 0 || y % 400 == 0)
  }

  function YearLength(y: int): int {
    if IsLeap(y) then 366 else 365
  }

  function MonthLength(y: int, m: int): int {
    if m == 2 then (if IsLeap(y) then 29 else 28)
    else if m == 4 || m == 6 || m == 9 || m == 11 then 30 else 31
  }

  /** Days from 1970-01-01 to the first of January of year y. */
  function DaysToYear(y: int): int
    requires y >= 1970
    decreases y
  {
    if y == 1970 then 0 else DaysToYear(y - 1) + YearLength(y - 1)
  }

  /** Days from the first of January to the first of month m. */
  function DaysToMonth(y: int, m: int): int
    requires 1 <= m <= 12
    decreases m
  {
    if m == 1 then 0 else DaysToMonth(y, m - 1) + MonthLength(y, m - 1)
  }

  predicate ValidCivil(t: Civil) {
    && t.year >= 1970 && 1 <= t.month <= 12 && 1 <= t.day <= MonthLength(t.year, t.month)
    && 0 <= t.hour < 24 && 0 <= t.minute < 60 && 0 <= t.second < 60
  }

  function DaysTo(t: Civil): int
    requires t.year >= 1970 && 1 <= t.month <= 12
  {
    DaysToYear(t.year) + DaysToMonth(t.year, t.month) + t.day - 1
  }

  /** Counting: seconds from the epoch to t. */
  function Seconds(t: Civil): int
    requires t.year >= 1970 && 1 <= t.month <= 12
  {
    DaysTo(t) * 86400 + t.hour * 3600 + t.minute * 60 + t.second
  }

  // ------------------------------------------------------------------- the algorithm

  /** civilFromEpoch(). */
  function CivilFromEpoch(epoch: nat): Civil
    requires epoch < EPOCHS
  {
    var z := epoch / 86400 + 719468;
    var era := z / 146097;
    var doe := z - era * 146097;
    var yoe := YearFormula(doe);
    var y := yoe + era * 400;
    var doy := doe - (365 * yoe + yoe / 4 - yoe / 100);
    var mp := (5 * doy + 2) / 153;
    var day := doy - (153 * mp + 2) / 5 + 1;
    var month := if mp < 10 then mp + 3 else mp - 9;
    var rem := epoch % 86400;
    Civil(if month <= 2 then y + 1 else y, month, day, rem / 3600, rem % 3600 / 60, rem % 3600 % 60)
  }

  /** Days before the first of March of year y of a 400-year era. */
  function MarchYear(y: int): int {
    365 * y + y / 4 - y / 100
  }

  function YearFormula(doe: int): int {
    (doe - doe / 1460 + doe / 36524 - doe / 146096) / 365
  }

  function One(b: bool): int { if b then 1 else 0 }

  lemma Quarter(x: int)
    ensures (x + 1) / 4 == x / 4 + One((x + 1) % 4 == 0)
  {
  }

  lemma Century(x: int)
    ensures (x + 1) / 100 == x / 100 + One((x + 1) % 100 == 0)
  {
  }

  lemma Era(x: int)
    ensures (x + 1) / 400 == x / 400 + One((x + 1) % 400 == 0)
  {
  }

  lemma LeapCount(x: int)
    ensures One(IsLeap(x)) == One(x % 4 == 0) - One(x % 100 == 0) + One(x % 400 == 0)
  {
    assert x % 100 == 0 ==> x % 4 == 0 by { if x % 100 == 0 { assert x == 4 * (25 * (x / 100)); } }
    assert x % 400 == 0 ==> x % 100 == 0 by { if x % 400 == 0 { assert x == 100 * (4 * (x / 400)); } }
  }

  /** Day d of March year y of an era. */
  predicate InYear(y: int, d: int) {
    0 <= y < 400 && 0 <= d <= 365 && (d == 365 ==> IsLeap(y + 1))
  }

  /** Every day of an era is a day of one of its March years. */
  lemma {:induction false} YearExists(doe: int) returns (y: int, d: int)
    requires 0 <= doe < 146097
    ensures InYear(y, d) && doe == MarchYear(y) + d
    decreases doe
  {
    hide IsLeap;
    if doe == 0 {
      return 0, 0;
    }
    y, d := YearExists(doe - 1);
    LeapCount(y + 1);
    Quarter(y);
    Century(y);
    if d < 364 || (d == 364 && IsLeap(y + 1)) {
      d := d + 1;
    } else {
      LastYear(y, d);
      y, d := y + 1, 0;
    }
  }

  lemma LastYear(y: int, d: int)
    requires InYear(y, d) && d >= 364 && (d == 364 ==> !IsLeap(y + 1)) && MarchYear(y) + d < 146096
    ensures y < 399
  {
  }

  /** The year-of-era formula inverts the March year starts. */
  lemma FormulaAt(y: int, d: int)
    requires InYear(y, d)
    ensures YearFormula(MarchYear(y) + d) == y
  {
    hide IsLeap;
    var doe := MarchYear(y) + d;
    var a, e, b, f := y / 4, y % 4, y / 100, y % 100;
    QuartersInCentury(y);
    LongYears(y, d);
    CenturyDivision(doe, b, 365 * f + f / 4 + d);
    QuarterDivision(doe, a, a + 365 * e - b + d);
    YearDivision(doe - doe / 1460 + b, y, d - One(a + 365 * e - b + d >= 1460));
  }

  /** Only a leap year to come has a 366th day: the last of its four, and of its century only
      in the last century. */
  lemma LongYears(y: int, d: int)
    requires InYear(y, d)
    ensures d == 365 ==> y % 4 == 3 && (y % 100 == 99 ==> y / 100 == 3)
  {
  }

  lemma YearDivision(x: int, y: int, r: int)
    requires x == 365 * y + r && 0 <= r < 365
    ensures x / 365 == y
  {
  }

  /** y = 4a + e = 100b + f. */
  lemma QuartersInCentury(y: int)
    requires 0 <= y < 400
    ensures y / 4 == 25 * (y / 100) + y % 100 / 4 && y / 100 <= 3 && y % 100 <= 99
  {
  }

  lemma CenturyDivision(doe: int, b: int, r: int)
    requires doe == 36524 * b + r && 0 <= b <= 3 && 0 <= r <= 36524 && (r == 36524 ==> b == 3)
    ensures doe / 36524 - doe / 146096 == b
  {
  }

  lemma QuarterDivision(doe: int, a: int, r: int)
    requires doe == 1460 * a + r && 0 <= r < 2920
    ensures doe / 1460 == a + One(r >= 1460)
  {
  }

  lemma YearOfEra(doe: int)
    requires 0 <= doe < 146097
    ensures var y := YearFormula(doe); InYear(y, doe - MarchYear(y))
  {
    hide InYear, YearFormula, MarchYear;
    var y, d := YearExists(doe);
    FormulaAt(y, d);
  }

  /** The month formula inverts the month starts of a March year. */
  lemma MonthOfYear(doy: int)
    requires 0 <= doy <= 365
    ensures var mp := (5 * doy + 2) / 153;
            && 0 <= mp <= 11 && (153 * mp + 2) / 5 <= doy
            && (mp < 11 ==> doy < (153 * (mp + 1) + 2) / 5)
  {
  }

  /** Closed form of the count of days to a year. */
  lemma {:induction false} DaysToYearIs(y: int)
    requires y >= 1970
    ensures DaysToYear(y) == 365 * (y - 1970) + (y - 1) / 4 - (y - 1) / 100 + (y - 1) / 400 - 477
    decreases y
  {
    hide IsLeap;
    if y > 1970 {
      DaysToYearIs(y - 1);
      LeapCount(y - 1);
      Quarter(y - 2);
      Century(y - 2);
      Era(y - 2);
    }
  }

  /** Month starts, counted from January and from March. */
  lemma DaysToMonthIs(y: int, m: int)
    requires 1 <= m <= 12
    ensures DaysToMonth(y, m) == if m == 1 then 0 else if m == 2 then 31
                                 else 59 + (if IsLeap(y) then 1 else 0) + (153 * (m - 3) + 2) / 5
  {
    hide IsLeap;
    assert DaysToMonth(y, 1) == 0;
    assert DaysToMonth(y, 2) == 31;
    assert DaysToMonth(y, 3) == 31 + MonthLength(y, 2);
    if m > 3 {
      assert DaysToMonth(y, 4) == DaysToMonth(y, 3) + 31;
      assert DaysToMonth(y, 5) == DaysToMonth(y, 4) + 30;
      assert DaysToMonth(y, 6) == DaysToMonth(y, 5) + 31;
      assert DaysToMonth(y, 7) == DaysToMonth(y, 6) + 30;
      assert DaysToMonth(y, 8) == DaysToMonth(y, 7) + 31;
      assert DaysToMonth(y, 9) == DaysToMonth(y, 8) + 31;
      assert DaysToMonth(y, 10) == DaysToMonth(y, 9) + 30;
      assert DaysToMonth(y, 11) == DaysToMonth(y, 10) + 31;
      assert DaysToMonth(y, 12) == DaysToMonth(y, 11) + 30;
    }
  }

  // --------------------------------------------------------------- exactly the inverse

  /** Days from 0000-03-01 to day doy of March year y. */
  function MarchDays(y: int, doy: int): int {
    365 * y + y / 4 - y / 100 + y / 400 + doy
  }

  lemma EraShift(y: int, era: int, doy: int)
    requires 0 <= y < 400
    ensures MarchDays(y + 400 * era, doy) == 146097 * era + MarchYear(y) + doy
    ensures IsLeap(y + 400 * era + 1) == IsLeap(y + 1)
  {
    QuotientShift(y, 4, 100 * era);
    QuotientShift(y, 100, 4 * era);
    QuotientShift(y, 400, era);
    QuotientShift(y + 1, 4, 100 * era);
    QuotientShift(y + 1, 100, 4 * era);
    QuotientShift(y + 1, 400, era);
  }

  /** Whole multiples leave the remainder and move the quotient. */
  lemma QuotientShift(x: int, d: int, k: int)
    requires d == 4 || d == 100 || d == 400
    ensures (x + d * k) / d == x / d + k && (x + d * k) % d == x % d
  {
  }

  function MarchMonth(doy: int): int {
    (5 * doy + 2) / 153
  }

  /** The civil date of day doy of March year y. */
  function DateOf(y: int, doy: int, hour: int, minute: int, second: int): Civil {
    var mp := MarchMonth(doy);
    var month := if mp < 10 then mp + 3 else mp - 9;
    Civil(if month <= 2 then y + 1 else y, month, doy - (153 * mp + 2) / 5 + 1, hour, minute, second)
  }

  lemma DateCounts(y: int, doy: int, hour: int, minute: int, second: int)
    requires 0 <= doy <= 365 && (y >= 1970 || (y == 1969 && doy >= 306))
    ensures var t := DateOf(y, doy, hour, minute, second);
            1 <= t.month <= 12 && t.year >= 1970 && DaysTo(t) == MarchDays(y, doy) - 719468
  {
    hide IsLeap, DaysToYear, DaysToMonth;
    var t := DateOf(y, doy, hour, minute, second);
    MonthOfYear(doy);
    DaysToYearIs(t.year);
    DaysToMonthIs(t.year, t.month);
    if t.month > 2 {
      LeapCount(y);
      Quarter(y - 1);
      Century(y - 1);
      Era(y - 1);
    }
  }

  lemma DateIsValid(y: int, doy: int, hour: int, minute: int, second: int)
    requires 0 <= doy <= 365 && (y >= 1970 || (y == 1969 && doy >= 306)) && (doy == 365 ==> IsLeap(y + 1))
    requires 0 <= hour < 24 && 0 <= minute < 60 && 0 <= second < 60
    ensures ValidCivil(DateOf(y, doy, hour, minute, second))
  {
    hide IsLeap;
    MonthOfYear(doy);
  }

  /** The source's expression is the date of a March year. */
  lemma CivilIsDate(epoch: nat)
    requires epoch < EPOCHS
    ensures var z := epoch / 86400 + 719468;
            var era, doe := z / 146097, z % 146097;
            var rem := epoch % 86400;
            CivilFromEpoch(epoch) ==
              DateOf(YearFormula(doe) + era * 400, doe - MarchYear(YearFormula(doe)),
                     rem / 3600, rem % 3600 / 60, rem % 3600 % 60)
  {
    hide YearFormula;
    var z := epoch / 86400 + 719468;
    assert z - z / 146097 * 146097 == z % 146097;
  }

  /** No day at or after the epoch is before 1970. */
  lemma NotBefore1970(y: int, doy: int)
    requires 0 <= doy <= 365 && MarchDays(y, doy) >= 719468
    ensures y >= 1970 || (y == 1969 && doy >= 306)
  {
  }

  /** Every epoch comes out as a date of the calendar, the one that counts back to it. */
  lemma CivilCountsBack(epoch: nat)
    requires epoch < EPOCHS
    ensures ValidCivil(CivilFromEpoch(epoch)) && Seconds(CivilFromEpoch(epoch)) == epoch
  {
    hide YearFormula, IsLeap, DaysToYear, DaysToMonth, DateOf, MarchYear, MarchDays, CivilFromEpoch;
    var z := epoch / 86400 + 719468;
    var era, doe, rem := z / 146097, z % 146097, epoch % 86400;
    var yoe := YearFormula(doe);
    var doy := doe - MarchYear(yoe);
    YearOfEra(doe);
    EraShift(yoe, era, doy);
    NotBefore1970(yoe + 400 * era, doy);
    DateCounts(yoe + 400 * era, doy, rem / 3600, rem % 3600 / 60, rem % 3600 % 60);
    DateIsValid(yoe + 400 * era, doy, rem / 3600, rem % 3600 / 60, rem % 3600 % 60);
    DateClock(yoe + 400 * era, doy, rem / 3600, rem % 3600 / 60, rem % 3600 % 60);
    CivilIsDate(epoch);
  }

  lemma DateClock(y: int, doy: int, hour: int, minute: int, second: int)
    ensures var t := DateOf(y, doy, hour, minute, second); t.hour == hour && t.minute == minute && t.second == second
  {
  }

  // ------------------------------------------------------------------ order of the stamps

  /** Earlier by year, then month, day, hour, minute, second. */
  predicate Earlier(t: Civil, u: Civil) {
    if t.year != u.year then t.year < u.year
    else if t.month != u.month then t.month < u.month
    else if t.day != u.day then t.day < u.day
    else if t.hour != u.hour then t.hour < u.hour
    else if t.minute != u.minute then t.minute < u.minute
    else t.second < u.second
  }

  lemma {:induction false} YearsInOrder(y: int, z: int)
    requires 1970 <= y < z
    ensures DaysToYear(y) + YearLength(y) <= DaysToYear(z)
    decreases z
  {
    hide IsLeap;
    if y + 1 < z { YearsInOrder(y, z - 1); }
  }

  lemma {:induction false} MonthsInOrder(y: int, m: int, n: int)
    requires 1 <= m < n <= 12
    ensures DaysToMonth(y, m) + MonthLength(y, m) <= DaysToMonth(y, n)
    decreases n
  {
    hide IsLeap;
    if m + 1 < n { MonthsInOrder(y, m, n - 1); }
  }

  lemma WithinYear(t: Civil)
    requires ValidCivil(t)
    ensures 0 <= DaysToMonth(t.year, t.month) + t.day - 1 < YearLength(t.year)
  {
    DaysToMonthIs(t.year, t.month);
  }

  /** Counting respects the order of dates. */
  lemma SecondsInOrder(t: Civil, u: Civil)
    requires ValidCivil(t) && ValidCivil(u) && Earlier(t, u)
    ensures Seconds(t) < Seconds(u)
  {
    hide IsLeap, DaysToYear, DaysToMonth, MonthLength, YearLength;
    if t.year != u.year {
      YearsInOrder(t.year, u.year);
      WithinYear(t);
      WithinYear(u);
    } else if t.month != u.month {
      MonthsInOrder(t.year, t.month, u.month);
    }
  }

  /** The conversion undoes the count on every date of the calendar it can reach. */
  lemma CountThenCivil(t: Civil)
    requires ValidCivil(t) && 0 <= Seconds(t) < EPOCHS
    ensures CivilFromEpoch(Seconds(t)) == t
  {
    hide Seconds, CivilFromEpoch, IsLeap, MonthLength;
    var u := CivilFromEpoch(Seconds(t));
    CivilCountsBack(Seconds(t));
    if Earlier(t, u) { SecondsInOrder(t, u); }
    if Earlier(u, t) { SecondsInOrder(u, t); }
    EarlierIsTotal(t, u);
  }

  lemma EarlierIsTotal(t: Civil, u: Civil)
    ensures Earlier(t, u) || Earlier(u, t) || t == u
  {
  }

  lemma EpochsInOrder(a: nat, b: nat)
    requires a < b < EPOCHS
    ensures Earlier(CivilFromEpoch(a), CivilFromEpoch(b))
  {
    hide Seconds, CivilFromEpoch, ValidCivil;
    var t, u := CivilFromEpoch(a), CivilFromEpoch(b);
    CivilCountsBack(a);
    CivilCountsBack(b);
    EarlierIsTotal(t, u);
    if Earlier(u, t) { SecondsInOrder(u, t); }
  }

  // -------------------------------------------------------------------------- the stamp

  function Digit(n: int): (c: char)
    requires 0 <= n < 10
  {
    '0' + n as char
  }

  /** The w low decimal digits of n. */
  function Digits(n: int, w: nat): (s: string)
    requires n >= 0
    ensures |s| == w
    decreases w
  {
    if w == 0 then "" else Digits(n / 10, w - 1) + [Digit(n % 10)]
  }

  function DatePart(t: Civil): (s: string)
    requires ValidCivil(t)
    ensures |s| == 11
  {
    Digits(t.year, 4) + "-" + Digits(t.month, 2) + "-" + Digits(t.day, 2) + "T"
  }

  function ClockPart(t: Civil): (s: string)
    requires ValidCivil(t)
    ensures |s| == 9
  {
    Digits(t.hour, 2) + ":" + Digits(t.minute, 2) + ":" + Digits(t.second, 2) + "Z"
  }

  /** YYYY-MM-DDTHH:MM:SSZ. */
  function Stamp(t: Civil): (s: string)
    requires ValidCivil(t)
    ensures |s| == 20
  {
    DatePart(t) + ClockPart(t)
  }

  /** Lexicographic order of strings of equal length. */
  ghost predicate Before(s: string, t: string) {
    |s| == |t| && exists i :: 0 <= i < |s| && s[..i] == t[..i] && s[i] < t[i]
  }

  lemma BeforeInside(p: string, s: string, t: string, x: string, y: string)
    requires Before(s, t) && |x| == |y|
    ensures Before(p + s + x, p + t + y)
  {
    var i :| 0 <= i < |s| && s[..i] == t[..i] && s[i] < t[i];
    var a, b := p + s + x, p + t + y;
    assert a[..|p| + i] == p + s[..i] && b[..|p| + i] == p + t[..i];
    assert a[|p| + i] == s[i] && b[|p| + i] == t[i];
  }

  function Power10(w: nat): nat {
    if w == 0 then 1 else 10 * Power10(w - 1)
  }

  lemma {:induction false} DigitsInOrder(m: nat, n: nat, w: nat)
    requires m < n < Power10(w)
    ensures Before(Digits(m, w), Digits(n, w))
    decreases w
  {
    hide Digit, Before;
    var p, q := Digits(m / 10, w - 1), Digits(n / 10, w - 1);
    var a, b := [Digit(m % 10)], [Digit(n % 10)];
    if m / 10 < n / 10 {
      DigitsInOrder(m / 10, n / 10, w - 1);
      StampSplits("", p, a, q, b, Digits(m, w), Digits(n, w));
    } else {
      DigitInOrder(m % 10, n % 10);
      StampSplits(p, a, "", b, "", Digits(m, w), Digits(n, w));
    }
  }

  lemma DigitInOrder(i: nat, j: nat)
    requires i < j < 10
    ensures Before([Digit(i)], [Digit(j)])
  {
    var a, b := [Digit(i)], [Digit(j)];
    assert a[..0] == b[..0] && a[0] < b[0];
  }

  /** The number a string of decimal digits stands for. */
  function Number(s: string): int {
    if s == [] then 0 else 10 * Number(s[..|s| - 1]) + (s[|s| - 1] as int - '0' as int)
  }

  predicate Decimal(s: string) {
    forall i :: 0 <= i < |s| ==> '0' <= s[i] <= '9'
  }

  lemma {:induction false} DigitsReadBack(n: nat, w: nat)
    requires n < Power10(w)
    ensures Decimal(Digits(n, w)) && Number(Digits(n, w)) == n
    decreases w
  {
    if w > 0 { DigitsReadBack(n / 10, w - 1); }
  }

  /** Where a stamp's fields stand, and what they read. */
  ghost predicate Reads(s: string, t: Civil) {
    && |s| == 20 && s[4] == s[7] == '-' && s[10] == 'T' && s[13] == s[16] == ':' && s[19] == 'Z'
    && Field4(s, 0, t.year) && Field2(s, 5, t.month) && Field2(s, 8, t.day)
    && Field2(s, 11, t.hour) && Field2(s, 14, t.minute) && Field2(s, 17, t.second)
  }

  predicate Field4(s: string, at: nat, n: int) {
    at + 4 <= |s| && Decimal(s[at..at + 4]) && Number(s[at..at + 4]) == n
  }

  predicate Field2(s: string, at: nat, n: int) {
    at + 2 <= |s| && Decimal(s[at..at + 2]) && Number(s[at..at + 2]) == n
  }

  /** A stamp reads back as the date and time it was made from, in UTC and ISO 8601 order. */
  lemma StampReadsBack(epoch: nat)
    requires 0 < epoch < EPOCHS
    ensures var t := CivilFromEpoch(epoch); ValidCivil(t) && Reads(Stamp(t), t) && Seconds(t) == epoch
  {
    hide CivilFromEpoch, Stamp, Reads, Seconds, MonthLength, DaysTo;
    YearFits(epoch);
    CivilCountsBack(epoch);
    StampReads(CivilFromEpoch(epoch));
  }

  lemma StampReads(t: Civil)
    requires ValidCivil(t) && t.year < 10000
    ensures Reads(Stamp(t), t)
  {
    hide Digits, Number, Decimal, Power10, MonthLength;
    TwoDigits();
    DaysFit(t);
    DigitsReadBack(t.year, 4);
    DigitsReadBack(t.month, 2);
    DigitsReadBack(t.day, 2);
    DigitsReadBack(t.hour, 2);
    DigitsReadBack(t.minute, 2);
    DigitsReadBack(t.second, 2);
    var s := Stamp(t);
    assert s[0..4] == Digits(t.year, 4) && s[5..7] == Digits(t.month, 2) && s[8..10] == Digits(t.day, 2);
    assert s[11..13] == Digits(t.hour, 2) && s[14..16] == Digits(t.minute, 2) && s[17..19] == Digits(t.second, 2);
  }

  lemma TwoDigits()
    ensures Power10(2) == 100 && Power10(4) == 10000
  {
    assert Power10(4) == 10 * (10 * Power10(2));
  }

  lemma YearFits(epoch: nat)
    requires epoch < EPOCHS
    ensures var t := CivilFromEpoch(epoch); ValidCivil(t) && t.year < 10000
  {
    hide IsLeap, DaysToYear, DaysToMonth, MonthLength, CivilFromEpoch, YearLength;
    var t := CivilFromEpoch(epoch);
    CivilCountsBack(epoch);
    WithinYear(t);
    DaysToYearIs(t.year);
  }

  lemma DaysFit(t: Civil)
    requires ValidCivil(t)
    ensures t.month < 100 && t.day < 100
  {
  }

  lemma DatesFollow(t: Civil, u: Civil)
    requires ValidCivil(t) && ValidCivil(u) && t.year < 10000 && u.year < 10000 && Earlier(t, u)
    requires t.year != u.year || t.month != u.month || t.day != u.day
    ensures Before(DatePart(t), DatePart(u))
  {
    hide Digits, Before, Power10, MonthLength;
    TwoDigits();
    DaysFit(t);
    DaysFit(u);
    var ty, tm, td := Digits(t.year, 4), Digits(t.month, 2), Digits(t.day, 2);
    var uy, um, ud := Digits(u.year, 4), Digits(u.month, 2), Digits(u.day, 2);
    if t.year != u.year {
      DigitsInOrder(t.year, u.year, 4);
      StampSplits("", ty, "-" + tm + "-" + td + "T", uy, "-" + um + "-" + ud + "T", DatePart(t), DatePart(u));
    } else if t.month != u.month {
      DigitsInOrder(t.month, u.month, 2);
      StampSplits(ty + "-", tm, "-" + td + "T", um, "-" + ud + "T", DatePart(t), DatePart(u));
    } else {
      DigitsInOrder(t.day, u.day, 2);
      StampSplits(ty + "-" + tm + "-", td, "T", ud, "T", DatePart(t), DatePart(u));
    }
  }

  lemma ClocksFollow(t: Civil, u: Civil)
    requires ValidCivil(t) && ValidCivil(u) && Earlier(t, u)
    requires t.year == u.year && t.month == u.month && t.day == u.day
    ensures Before(ClockPart(t), ClockPart(u))
  {
    hide Digits, Before, Power10, MonthLength;
    TwoDigits();
    var th, tn, ts := Digits(t.hour, 2), Digits(t.minute, 2), Digits(t.second, 2);
    var uh, un, us := Digits(u.hour, 2), Digits(u.minute, 2), Digits(u.second, 2);
    if t.hour != u.hour {
      DigitsInOrder(t.hour, u.hour, 2);
      StampSplits("", th, ":" + tn + ":" + ts + "Z", uh, ":" + un + ":" + us + "Z", ClockPart(t), ClockPart(u));
    } else if t.minute != u.minute {
      DigitsInOrder(t.minute, u.minute, 2);
      StampSplits(th + ":", tn, ":" + ts + "Z", un, ":" + us + "Z", ClockPart(t), ClockPart(u));
    } else {
      DigitsInOrder(t.second, u.second, 2);
      StampSplits(th + ":" + tn + ":", ts, "Z", us, "Z", ClockPart(t), ClockPart(u));
    }
  }

  /** The field where two dates first differ orders their stamps. */
  lemma StampsFollow(t: Civil, u: Civil)
    requires ValidCivil(t) && ValidCivil(u) && t.year < 10000 && u.year < 10000 && Earlier(t, u)
    ensures Before(Stamp(t), Stamp(u))
  {
    hide Before, DatePart, ClockPart, MonthLength;
    if t.year != u.year || t.month != u.month || t.day != u.day {
      DatesFollow(t, u);
      StampSplits("", DatePart(t), ClockPart(t), DatePart(u), ClockPart(u), Stamp(t), Stamp(u));
    } else {
      ClocksFollow(t, u);
      SameDate(t, u);
      StampSplits(DatePart(t), ClockPart(t), "", ClockPart(u), "", Stamp(t), Stamp(u));
    }
  }

  lemma SameDate(t: Civil, u: Civil)
    requires ValidCivil(t) && ValidCivil(u) && t.year == u.year && t.month == u.month && t.day == u.day
    ensures DatePart(t) == DatePart(u)
  {
  }

  lemma StampSplits(p: string, s: string, x: string, t: string, y: string, a: string, b: string)
    requires a == p + s + x && b == p + t + y && |x| == |y| && Before(s, t)
    ensures Before(a, b)
  {
    BeforeInside(p, s, t, x, y);
  }

  /** Stamps of nonzero epochs sort as the epochs do. */
  lemma StampsInOrder(a: nat, b: nat)
    requires 0 < a < b < EPOCHS
    ensures ValidCivil(CivilFromEpoch(a)) && ValidCivil(CivilFromEpoch(b))
    ensures Before(Stamp(CivilFromEpoch(a)), Stamp(CivilFromEpoch(b)))
  {
    hide CivilFromEpoch, ValidCivil, Stamp, Before;
    YearFits(a);
    YearFits(b);
    EpochsInOrder(a, b);
    StampsFollow(CivilFromEpoch(a), CivilFromEpoch(b));
  }

  lemma BeforeIsStrict(s: string, t: string)
    requires Before(s, t)
    ensures s != t
  {
  }

  /** And so no two of them are the same. */
  lemma StampsDiffer(a: nat, b: nat)
    requires 0 < a < EPOCHS && 0 < b < EPOCHS && a != b
    ensures ValidCivil(CivilFromEpoch(a)) && ValidCivil(CivilFromEpoch(b))
    ensures Stamp(CivilFromEpoch(a)) != Stamp(CivilFromEpoch(b))
  {
    hide CivilFromEpoch, ValidCivil, Stamp, Before;
    if a < b {
      StampsInOrder(a, b);
      BeforeIsStrict(Stamp(CivilFromEpoch(a)), Stamp(CivilFromEpoch(b)));
    } else {
      StampsInOrder(b, a);
      BeforeIsStrict(Stamp(CivilFromEpoch(b)), Stamp(CivilFromEpoch(a)));
    }
  }

  method PutTwo(out: array<char>, at: nat, v: nat)
    requires at + 2 <= out.Length && v < 100
    modifies out
    ensures out[at..at + 2] == Digits(v, 2) && out[..at] == old(out[..at]) && out[at + 2..] == old(out[at + 2..])
  {
    TwoOf(v);
    out[at], out[at + 1] := Digit(v / 10 % 10), Digit(v % 10);
  }

  lemma TwoOf(v: nat)
    ensures Digits(v, 2) == [Digit(v / 10 % 10), Digit(v % 10)]
  {
    assert Digits(v / 10, 1) == Digits(v / 10 / 10, 0) + [Digit(v / 10 % 10)];
  }

  lemma FourOf(v: nat)
    ensures Digits(v, 4) == [Digit(v / 1000 % 10), Digit(v / 100 % 10), Digit(v / 10 % 10), Digit(v % 10)]
  {
    hide Digit;
    TwoOf(v / 100);
    assert v / 10 / 10 == v / 100 && v / 100 / 10 == v / 1000;
    assert Digits(v, 4) == Digits(v / 10, 3) + [Digit(v % 10)];
    assert Digits(v / 10, 3) == Digits(v / 10 / 10, 2) + [Digit(v / 10 % 10)];
  }

  /** formatIso8601(): refused without room; the unset clock leaves an empty string. */
  method FormatIso8601(out: array<char>, size: nat, epoch: nat) returns (ok: bool)
    requires epoch < EPOCHS && size <= out.Length
    modifies out
    ensures ok <==> size >= 21
    ensures !ok ==> out[..] == old(out[..])
    ensures ok && epoch == 0 ==> out[0] == '\0' && out[1..] == old(out[1..])
    ensures ok && epoch > 0 ==>
              ValidCivil(CivilFromEpoch(epoch)) && out[..20] == Stamp(CivilFromEpoch(epoch)) && out[20] == '\0'
  {
    hide CivilFromEpoch, Digits, Digit, MonthLength;
    if size < 21 { return false; }
    if epoch == 0 {
      out[0] := '\0';
      return true;
    }
    YearFits(epoch);
    var t := CivilFromEpoch(epoch);
    DaysFit(t);
    FourOf(t.year);
    out[0], out[1] := Digit(t.year / 1000 % 10), Digit(t.year / 100 % 10);
    out[2], out[3] := Digit(t.year / 10 % 10), Digit(t.year % 10);
    out[4] := '-';
    assert out[..5] == Digits(t.year, 4) + "-";
    Field(out, 5, t.month, '-');
    Field(out, 8, t.day, 'T');
    Field(out, 11, t.hour, ':');
    Field(out, 14, t.minute, ':');
    Field(out, 17, t.second, 'Z');
    out[20] := '\0';
    ok := true;
  }

  /** Two digits and the separator after them. */
  method Field(out: array<char>, at: nat, v: nat, separator: char)
    requires at + 3 <= out.Length && v < 100
    modifies out
    ensures out[..at + 3] == old(out[..at]) + Digits(v, 2) + [separator]
  {
    PutTwo(out, at, v);
    assert out[..at + 2] == out[..at] + out[at..at + 2];
    out[at + 2] := separator;
    assert out[..at + 3] == out[..at + 2] + [separator];
  }
}
