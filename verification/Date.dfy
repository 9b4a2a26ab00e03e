/** Julian day arithmetic of `Date`, checked against the Gregorian calendar.

    `GetJulianDayNumber` and `GetYearMonthDay` are the program's formulas with C's
    truncating division.  `DayNumber` and `Civil` are the same conversions with
    floor division; they are proved to be the proleptic Gregorian calendar for every
    integer, and the program's formulas are then related to them. */
module Date {
  import opened CArith

  datatype YearMonthDay = YearMonthDay(year: int, month: int, day: int)

  // ----- the Gregorian calendar -----

  predicate IsLeap(year: int) {
    year % 4 == 0 && (year % 100 != 0 || year % 400 == 0)
  }

  function DaysInMonth(year: int, month: int): int {
    if month == 2 then if IsLeap(year) then 29 else 28
    else if month in {4, 6, 9, 11} then 30
    else 31
  }

  predicate Valid(d: YearMonthDay) {
    1 <= d.month <= 12 && 1 <= d.day <= DaysInMonth(d.year, d.month)
  }

  predicate Before(a: YearMonthDay, b: YearMonthDay) {
    || a.year < b.year
    || (a.year == b.year && a.month < b.month)
    || (a.year == b.year && a.month == b.month && a.day < b.day)
  }

  function NextDay(d: YearMonthDay): YearMonthDay {
    if d.day < DaysInMonth(d.year, d.month) then d.(day := d.day + 1)
    else if d.month < 12 then YearMonthDay(d.year, d.month + 1, 1)
    else YearMonthDay(d.year + 1, 1, 1)
  }

  // The day on which the program's day count starts to be exact.
  const Epoch := YearMonthDay(-4800, 3, 1)
  const FIRST_DAY := -32044

  // ----- the program's conversions -----

  function GetJulianDayNumber(year: int, month: int, day: int): int {
    var a := Quot(14 - month, 12);
    var y := year + 4800 - a;
    var m := month + 12 * a - 3;
    day + Quot(153 * m + 2, 5) + y * 365 + Quot(y, 4) - Quot(y, 100) + Quot(y, 400) - 32045
  }

  function GetYearMonthDay(julianDayNumber: int): YearMonthDay {
    var (b, c) := SplitCentury(julianDayNumber + 32044);
    var (d, e) := SplitYear(c);
    DecodeDigits(b, d, e)
  }

  // The century of a day count and the days left over.
  function SplitCentury(a: int): (int, int) {
    var b := Quot(4 * a + 3, 146097);
    (b, a - Quot(b * 146097, 4))
  }

  // The year of the century and the days left over.
  function SplitYear(c: int): (int, int) {
    var d := Quot(4 * c + 3, 1461);
    (d, c - Quot(1461 * d, 4))
  }

  function DecodeDigits(b: int, d: int, e: int): YearMonthDay {
    var m := Quot(5 * e + 2, 153);
    YearMonthDay(b * 100 + d - 4800 + Quot(m, 10), m + 3 - 12 * Quot(m, 10), e - Quot(153 * m + 2, 5) + 1)
  }

  function Julian(d: YearMonthDay): int {
    GetJulianDayNumber(d.year, d.month, d.day)
  }

  function WeekDay(julianDayNumber: int): int {
    Rem(julianDayNumber + 1, 7)
  }

  // ----- the same conversions with floor division -----

  // Years are counted from March, so that the leap day is the last day of the year.
  function MarchYear(year: int, month: int): int {
    if month <= 2 then year + 4799 else year + 4800
  }

  function MarchMonth(month: int): int {
    if month <= 2 then month + 9 else month - 3
  }

  function DayNumber(year: int, month: int, day: int): int {
    var y, m := MarchYear(year, month), MarchMonth(month);
    day + (153 * m + 2) / 5 + YearBase(y) - 32045
  }

  // Days in the y years before the one counted from March of year y.
  function YearBase(y: int): int {
    y * 365 + y / 4 - y / 100 + y / 400
  }

  function Day(d: YearMonthDay): int {
    DayNumber(d.year, d.month, d.day)
  }

  // The date with century b, year d of the century and day e of the year, years counted from March.
  function DateOf(b: int, d: int, e: int): YearMonthDay {
    var m := (5 * e + 2) / 153;
    YearMonthDay(b * 100 + d - 4800 + m / 10, m + 3 - 12 * (m / 10), e - (153 * m + 2) / 5 + 1)
  }

  // The digits of a day count.
  function Decompose(a: int): (int, int, int) {
    var b := (4 * a + 3) / 146097;
    var c := a - b * 146097 / 4;
    var d := (4 * c + 3) / 1461;
    (b, d, c - 1461 * d / 4)
  }

  function Civil(n: int): YearMonthDay {
    var (b, d, e) := Decompose(n + 32044);
    DateOf(b, d, e)
  }

  // ----- digits of a day count -----

  predicate Digits(b: int, d: int, e: int) {
    && 0 <= d <= 99
    && 0 <= e <= (if d % 4 == 3 && (d != 99 || b % 4 == 3) then 365 else 364)
  }

  function Compose(b: int, d: int, e: int): int {
    b * 146097 / 4 + 1461 * d / 4 + e
  }

  lemma CenturyOfCount(b: int, c: int)
    requires 0 <= c <= (if b % 4 == 3 then 36524 else 36523)
    ensures (4 * (b * 146097 / 4 + c) + 3) / 146097 == b
  {
    assert b * 146097 - 3 <= 4 * (b * 146097 / 4) == b * 146097 - b % 4;
  }

  lemma CountInCentury(a: int)
    ensures var b := (4 * a + 3) / 146097;
            0 <= a - b * 146097 / 4 <= (if b % 4 == 3 then 36524 else 36523)
  {
    var b := (4 * a + 3) / 146097;
    var q, r := b / 4, b % 4;
    assert b * 146097 == 4 * (36524 * b + q) + r;
    assert b * 146097 / 4 == 36524 * b + q;
    assert 146097 * b <= 4 * a + 3 < 146097 * b + 146097;
  }

  lemma YearOfCount(d: int, e: int)
    requires 0 <= d && 0 <= e <= (if d % 4 == 3 then 365 else 364)
    ensures (4 * (1461 * d / 4 + e) + 3) / 1461 == d
  {
    assert 4 * (1461 * d / 4) == 1461 * d - d % 4;
  }

  lemma CountInYear(c: int)
    requires 0 <= c <= 36524
    ensures var d := (4 * c + 3) / 1461;
            && 0 <= d <= 99
            && 0 <= c - 1461 * d / 4 <= (if d % 4 == 3 && (d != 99 || c == 36524) then 365 else 364)
  {
    var d := (4 * c + 3) / 1461;
    assert 4 * (1461 * d / 4) == 1461 * d - d % 4;
  }

  lemma ComposeDecomposes(b: int, d: int, e: int)
    requires Digits(b, d, e)
    ensures Decompose(Compose(b, d, e)) == (b, d, e)
  {
    var c := 1461 * d / 4 + e;
    YearOfCount(d, e);
    assert 0 <= c <= (if b % 4 == 3 then 36524 else 36523);
    CenturyOfCount(b, c);
  }

  lemma DecompositionComposes(a: int)
    ensures var (b, d, e) := Decompose(a); Digits(b, d, e) && Compose(b, d, e) == a
  {
    CountInCentury(a);
    CountInYear(a - (4 * a + 3) / 146097 * 146097 / 4);
  }

  // The digits of the first day of a year counted from March.
  lemma YearStart(y: int)
    ensures YearBase(y) == Compose(y / 100, y % 100, 0)
  {
    var b, d := y / 100, y % 100;
    assert y == 100 * b + d;
    assert y / 4 == 25 * b + d / 4;
    assert y / 400 == b / 4;
    assert b * 146097 / 4 == 36524 * b + b / 4;
    assert 1461 * d / 4 == 365 * d + d / 4;
  }

  // A year counted from March ends with a leap day exactly when the next January's year is leap.
  lemma LeapDigits(y: int)
    ensures IsLeap(y - 4799) <==> (y % 100) % 4 == 3 && (y % 100 != 99 || (y / 100) % 4 == 3)
  {
    var b, d := y / 100, y % 100;
    LeapYear(b - 48, d);
    assert y - 4799 == 100 * (b - 48) + d + 1;
    assert (b - 47) % 4 == 0 <==> b % 4 == 3;
  }

  lemma LeapYear(c: int, d: int)
    requires 0 <= d <= 99
    ensures IsLeap(100 * c + d + 1) <==> d % 4 == 3 && (d != 99 || (c + 1) % 4 == 0)
  {
    var z := 100 * c + d + 1;
    Mod4(25 * c, d + 1, z);
    if d == 99 {
      Centuries(z, c + 1);
    } else {
      Mod100(c, d + 1, z);
    }
  }

  lemma Mod4(q: int, r: int, z: int)
    requires z == 4 * q + r
    ensures z % 4 == r % 4
  {
  }

  lemma Mod100(q: int, r: int, z: int)
    requires z == 100 * q + r && 0 <= r < 100
    ensures z % 100 == r
  {
  }

  lemma Centuries(z: int, c: int)
    requires z == 100 * c
    ensures z % 100 == 0 && (z % 400 == 0 <==> c % 4 == 0)
  {
    Mod100(c, 0, z);
    Mod400(c / 4, 100 * (c % 4), z);
  }

  lemma Mod400(q: int, r: int, z: int)
    requires z == 400 * q + r && 0 <= r < 400
    ensures z % 400 == r
  {
  }

  lemma DayOfYear(y: int, m: int, day: int)
    requires 0 <= m <= 11
    requires var month := if m < 10 then m + 3 else m - 9;
             1 <= day <= DaysInMonth(y - 4800 + m / 10, month)
    ensures var e := (153 * m + 2) / 5 + day - 1;
            && Digits(y / 100, y % 100, e)
            && (5 * e + 2) / 153 == m
  {
    LeapDigits(y);
  }

  // ----- theorems about the calendar -----

  lemma DigitsOfDate(d: YearMonthDay) returns (b: int, c: int, e: int)
    requires Valid(d)
    ensures Digits(b, c, e) && DateOf(b, c, e) == d && Day(d) + 32044 == Compose(b, c, e)
  {
    var y, m := MarchYear(d.year, d.month), MarchMonth(d.month);
    b, c, e := y / 100, y % 100, (153 * m + 2) / 5 + d.day - 1;
    DayOfYear(y, m, d.day);
    YearStart(y);
  }

  lemma CivilOfDay(d: YearMonthDay)
    requires Valid(d)
    ensures Civil(Day(d)) == d
  {
    var b, c, e := DigitsOfDate(d);
    ComposeDecomposes(b, c, e);
  }

  lemma MonthOfDay(e: int)
    requires 0 <= e <= 365
    ensures var m := (5 * e + 2) / 153;
            && 0 <= m <= 11
            && 1 <= e - (153 * m + 2) / 5 + 1 <= (if m == 11 then 29 else if m in {1, 3, 6, 8} then 30 else 31)
            && (m == 11 && e - (153 * m + 2) / 5 + 1 == 29 <==> e == 365)
  {
  }

  lemma DateOfDigits(b: int, d: int, e: int)
    requires Digits(b, d, e)
    ensures Valid(DateOf(b, d, e)) && Day(DateOf(b, d, e)) == Compose(b, d, e) - 32044
  {
    var y, m, date := 100 * b + d, (5 * e + 2) / 153, DateOf(b, d, e);
    assert y / 100 == b && y % 100 == d;
    MonthOfDay(e);
    LeapDigits(y);
    YearStart(y);
    assert MarchYear(date.year, date.month) == y && MarchMonth(date.month) == m;
  }

  lemma DayOfCivil(n: int)
    ensures Valid(Civil(n)) && Day(Civil(n)) == n
  {
    DecompositionComposes(n + 32044);
    var (b, d, e) := Decompose(n + 32044);
    DateOfDigits(b, d, e);
  }

  lemma NextDayIsNext(d: YearMonthDay)
    requires Valid(d)
    ensures Valid(NextDay(d)) && Day(NextDay(d)) == Day(d) + 1
  {
    hide YearBase, Compose;
    if d.month == 2 {
      var y := d.year + 4799;
      FebruaryEnds(y);
      assert y - 4799 == d.year;
    } else if d.day == DaysInMonth(d.year, d.month) {
      hide IsLeap;
      assert MarchYear(NextDay(d).year, NextDay(d).month) == MarchYear(d.year, d.month);
    }
  }

  lemma FebruaryEnds(y: int)
    ensures YearBase(y + 1) == YearBase(y) + if IsLeap(y - 4799) then 366 else 365
  {
    LeapDigits(y);
    YearStart(y);
    YearStart(y + 1);
    NextYear(y / 100, y % 100);
    hide IsLeap, YearBase, Compose;
    assert y == 100 * (y / 100) + y % 100;
  }

  lemma NextYear(b: int, d: int)
    requires 0 <= d <= 99
    ensures Compose((100 * b + d + 1) / 100, (100 * b + d + 1) % 100, 0)
         == Compose(b, d, 0) + if d % 4 == 3 && (d != 99 || b % 4 == 3) then 366 else 365
  {
    if d < 99 {
      assert (100 * b + d + 1) / 100 == b && (100 * b + d + 1) % 100 == d + 1;
    } else {
      assert (100 * b + d + 1) / 100 == b + 1 && (100 * b + d + 1) % 100 == 0;
    }
  }

  lemma {:induction false} DayOrder(a: YearMonthDay, b: YearMonthDay)
    requires Valid(a) && Valid(b) && Before(a, b)
    ensures Day(a) < Day(b)
    decreases 12 * (b.year - a.year) + b.month - a.month, 31 - a.day
  {
    NextDayIsNext(a);
    if NextDay(a) != b {
      DayOrder(NextDay(a), b);
    }
  }

  // ----- theorems about the program's conversions -----

  lemma JulianIsDay(d: YearMonthDay)
    requires Valid(d) && !Before(d, Epoch)
    ensures Julian(d) == Day(d) >= FIRST_DAY
  {
    assert Quot(14 - d.month, 12) == if d.month <= 2 then 1 else 0;
  }

  lemma DecodeDigitsIsDateOf(b: int, d: int, e: int)
    requires 0 <= e <= 365
    ensures DecodeDigits(b, d, e) == DateOf(b, d, e)
  {
    MonthOfDay(e);
  }

  lemma SplitCenturyIsFloor(a: int)
    requires a >= 0
    ensures var b := (4 * a + 3) / 146097; SplitCentury(a) == (b, a - b * 146097 / 4)
  {
  }

  lemma SplitYearIsFloor(c: int)
    requires c >= 0
    ensures var d := (4 * c + 3) / 1461; SplitYear(c) == (d, c - 1461 * d / 4)
  {
  }

  lemma DecodeIsCivil(n: int)
    requires n >= FIRST_DAY
    ensures GetYearMonthDay(n) == Civil(n)
  {
    hide SplitCentury, SplitYear, DecodeDigits, DateOf;
    var a := n + 32044;
    SplitCenturyIsFloor(a);
    CountInCentury(a);
    var c := SplitCentury(a).1;
    SplitYearIsFloor(c);
    CountInYear(c);
    DecodeDigitsIsDateOf(SplitCentury(a).0, SplitYear(c).0, SplitYear(c).1);
  }

  lemma CivilFromEpoch(n: int)
    requires n >= FIRST_DAY
    ensures !Before(Civil(n), Epoch)
  {
    hide Civil, DayNumber;
    assert Day(Epoch) == FIRST_DAY by { JulianIsDay(Epoch); }
    DayOfCivil(n);
    if Before(Civil(n), Epoch) {
      DayOrder(Civil(n), Epoch);
    }
  }

  // Below the first day the truncated divisions leave a day of the month that is not positive.
  lemma DecodeBelowFirstDay(n: int)
    requires n < FIRST_DAY
    ensures GetYearMonthDay(n).day <= 0
  {
    var c := SplitCentury(n + 32044).1;
    var e := SplitYear(c).1;
    SplitCenturyNegative(n + 32044);
    SplitYearNegative(c);
    DecodeDigitsNegative(SplitCentury(n + 32044).0, SplitYear(c).0, e);
  }

  lemma SplitCenturyNegative(a: int)
    requires a < 0
    ensures SplitCentury(a).1 < 0
  {
  }

  lemma SplitYearNegative(c: int)
    requires c < 0
    ensures SplitYear(c).1 < 0
  {
  }

  lemma DecodeDigitsNegative(b: int, d: int, e: int)
    requires e < 0
    ensures DecodeDigits(b, d, e).day <= 0
  {
  }

  // Before the epoch every date is numbered no later than the epoch itself.
  lemma JulianBeforeEpoch(d: YearMonthDay)
    requires Valid(d) && Before(d, Epoch)
    ensures Julian(d) <= FIRST_DAY
  {
    var y := MarchYear(d.year, d.month);
    assert Quot(14 - d.month, 12) == if d.month <= 2 then 1 else 0;
    assert y < 0;
    assert Quot(y, 4) - Quot(y, 100) + Quot(y, 400) <= 0;
  }

  /** Decoding a day number gives a calendar date exactly from the first day on, and from
      there encoding that date gives the number back. */
  lemma DecodeThenEncode(n: int)
    ensures Valid(GetYearMonthDay(n)) <==> n >= FIRST_DAY
    ensures n >= FIRST_DAY ==> Julian(GetYearMonthDay(n)) == n
  {
    if n >= FIRST_DAY {
      DecodeIsCivil(n);
      DayOfCivil(n);
      CivilFromEpoch(n);
      JulianIsDay(Civil(n));
    } else {
      DecodeBelowFirstDay(n);
    }
  }

  lemma DecodeDayOf(d: YearMonthDay, n: int)
    requires Valid(d) && !Before(d, Epoch) && n == Day(d)
    ensures GetYearMonthDay(n) == d
  {
    JulianIsDay(d);
    DecodeIsCivil(n);
    CivilOfDay(d);
  }

  /** Encoding a calendar date and decoding it again is the identity exactly for the dates
      from the epoch on. */
  lemma EncodeThenDecode(d: YearMonthDay)
    requires Valid(d)
    ensures GetYearMonthDay(Julian(d)) == d <==> !Before(d, Epoch)
  {
    var n := Julian(d);
    if !Before(d, Epoch) {
      JulianIsDay(d);
      DecodeDayOf(d, n);
    } else {
      JulianBeforeEpoch(d);
      if n == FIRST_DAY {
        DecodeDayOf(Epoch, n);
      } else {
        DecodeBelowFirstDay(n);
      }
    }
  }

  /** Day numbers count days: the next calendar day has the next number, and one date is
      earlier than another exactly when its number is smaller. */
  lemma JulianCountsDays(a: YearMonthDay, b: YearMonthDay)
    requires Valid(a) && Valid(b) && !Before(a, Epoch) && !Before(b, Epoch)
    ensures Julian(NextDay(a)) == Julian(a) + 1
    ensures Before(a, b) <==> Julian(a) < Julian(b)
  {
    NextDayIsNext(a);
    JulianIsDay(a);
    JulianIsDay(b);
    JulianIsDay(NextDay(a));
    if Before(a, b) {
      DayOrder(a, b);
    } else if a != b {
      DayOrder(b, a);
    }
  }

  lemma UnixEpoch()
    ensures GetJulianDayNumber(1970, 1, 1) == 2440588
    ensures WeekDay(2440588) == 4
  {
  }

  /** From day -1 on the weekday is a weekday and advances by one modulo seven every day;
      before that it is one only on Sundays. */
  lemma WeekDayAdvances(n: int)
    ensures 0 <= WeekDay(n) < 7 <==> n >= -1 || (n + 1) % 7 == 0
    ensures n >= -1 ==> WeekDay(n + 1) == (WeekDay(n) + 1) % 7
  {
    hide WeekDay;
    WeekDayIs(n);
    WeekDayIs(n + 1);
  }

  lemma WeekDayIs(n: int)
    ensures WeekDay(n) == if n >= -1 then (n + 1) % 7 else -((-n - 1) % 7)
    ensures (n + 1) % 7 == 0 <==> (-n - 1) % 7 == 0
  {
    var q := (n + 1) / 7;
    assert (n + 1) % 7 == 0 ==> -n - 1 == 7 * -q;
  }

  // ----- the width of C's int -----

  predicate DecodeFits(n: int) {
    var a := n + 32044;
    var (b, c) := SplitCentury(a);
    var (d, e) := SplitYear(c);
    && FitsInt32(a) && FitsInt32(4 * a) && FitsInt32(4 * a + 3) && FitsInt32(b * 146097)
    && FitsInt32(4 * c + 3) && FitsInt32(1461 * d) && FitsInt32(5 * e + 2) && FitsInt32(b * 100 + d)
  }

  /** From the first day on, the decoding stays within 32-bit integers exactly up to day
      number 536838867 (18 October 1465102). */
  lemma DecodeFitsUpTo(n: int)
    requires n >= FIRST_DAY
    ensures DecodeFits(n) <==> n <= 536838867
  {
    hide SplitCentury, SplitYear;
    var a := n + 32044;
    SplitCenturyIsFloor(a);
    CountInCentury(a);
    var (b, c) := SplitCentury(a);
    SplitYearIsFloor(c);
    CountInYear(c);
    assert 0 <= b * 146097 <= 4 * a + 3;
  }
}
