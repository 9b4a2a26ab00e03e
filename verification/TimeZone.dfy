/** Conversions between seconds since 1970 and broken-down time, in UTC and in a zone
    given by its transitions. */
module TimeZone {
  import opened CArith
  import opened Date

  const SECONDS_PER_DAY := 24 * 60 * 60
  const JULIAN_DAY_OF_1970_01_01 := 2440588

  // `struct tm`, without the zone name.
  datatype Tm = Tm(sec: int, min: int, hour: int, mday: int, mon: int, year: int,
                   wday: int, yday: int, isdst: int, gmtoff: int)

  // ----- UTC -----

  // The day number of an instant; `/` rounds down, also for instants before 1970.
  function DayOfInstant(t: int): int {
    t / SECONDS_PER_DAY + JULIAN_DAY_OF_1970_01_01
  }

  /** Broken-down UTC of every instant, as the C library's `gmtime_r` defines it. */
  function GmTime(t: int): Tm {
    var n, s := DayOfInstant(t), t % SECONDS_PER_DAY;
    var date := Civil(n);
    Tm(s % 60, s / 60 % 60, s / 3600, date.day, date.month - 1, date.year - 1900,
       (n + 1) % 7, n - DayNumber(date.year, 1, 1), 0, 0)
  }

  /** The C library's `timegm`; months outside 0..11 carry into the year. */
  function TimeGm(tm: Tm): int {
    (DayNumber(tm.year + 1900 + tm.mon / 12, tm.mon % 12 + 1, tm.mday) - JULIAN_DAY_OF_1970_01_01) * SECONDS_PER_DAY
    + tm.hour * 3600 + tm.min * 60 + tm.sec
  }

  predicate InRange(tm: Tm) {
    && 0 <= tm.sec < 60 && 0 <= tm.min < 60 && 0 <= tm.hour < 24
    && Valid(YearMonthDay(tm.year + 1900, tm.mon + 1, tm.mday))
    && 0 <= tm.wday < 7
    && 0 <= tm.yday < (if IsLeap(tm.year + 1900) then 366 else 365)
  }

  lemma TimeOfDay(s: int)
    requires 0 <= s < SECONDS_PER_DAY
    ensures 0 <= s % 60 < 60 && 0 <= s / 60 % 60 < 60 && 0 <= s / 3600 < 24
    ensures s / 3600 * 3600 + s / 60 % 60 * 60 + s % 60 == s
    ensures s / 60 / 60 == s / 3600
  {
  }

  lemma YearDay(d: YearMonthDay)
    requires Valid(d)
    ensures 0 <= Day(d) - DayNumber(d.year, 1, 1) < if IsLeap(d.year) then 366 else 365
  {
    hide YearBase, IsLeap;
    FebruaryEnds(d.year + 4799);
    assert d.year + 4799 - 4799 == d.year;
  }

  /** `timegm` undoes `gmtime_r` on every instant, and every field is in range. */
  lemma TimeGmOfGmTime(t: int)
    ensures InRange(GmTime(t)) && TimeGm(GmTime(t)) == t
  {
    hide DayNumber, Civil;
    var n, s := DayOfInstant(t), t % SECONDS_PER_DAY;
    var date := Civil(n);
    DayOfCivil(n);
    YearDay(date);
    TimeOfDay(s);
    assert (date.month - 1) / 12 == 0 && (date.month - 1) % 12 == date.month - 1;
  }

  function DateAt(t: int): YearMonthDay {
    YearMonthDay(GmTime(t).year + 1900, GmTime(t).mon + 1, GmTime(t).mday)
  }

  lemma EpochDay()
    ensures Civil(2440588) == YearMonthDay(1970, 1, 1) && DayNumber(1970, 1, 1) == 2440588
  {
    var d := YearMonthDay(1970, 1, 1);
    assert Valid(d) && Day(d) == 2440588;
    hide Civil;
    CivilOfDay(d);
  }

  /** Instant 0 is the beginning of Thursday, 1 January 1970. */
  lemma InstantZero()
    ensures JULIAN_DAY_OF_1970_01_01 == GetJulianDayNumber(1970, 1, 1)
    ensures GmTime(0) == Tm(0, 0, 0, 1, 0, 70, 4, 0, 0, 0)
    ensures TimeGm(Tm(0, 0, 0, 1, 0, 70, 4, 0, 0, 0)) == 0
    ensures FromUtcTime(1970, 1, 1, 0, 0, 0) == 0
  {
    UnixEpoch();
    EpochDay();
    hide Civil, DayNumber, GetJulianDayNumber;
    assert DayOfInstant(0) == 2440588;
  }

  lemma NextCivil(n: int)
    ensures Valid(Civil(n)) && Civil(n + 1) == NextDay(Civil(n))
  {
    DayOfCivil(n);
    NextDayIsNext(Civil(n));
    CivilOfDay(NextDay(Civil(n)));
    hide Civil, Day, Valid, NextDay;
  }

  lemma DaysOfInstants(t: int)
    ensures DayOfInstant(t + 86400) == DayOfInstant(t) + 1
    ensures t % 86400 != 86399 ==> DayOfInstant(t + 1) == DayOfInstant(t)
  {
  }

  lemma NextWeekDay(n: int)
    ensures (n + 1 + 1) % 7 == ((n + 1) % 7 + 1) % 7
  {
  }

  lemma ClockOfInstant(t: int)
    ensures GmTime(t).hour * 3600 + GmTime(t).min * 60 + GmTime(t).sec == t % 86400
  {
    TimeOfDay(t % 86400);
    hide Civil, DayNumber, DayOfInstant;
  }

  lemma DateOfInstant(t: int)
    ensures DateAt(t) == Civil(DayOfInstant(t)) && GmTime(t).wday == (DayOfInstant(t) + 1) % 7
  {
    hide Civil, DayNumber, DayOfInstant;
  }

  /** And from there on, forward and backward, every 86400 seconds are one calendar day and one
      weekday, while the fields of the time of day are the seconds since midnight. */
  lemma CalendarOfInstants(t: int)
    ensures Valid(DateAt(t)) && DateAt(t + 86400) == NextDay(DateAt(t))
    ensures GmTime(t + 86400).wday == (GmTime(t).wday + 1) % 7
    ensures GmTime(t).hour * 3600 + GmTime(t).min * 60 + GmTime(t).sec == t % 86400
    ensures t % 86400 != 86399 ==> DateAt(t + 1) == DateAt(t)
  {
    hide Civil, Valid, NextDay, DayOfInstant, GmTime, DateAt;
    DaysOfInstants(t);
    DateOfInstant(t);
    DateOfInstant(t + 1);
    DateOfInstant(t + 86400);
    NextCivil(DayOfInstant(t));
    NextWeekDay(DayOfInstant(t));
    ClockOfInstant(t);
  }

  /** The program's conversion from UTC. */
  function FromUtcTime(year: int, month: int, day: int, hour: int, minute: int, seconds: int): int {
    (GetJulianDayNumber(year, month, day) - JULIAN_DAY_OF_1970_01_01) * SECONDS_PER_DAY
    + (hour * 3600 + minute * 60 + seconds)
  }

  function FromUtcTm(utc: Tm): int {
    FromUtcTime(utc.year + 1900, utc.mon + 1, utc.mday, utc.hour, utc.min, utc.sec)
  }

  lemma FromUtcOfGmTime(t: int, wday: int, yday: int)
    requires DayOfInstant(t) >= FIRST_DAY
    ensures FromUtcTm(GmTime(t).(wday := wday, yday := yday)) == t
  {
    hide DayNumber, Civil, GetJulianDayNumber;
    var n := DayOfInstant(t);
    CivilFromEpoch(n);
    DayOfCivil(n);
    JulianIsDay(Civil(n));
    TimeOfDay(t % SECONDS_PER_DAY);
  }

  lemma AfterYear4800(n: int)
    requires n >= -1
    ensures Civil(n).year > -4800
  {
    var newYear := YearMonthDay(-4799, 1, 1);
    assert Day(newYear) < -1;
    hide DayNumber, Civil;
    DayOfCivil(n);
    if Civil(n).year <= -4800 {
      DayOrder(Civil(n), newYear);
    }
  }

  method FillHMS(seconds: nat, utc: Tm) returns (r: Tm)
    requires seconds < SECONDS_PER_DAY
    ensures r == utc.(sec := r.sec, min := r.min, hour := r.hour)
    ensures 0 <= r.sec < 60 && 0 <= r.min < 60 && 0 <= r.hour < 24
    ensures r.hour * 3600 + r.min * 60 + r.sec == seconds
  {
    r := utc.(sec := seconds % 60);
    var minutes := seconds / 60;
    r := r.(min := minutes % 60);
    r := r.(hour := minutes / 60);
  }

  // A time of day has one reading as hours, minutes and seconds.
  lemma TimeOfDayUnique(hour: int, min: int, sec: int)
    requires 0 <= sec < 60 && 0 <= min < 60 && 0 <= hour < 24
    ensures var s := hour * 3600 + min * 60 + sec;
            0 <= s < SECONDS_PER_DAY && s % 60 == sec && s / 60 % 60 == min && s / 3600 == hour
  {
    var s := hour * 3600 + min * 60 + sec;
    assert s / 60 == hour * 60 + min;
  }

  lemma SplitInstant(t: int)
    ensures var s := Rem(t, SECONDS_PER_DAY);
            var d := Quot(t, SECONDS_PER_DAY);
            && (s >= 0 ==> s == t % SECONDS_PER_DAY && d == t / SECONDS_PER_DAY)
            && (s < 0 ==> s + SECONDS_PER_DAY == t % SECONDS_PER_DAY && d - 1 == t / SECONDS_PER_DAY)
  {
  }

  lemma JanuaryFirst(d: YearMonthDay)
    requires Valid(d) && !Before(d, Epoch)
    ensures GetJulianDayNumber(d.year, 1, 1) == DayNumber(d.year, 1, 1) + if d.year > -4800 then 0 else 1
  {
    if d.year > -4800 {
      JulianIsDay(YearMonthDay(d.year, 1, 1));
    }
  }

  /** The program's conversion to UTC.  Converting back gives the instant from day number
      -32044 on, and every field is in range from day number -1 on.  From day number -32044 on it is `gmtime_r`'s, for
      negative times too, except that the weekday is computed with a truncating remainder and
      that in the year -4800 the day of the year is one too small. */
  method ToUtcTime(t: int, yday: bool) returns (utc: Tm)
    ensures DayOfInstant(t) >= FIRST_DAY ==>
              utc == GmTime(t).(wday := WeekDay(DayOfInstant(t)),
                                yday := if !yday then 0
                                        else if GmTime(t).year + 1900 > -4800 then GmTime(t).yday
                                        else GmTime(t).yday - 1)
    ensures Valid(YearMonthDay(utc.year + 1900, utc.mon + 1, utc.mday)) <==> DayOfInstant(t) >= FIRST_DAY
    ensures DayOfInstant(t) >= FIRST_DAY ==> FromUtcTm(utc) == t
    ensures DayOfInstant(t) >= -1 && yday ==> InRange(utc)
  {
    hide DayNumber, Civil, GetJulianDayNumber, GetYearMonthDay;
    utc := Tm(0, 0, 0, 0, 0, 0, 0, 0, 0, 0);
    var seconds := Rem(t, SECONDS_PER_DAY);
    var days := Quot(t, SECONDS_PER_DAY);
    if seconds < 0 {
      seconds := seconds + SECONDS_PER_DAY;
      days := days - 1;
    }
    SplitInstant(t);
    utc := FillHMS(seconds, utc);
    TimeOfDayUnique(utc.hour, utc.min, utc.sec);
    var date := days + JULIAN_DAY_OF_1970_01_01;
    DecodeThenEncode(date);
    var ymd := GetYearMonthDay(date);
    utc := utc.(year := ymd.year - 1900);
    utc := utc.(mon := ymd.month - 1);
    utc := utc.(mday := ymd.day);
    utc := utc.(wday := WeekDay(date));
    if date >= FIRST_DAY {
      DecodeIsCivil(date);
      CivilFromEpoch(date);
      DayOfCivil(date);
      JanuaryFirst(ymd);
    }
    if yday {
      var startOfYear := GetJulianDayNumber(ymd.year, 1, 1);
      utc := utc.(yday := date - startOfYear);
    }
    if date >= FIRST_DAY {
      FromUtcOfGmTime(t, utc.wday, utc.yday);
    }
    if date >= -1 {
      AfterYear4800(date);
      WeekDayAdvances(date);
      TimeGmOfGmTime(t);
    }
  }

  // ----- zones -----

  datatype Transition = Transition(gmttime: int, localtime: int, localtimeIdx: int)
  datatype Localtime = Localtime(gmtOffset: int, isDst: bool)
  datatype Data = Data(transitions: seq<Transition>, localtimes: seq<Localtime>)

  // What the zone reader builds: every transition names a local time type, and its local key
  // is its instant seen with the offset it switches to.
  predicate WellFormed(data: Data) {
    && data.localtimes != []
    && forall i :: 0 <= i < |data.transitions| ==>
         var tr := data.transitions[i];
         && 0 <= tr.localtimeIdx < |data.localtimes|
         && tr.localtime == tr.gmttime + data.localtimes[tr.localtimeIdx].gmtOffset
  }

  function Key(tr: Transition, compareGmt: bool): int {
    if compareGmt then tr.gmttime else tr.localtime
  }

  predicate Sorted(data: Data, compareGmt: bool) {
    forall i, j :: 0 <= i < j < |data.transitions| ==>
      Key(data.transitions[i], compareGmt) < Key(data.transitions[j], compareGmt)
  }

  /** `std::lower_bound`: the first transition that does not come before the sentry. */
  function LowerBound(ts: seq<Transition>, sentry: int, compareGmt: bool): (k: nat)
    ensures k <= |ts|
    ensures forall i :: 0 <= i < k ==> Key(ts[i], compareGmt) < sentry
    ensures k < |ts| ==> sentry <= Key(ts[k], compareGmt)
  {
    if ts == [] || sentry <= Key(ts[0], compareGmt) then 0
    else 1 + LowerBound(ts[1..], sentry, compareGmt)
  }

  // The local time type in force after the first i transitions.
  function InForce(data: Data, i: int): Localtime
    requires WellFormed(data) && 0 <= i <= |data.transitions|
  {
    if i == 0 then data.localtimes[0] else data.localtimes[data.transitions[i - 1].localtimeIdx]
  }

  // Exactly the first i transitions are at or before the sentry.
  predicate Passed(data: Data, sentry: int, compareGmt: bool, i: int) {
    && 0 <= i <= |data.transitions|
    && (i > 0 ==> Key(data.transitions[i - 1], compareGmt) <= sentry)
    && (i < |data.transitions| ==> sentry < Key(data.transitions[i], compareGmt))
  }

  // The transition that decides, or -1 before the first.
  function DecidingTransition(ts: seq<Transition>, sentry: int, compareGmt: bool): (i: int)
    ensures -1 <= i < |ts|
  {
    if ts == [] || sentry < Key(ts[0], compareGmt) then -1
    else
      var k := LowerBound(ts, sentry, compareGmt);
      if k < |ts| then if sentry == Key(ts[k], compareGmt) then k else k - 1
      else |ts| - 1
  }

  function FindLocaltime(data: Data, sentry: int, compareGmt: bool): Localtime
    requires WellFormed(data) && Sorted(data, compareGmt)
  {
    var i := DecidingTransition(data.transitions, sentry, compareGmt);
    if i < 0 then data.localtimes[0] else data.localtimes[data.transitions[i].localtimeIdx]
  }

  lemma DecidesLast(ts: seq<Transition>, sentry: int, compareGmt: bool, i: int)
    requires forall a, b :: 0 <= a < b < |ts| ==> Key(ts[a], compareGmt) < Key(ts[b], compareGmt)
    requires 0 <= i <= |ts| && (i > 0 ==> Key(ts[i - 1], compareGmt) <= sentry)
    requires i < |ts| ==> sentry < Key(ts[i], compareGmt)
    ensures DecidingTransition(ts, sentry, compareGmt) == i - 1
  {
    var k := LowerBound(ts, sentry, compareGmt);
    hide LowerBound, Key;
    assert k < i ==> sentry <= Key(ts[k], compareGmt) <= Key(ts[i - 1], compareGmt);
    assert i > 0 ==> Key(ts[0], compareGmt) <= Key(ts[i - 1], compareGmt);
  }

  /** The local time type found is the one in force after the transitions passed. */
  lemma FindsTheOneInForce(data: Data, sentry: int, compareGmt: bool, i: int)
    requires WellFormed(data) && Sorted(data, compareGmt) && Passed(data, sentry, compareGmt, i)
    ensures FindLocaltime(data, sentry, compareGmt) == InForce(data, i)
  {
    DecidesLast(data.transitions, sentry, compareGmt, i);
    hide DecidingTransition, Key, Sorted, WellFormed;
  }

  // How many transitions an instant (or a local key) has passed.
  function Count(data: Data, sentry: int, compareGmt: bool): (i: nat)
    requires Sorted(data, compareGmt)
    ensures Passed(data, sentry, compareGmt, i)
  {
    var k := LowerBound(data.transitions, sentry, compareGmt);
    if k < |data.transitions| && sentry == Key(data.transitions[k], compareGmt) then k + 1 else k
  }

  /** Broken-down local time of an instant. */
  function LocalTm(data: Data, t: int): Tm
    requires WellFormed(data) && Sorted(data, true)
  {
    var local := FindLocaltime(data, t, true);
    GmTime(t + local.gmtOffset).(isdst := if local.isDst then 1 else 0, gmtoff := local.gmtOffset)
  }

  // The clock of a place with the given local time type at an instant.
  predicate Shows(tm: Tm, t: int, local: Localtime) {
    TimeGm(tm) == t + local.gmtOffset && tm.gmtoff == local.gmtOffset && tm.isdst == if local.isDst then 1 else 0
  }

  lemma LocalTmShows(data: Data, t: int, i: int)
    requires WellFormed(data) && Sorted(data, true) && Passed(data, t, true, i)
    ensures Shows(LocalTm(data, t), t, InForce(data, i))
  {
    hide GmTime, TimeGm, FindLocaltime;
    FindsTheOneInForce(data, t, true, i);
    var local := InForce(data, i);
    TimeGmOfLocal(t + local.gmtOffset, if local.isDst then 1 else 0, local.gmtOffset);
  }

  /** The program's conversion to local time: what the clock shows with the local time type in
      force at the instant. */
  method ToLocalTime(data: Data, seconds: int) returns (localTime: Tm)
    requires WellFormed(data) && Sorted(data, true)
    ensures localTime == LocalTm(data, seconds)
    ensures forall i :: Passed(data, seconds, true, i) ==> Shows(localTime, seconds, InForce(data, i))
  {
    hide GmTime, TimeGm, FindLocaltime, WellFormed, Sorted, InForce;
    forall i | Passed(data, seconds, true, i) ensures Shows(LocalTm(data, seconds), seconds, InForce(data, i)) {
      LocalTmShows(data, seconds, i);
    }
    var local := FindLocaltime(data, seconds, true);
    var localSeconds := seconds + local.gmtOffset;
    localTime := GmTime(localSeconds);
    localTime := localTime.(isdst := if local.isDst then 1 else 0);
    localTime := localTime.(gmtoff := local.gmtOffset);
  }

  /** The instant a broken-down local time is taken to mean. */
  function Instant(data: Data, localTm: Tm): int
    requires WellFormed(data) && Sorted(data, true) && Sorted(data, false)
  {
    var seconds := TimeGm(localTm);
    var guess := seconds - FindLocaltime(data, seconds, false).gmtOffset;
    var again := LocalTm(data, guess);
    if localTm.isdst != 0 && again.isdst == 0 && again.hour == localTm.hour && again.min == localTm.min
    then guess - 3600 else guess
  }

  // Clocks go back at transition i.
  predicate GoesBack(data: Data, i: int)
    requires WellFormed(data) && 0 <= i < |data.transitions|
  {
    InForce(data, i + 1).gmtOffset < InForce(data, i).gmtOffset
  }

  // The end of daylight saving time: one hour back, from DST to standard time.
  predicate EndsDst(data: Data, i: int)
    requires WellFormed(data) && 0 <= i < |data.transitions|
  {
    && InForce(data, i).isDst && !InForce(data, i + 1).isDst
    && InForce(data, i).gmtOffset == InForce(data, i + 1).gmtOffset + 3600
  }

  // A repeated stretch of local time is over before the next transition, on both clocks.
  predicate FarApart(data: Data)
    requires WellFormed(data)
  {
    forall i :: 0 <= i < |data.transitions| - 1 && GoesBack(data, i) ==>
      var back := InForce(data, i).gmtOffset - InForce(data, i + 1).gmtOffset;
      && data.transitions[i].gmttime + back <= data.transitions[i + 1].gmttime
      && data.transitions[i].gmttime + InForce(data, i).gmtOffset <= data.transitions[i + 1].localtime
  }

  predicate Zone(data: Data) {
    WellFormed(data) && Sorted(data, true) && Sorted(data, false) && FarApart(data)
  }

  // The instant lies in the first pass through a stretch of local time that will be repeated.
  predicate Repeats(data: Data, t: int)
    requires Zone(data)
  {
    var i := Count(data, t, true);
    i < |data.transitions| && data.transitions[i].localtime <= t + InForce(data, i).gmtOffset
  }

  lemma TimeGmOfLocal(t: int, isdst: int, gmtoff: int)
    ensures TimeGm(GmTime(t).(isdst := isdst, gmtoff := gmtoff)) == t
  {
    TimeGmOfGmTime(t);
    hide GmTime, DayNumber;
  }

  lemma LocalOf(data: Data, t: int, i: int)
    requires Zone(data) && Passed(data, t, true, i)
    ensures var local := InForce(data, i);
            LocalTm(data, t) == GmTime(t + local.gmtOffset).(isdst := if local.isDst then 1 else 0, gmtoff := local.gmtOffset)
    ensures TimeGm(LocalTm(data, t)) == t + InForce(data, i).gmtOffset
  {
    hide GmTime, TimeGm, FindLocaltime;
    var local := InForce(data, i);
    FindsTheOneInForce(data, t, true, i);
    TimeGmOfLocal(t + local.gmtOffset, if local.isDst then 1 else 0, local.gmtOffset);
  }

  // Transition i is the next one after the instant.
  lemma UnrepeatedRoundTrip(data: Data, t: int, i: int)
    requires Zone(data) && Passed(data, t, true, i)
    requires i < |data.transitions| ==> t + InForce(data, i).gmtOffset < data.transitions[i].localtime
    ensures Instant(data, LocalTm(data, t)) == t
  {
    hide GmTime, TimeGm, FindLocaltime, LocalTm;
    LocalOf(data, t, i);
    var seconds := t + InForce(data, i).gmtOffset;
    assert Passed(data, seconds, false, i);
    FindsTheOneInForce(data, seconds, false, i);
  }

  lemma RepeatedRoundTrip(data: Data, t: int, i: int)
    requires Zone(data) && Passed(data, t, true, i)
    requires i < |data.transitions| && data.transitions[i].localtime <= t + InForce(data, i).gmtOffset
    ensures GoesBack(data, i)
    ensures Instant(data, LocalTm(data, t)) == t <==> EndsDst(data, i)
  {
    hide GmTime, TimeGm, FindLocaltime, LocalTm;
    LocalOf(data, t, i);
    var seconds := t + InForce(data, i).gmtOffset;
    assert Passed(data, seconds, false, i + 1);
    FindsTheOneInForce(data, seconds, false, i + 1);
    var guess := seconds - InForce(data, i + 1).gmtOffset;
    assert Passed(data, guess, true, i + 1);
    LocalOf(data, guess, i + 1);
  }

  /** An instant survives the trip to local time and back exactly when its local time will not
      be repeated, or will be repeated because daylight saving time ends. */
  lemma LocalRoundTrip(data: Data, t: int)
    requires Zone(data)
    ensures Instant(data, LocalTm(data, t)) == t
       <==> (Repeats(data, t) ==> EndsDst(data, Count(data, t, true)))
    ensures Repeats(data, t) ==> GoesBack(data, Count(data, t, true))
  {
    hide Count, Instant, LocalTm;
    var i := Count(data, t, true);
    if Repeats(data, t) {
      RepeatedRoundTrip(data, t, i);
    } else {
      UnrepeatedRoundTrip(data, t, i);
    }
  }

  /** Every instant survives the trip exactly when the only way clocks go back in the zone is
      the end of daylight saving time by one hour. */
  lemma ZoneRoundTrips(data: Data)
    requires Zone(data)
    ensures (forall t :: Instant(data, LocalTm(data, t)) == t)
       <==> (forall i :: 0 <= i < |data.transitions| && GoesBack(data, i) ==> EndsDst(data, i))
  {
    hide Instant, LocalTm, Count;
    if forall i :: 0 <= i < |data.transitions| && GoesBack(data, i) ==> EndsDst(data, i) {
      forall t ensures Instant(data, LocalTm(data, t)) == t {
        LocalRoundTrip(data, t);
      }
    } else {
      var i :| 0 <= i < |data.transitions| && GoesBack(data, i) && !EndsDst(data, i);
      var t := data.transitions[i].gmttime - 1;
      assert Passed(data, t, true, i);
      RepeatedRoundTrip(data, t, i);
    }
  }

  // The local time of the instant is not repeated, or is repeated because daylight saving time ends.
  predicate Recovers(data: Data, t: int)
    requires Zone(data)
  {
    Repeats(data, t) ==> EndsDst(data, Count(data, t, true))
  }

  lemma InstantRecovers(data: Data, localTm: Tm)
    requires Zone(data)
    ensures forall s :: LocalTm(data, s) == localTm && Recovers(data, s) ==> Instant(data, localTm) == s
  {
    hide LocalTm, Instant, Count, Repeats;
    forall s | LocalTm(data, s) == localTm && Recovers(data, s) ensures Instant(data, localTm) == s {
      LocalRoundTrip(data, s);
    }
  }

  /** The program's conversion from local time: from the local time of an instant it recovers the
      instant, wherever that is possible. */
  method FromLocalTime(data: Data, localTm: Tm) returns (t: int)
    requires WellFormed(data) && Sorted(data, true) && Sorted(data, false)
    ensures t == Instant(data, localTm)
    ensures Zone(data) ==> forall s :: LocalTm(data, s) == localTm && Recovers(data, s) ==> t == s
  {
    hide Zone, Recovers, GmTime, TimeGm, FindLocaltime, LowerBound, WellFormed, Sorted, LocalTm;
    var seconds := TimeGm(localTm);
    var local := FindLocaltime(data, seconds, false);
    var adjusted := seconds;
    if localTm.isdst != 0 {
      var tryTm := ToLocalTime(data, seconds - local.gmtOffset);
      if tryTm.isdst == 0 && tryTm.hour == localTm.hour && tryTm.min == localTm.min {
        adjusted := adjusted - 3600;
      }
    }
    t := adjusted - local.gmtOffset;
    if Zone(data) {
      InstantRecovers(data, localTm);
    }
  }

  // ----- local times that no clock shows -----

  // Clocks go forward over the local time, given as seconds.
  predicate Skipped(data: Data, seconds: int)
    requires Zone(data)
  {
    var j := Count(data, seconds, false);
    j < |data.transitions| && data.transitions[j].gmttime + InForce(data, j).gmtOffset <= seconds
  }

  // What the clock shows when the type in force changes at transition i.
  function LocalEnd(data: Data, i: int): int
    requires WellFormed(data) && 0 <= i < |data.transitions|
  {
    data.transitions[i].gmttime + InForce(data, i).gmtOffset
  }

  lemma LocalEndGrows(data: Data, i: int)
    requires Zone(data) && 0 <= i < |data.transitions| - 1
    ensures LocalEnd(data, i) <= LocalEnd(data, i + 1)
  {
    assert Key(data.transitions[i], true) < Key(data.transitions[i + 1], true);
    if GoesBack(data, i) {
      assert FarApart(data);
    }
  }

  lemma {:induction false} LocalEndsGrow(data: Data, i: int, j: int)
    requires Zone(data) && 0 <= i <= j < |data.transitions|
    ensures LocalEnd(data, i) <= LocalEnd(data, j)
    decreases j - i
  {
    hide LocalEnd, Sorted, FarApart;
    if i < j {
      LocalEndGrows(data, i);
      LocalEndsGrow(data, i + 1, j);
    }
  }

  lemma ShowsInOrder(data: Data, t: int, seconds: int)
    requires Zone(data) && TimeGm(LocalTm(data, t)) == seconds
    ensures !Skipped(data, seconds)
  {
    hide Count, TimeGm, LocalTm, FarApart;
    var i, j := Count(data, t, true), Count(data, seconds, false);
    LocalOf(data, t, i);
    var ts := data.transitions;
    if j < |ts| {
      if i <= j {
        LocalEndsGrow(data, i, j);
      }
    }
  }

  lemma UnskippedIsShown(data: Data, seconds: int)
    requires Zone(data) && !Skipped(data, seconds)
    ensures TimeGm(LocalTm(data, seconds - InForce(data, Count(data, seconds, false)).gmtOffset)) == seconds
  {
    hide Count, TimeGm, LocalTm;
    var j := Count(data, seconds, false);
    var t := seconds - InForce(data, j).gmtOffset;
    assert Passed(data, t, true, j);
    LocalOf(data, t, j);
  }

  /** Some clock shows a local time exactly when clocks do not go forward over it. */
  lemma ShownUnlessSkipped(data: Data, seconds: int)
    requires Zone(data)
    ensures (exists t :: TimeGm(LocalTm(data, t)) == seconds) <==> !Skipped(data, seconds)
  {
    if Skipped(data, seconds) {
      forall t ensures TimeGm(LocalTm(data, t)) != seconds {
        if TimeGm(LocalTm(data, t)) == seconds {
          ShowsInOrder(data, t, seconds);
        }
      }
    } else {
      UnskippedIsShown(data, seconds);
    }
    hide Skipped, TimeGm, LocalTm;
  }

  /** The other way round: where clocks go back only at the end of daylight saving time and by one
      hour, converting a local time to an instant and back gives it back exactly when it is the
      local time of some instant; and that is never so for a time that clocks skip. */
  lemma LocalTimesGivenBack(data: Data, tm: Tm)
    requires Zone(data) && forall i :: 0 <= i < |data.transitions| && GoesBack(data, i) ==> EndsDst(data, i)
    ensures LocalTm(data, Instant(data, tm)) == tm <==> exists t :: LocalTm(data, t) == tm
    ensures Skipped(data, TimeGm(tm)) ==> LocalTm(data, Instant(data, tm)) != tm
  {
    hide Instant, LocalTm, Skipped, TimeGm;
    ZoneRoundTrips(data);
    ShownUnlessSkipped(data, TimeGm(tm));
    if t :| LocalTm(data, t) == tm {
      assert Instant(data, LocalTm(data, t)) == t;
    }
  }

  // ----- what becomes of the wall clock -----

  // The type that the search on the local clock finds for a local time.
  function Found(data: Data, tm: Tm): Localtime
    requires Zone(data)
  {
    InForce(data, Count(data, TimeGm(tm), false))
  }

  // The flag says daylight saving time and the zone does not, and the fields are in normal form.
  predicate Adjusts(data: Data, tm: Tm)
    requires Zone(data)
  {
    var clock := GmTime(TimeGm(tm));
    tm.isdst != 0 && !Found(data, tm).isDst && clock.hour == tm.hour && clock.min == tm.min
  }

  // The offset in force at an instant.
  function OffsetAt(data: Data, t: int): int
    requires Zone(data)
  {
    InForce(data, Count(data, t, true)).gmtOffset
  }

  lemma InstantIs(data: Data, tm: Tm)
    requires Zone(data) && !Skipped(data, TimeGm(tm))
    ensures var guess := TimeGm(tm) - Found(data, tm).gmtOffset;
            && Passed(data, guess, true, Count(data, TimeGm(tm), false))
            && Instant(data, tm) == if Adjusts(data, tm) then guess - 3600 else guess
  {
    hide Count, TimeGm, GmTime, FindLocaltime, LocalTm;
    var j := Count(data, TimeGm(tm), false);
    var guess := TimeGm(tm) - Found(data, tm).gmtOffset;
    assert Passed(data, guess, true, j);
    FindsTheOneInForce(data, TimeGm(tm), false, j);
    LocalOf(data, guess, j);
  }

  lemma WallClockAt(data: Data, t: int)
    requires Zone(data)
    ensures TimeGm(LocalTm(data, t)) == t + OffsetAt(data, t)
  {
    hide Count, TimeGm, LocalTm;
    LocalOf(data, t, Count(data, t, true));
  }

  /** For every local time, whatever its flag: converting it to an instant and back keeps the wall
      clock exactly when clocks do not skip it and, if its flag wrongly says daylight saving time,
      the offset an hour earlier was an hour more. */
  lemma WallClockKept(data: Data, tm: Tm)
    requires Zone(data)
    ensures TimeGm(LocalTm(data, Instant(data, tm))) == TimeGm(tm)
       <==> !Skipped(data, TimeGm(tm))
            && (Adjusts(data, tm) ==>
                  OffsetAt(data, TimeGm(tm) - Found(data, tm).gmtOffset - 3600) == Found(data, tm).gmtOffset + 3600)
  {
    hide TimeGm, GmTime, LocalTm, Instant, Adjusts, Skipped, Count;
    var t := Instant(data, tm);
    WallClockAt(data, t);
    if Skipped(data, TimeGm(tm)) {
      ShownUnlessSkipped(data, TimeGm(tm));
    } else {
      InstantIs(data, tm);
      var guess := TimeGm(tm) - Found(data, tm).gmtOffset;
      PassedOnce(data, guess, Count(data, TimeGm(tm), false));
    }
  }

  lemma PassedOnce(data: Data, t: int, i: int)
    requires Zone(data) && Passed(data, t, true, i)
    ensures Count(data, t, true) == i
  {
    hide LowerBound;
  }

  /** So a flag set by mistake, with no transition in the last hour, moves the clock back by an
      hour; and in the hour after daylight saving time has ended it chooses the first pass. */
  lemma WrongFlagMovesClock(data: Data, tm: Tm)
    requires Zone(data) && !Skipped(data, TimeGm(tm)) && Adjusts(data, tm)
    ensures var j, w := Count(data, TimeGm(tm), false), TimeGm(tm);
            && (j == 0 || data.transitions[j - 1].localtime + 3600 <= w ==>
                  TimeGm(LocalTm(data, Instant(data, tm))) == w - 3600)
            && (j > 0 && w < data.transitions[j - 1].localtime + 3600 && EndsDst(data, j - 1)
                && (j == 1 || data.transitions[j - 2].gmttime + 3600 <= data.transitions[j - 1].gmttime) ==>
                  TimeGm(LocalTm(data, Instant(data, tm))) == w && Instant(data, tm) < data.transitions[j - 1].gmttime)
  {
    hide TimeGm, GmTime, LocalTm, Instant, Adjusts, Skipped, Count;
    var j, w := Count(data, TimeGm(tm), false), TimeGm(tm);
    var t := Instant(data, tm);
    InstantIs(data, tm);
    WallClockAt(data, t);
    if j == 0 || data.transitions[j - 1].localtime + 3600 <= w {
      assert Passed(data, t, true, j);
      PassedOnce(data, t, j);
    } else if EndsDst(data, j - 1)
           && (j == 1 || data.transitions[j - 2].gmttime + 3600 <= data.transitions[j - 1].gmttime) {
      assert Passed(data, t, true, j - 1);
      PassedOnce(data, t, j - 1);
    }
  }
}
