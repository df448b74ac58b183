/** Conversion of the time-of-day clock to a calendar date and time, with leap seconds (lib/clock.c). */
module Clock {
  import opened Common

  const MICROSEC := 0x1000
  const SEC := 0xf424_0000
  const MIN := 0x39_3870_0000
  const HOUR := 0xd69_3a40_0000
  const DAY := 0x1_41dd_7600_0000
  const YEAR := 0x1ca_e8c1_3e00_0000
  const TOD_LIMIT := 0x1_0000_0000_0000_0000

  /** From clock value `tod` on the date is counted from the first of `month` of `year`; `leap`
      says that the second before was a leap second. */
  datatype LeapSec = LeapSec(tod: nat, year: nat, month: nat, leap: bool)

  // The most recent first.
  const LEAP_SECS: seq<LeapSec> := [
    LeapSec(0xC387_0CB9_BB60_0000, 2009, 1, true),
    LeapSec(0xBE25_1097_973C_0000, 2006, 1, true),
    LeapSec(0xB196_2F93_0518_0000, 1999, 1, true),
    LeapSec(0xAEE3_EFA4_02F4_0000, 1997, 7, true),
    LeapSec(0xAC34_336F_ECD0_0000, 1996, 1, true),
    LeapSec(0xA981_F380_EAAC_0000, 1994, 7, true),
    LeapSec(0xA7B7_0ABE_B888_0000, 1993, 7, true),
    LeapSec(0xA5EC_21FC_8664_0000, 1992, 7, true),
    LeapSec(0xA33C_65C8_7040_0000, 1991, 1, true),
    LeapSec(0xA171_7D06_3E1C_0000, 1990, 1, true),
    LeapSec(0x9DDA_69A5_57F8_0000, 1988, 1, true),
    LeapSec(0x995D_40F5_17D4_0000, 1985, 7, true),
    LeapSec(0x95C6_2D94_31B0_0000, 1983, 7, true),
    LeapSec(0x93FB_44D1_FF8C_0000, 1982, 7, true),
    LeapSec(0x9230_5C0F_CD68_0000, 1981, 7, true),
    LeapSec(0x8F80_9FDB_B744_0000, 1980, 1, true),
    LeapSec(0x8DB5_B719_8520_0000, 1979, 1, true),
    LeapSec(0x8BEA_CE57_52FC_0000, 1978, 1, true),
    LeapSec(0x8A1F_E595_20D8_0000, 1977, 1, true),
    LeapSec(0x8853_BAF5_78B4_0000, 1976, 1, true),
    LeapSec(0x8688_D233_4690_0000, 1975, 1, true),
    LeapSec(0x84BD_E971_146C_0000, 1974, 1, true),
    LeapSec(0x82F3_00AE_E248_0000, 1973, 1, true),
    LeapSec(0x820B_A981_1E24_0000, 1972, 7, true),
    LeapSec(0x8126_D60E_4600_0000, 1972, 1, false),
    LeapSec(0x0000_0000_0000_0000, 1900, 1, false)
  ]

  datatype DateTime = DateTime(year: int, month: int, day: int, hour: int, minute: int, second: int, micro: int)

  // ---- The calendar ----

  function MonthDays(year: int, month: int): (d: nat) {
    if month == 2 then (if year % 400 == 0 || (year % 4 == 0 && year % 100 != 0) then 29 else 28)
    else if month == 4 || month == 6 || month == 9 || month == 11 then 30
    else 31
  }

  /** Days from the start of 1900 to the first of a month. */
  function MonthStart(year: int, month: int): (d: nat)
    requires year >= 1900 && 1 <= month <= 12
    decreases year, month
  {
    if month > 1 then MonthStart(year, month - 1) + MonthDays(year, month - 1)
    else if year > 1900 then MonthStart(year - 1, 12) + MonthDays(year - 1, 12)
    else 0
  }

  /** Days from the start of 1900 to a date. */
  function Days(year: int, month: int, day: int): int
    requires year >= 1900 && 1 <= month <= 12
  {
    MonthStart(year, month) + day - 1
  }

  predicate ValidDate(dt: DateTime) {
    && dt.year >= 1900 && 1 <= dt.month <= 12 && 1 <= dt.day <= MonthDays(dt.year, dt.month)
    && 0 <= dt.hour < 24 && 0 <= dt.minute < 60 && 0 <= dt.second <= 60 && 0 <= dt.micro < 1_000_000
  }

  // ---- Leap seconds ----

  /** Leap seconds that had ended by `tod`, counting the table's entries from `k` on. */
  function LeapsFrom(tod: nat, k: nat): nat
    requires k <= |LEAP_SECS|
    decreases |LEAP_SECS| - k
  {
    if k == |LEAP_SECS| then 0
    else LeapsFrom(tod, k + 1) + (if LEAP_SECS[k].leap && LEAP_SECS[k].tod <= tod then 1 else 0)
  }

  function LeapsBy(tod: nat): nat { LeapsFrom(tod, 0) }

  /** The clock is inside the leap second before entry `k`. */
  predicate InLeap(tod: nat, k: nat)
    requires k < |LEAP_SECS|
  {
    LEAP_SECS[k].leap && LEAP_SECS[k].tod - SEC <= tod < LEAP_SECS[k].tod
  }

  /** Clock value of a date and time, 4096 to a microsecond, with the leap seconds inserted so far. */
  function ClockOf(dt: DateTime, leaps: nat): int
    requires dt.year >= 1900 && 1 <= dt.month <= 12
  {
    var hours := Days(dt.year, dt.month, dt.day) * 24 + dt.hour;
    var seconds := (hours * 60 + dt.minute) * 60 + dt.second + leaps;
    (seconds * 1_000_000 + dt.micro) * 4096
  }

  /** Leap seconds in the table before entry `k`'s date, that one included. */
  function LeapsAt(k: nat): nat { if k < 24 then 24 - k else 0 }

  // The table of the conversion.
  const MONTH_OFFSETS: seq<nat> := [0, 31, 59, 90, 120, 151, 181, 212, 243, 273, 304, 334]

  predicate LeapYear(year: int) {
    year % 4 == 0 && (year % 100 != 0 || year % 400 == 0)
  }

  /** Days of the year before the month. */
  function MonthOffset(year: int, month: int): nat
    requires 1 <= month <= 12
  {
    MONTH_OFFSETS[month - 1] + (if month > 2 && LeapYear(year) then 1 else 0)
  }

  /** The table agrees with the lengths of the months. */
  lemma {:induction false} OffsetIs(year: int, month: int)
    requires year >= 1900 && 1 <= month <= 12
    ensures MonthStart(year, month) == MonthStart(year, 1) + MonthOffset(year, month)
    ensures month < 12 ==> MonthOffset(year, month + 1) == MonthOffset(year, month) + MonthDays(year, month)
    decreases month
  {
    if month > 1 { OffsetIs(year, month - 1); }
  }

  /** A year from January or July on has 365 days, or 366 if its end of February is in a leap year. */
  lemma YearStep(year: int, month: int)
    requires year >= 1900 && (month == 1 || month == 7)
    ensures MonthStart(year + 1, month) == MonthStart(year, month) +
      if LeapYear(if month == 1 then year else year + 1) then 366 else 365
  {
    OffsetIs(year, month);
    OffsetIs(year, 12);
    OffsetIs(year + 1, month);
    assert MonthStart(year + 1, 1) == MonthStart(year, 12) + 31;
  }

  lemma {:induction false} YearStartIs(year: int)
    requires 1901 <= year <= 2100
    ensures MonthStart(year, 1) == 365 * (year - 1900) + (year - 1901) / 4
  {
    YearStep(year - 1, 1);
    if year > 1901 {
      YearStartIs(year - 1);
      var q := (year - 1) / 4;
      assert LeapYear(year - 1) <==> year - 1 == 4 * q;
    }
  }

  predicate DatedEntry(k: nat)
    requires k < |LEAP_SECS|
  {
    var e := LEAP_SECS[k];
    && (e.month == 1 || e.month == 7) && e.year >= 1900 && e.leap == (k < 24)
    && e.tod == Days(e.year, e.month, 1) * DAY + LeapsAt(k) * SEC
  }

  /** The date's day number by whole years, for the years of the table. */
  function EntryDays(e: LeapSec): int {
    365 * (e.year - 1900) + (e.year - 1901) / 4 + (if e.month == 1 then 0 else if e.year % 4 == 0 then 182 else 181)
  }

  predicate EntryOk(e: LeapSec, leaps: nat) {
    (e.month == 1 || e.month == 7) && 1972 <= e.year < 2100 && e.tod == EntryDays(e) * DAY + leaps * SEC
  }

  lemma EntryDated(e: LeapSec, leaps: nat)
    requires EntryOk(e, leaps)
    ensures e.tod == Days(e.year, e.month, 1) * DAY + leaps * SEC
  {
    YearStartIs(e.year);
    OffsetIs(e.year, e.month);
    assert Days(e.year, e.month, 1) == EntryDays(e);
  }

  lemma RecentEntries(k: nat)
    requires k < 13
    ensures EntryOk(LEAP_SECS[k], LeapsAt(k)) && LEAP_SECS[k].leap
  {
  }

  lemma EarlyEntries(k: nat)
    requires 13 <= k < 25
    ensures EntryOk(LEAP_SECS[k], LeapsAt(k)) && LEAP_SECS[k].leap == (k < 24)
  {
  }

  /** Every entry's clock value is its date's, plus the leap seconds up to it. */
  lemma TableDates(k: nat)
    requires k < |LEAP_SECS|
    ensures DatedEntry(k)
  {
    if k < 13 { RecentEntries(k); } else if k < 25 { EarlyEntries(k); }
    if k < 25 { EntryDated(LEAP_SECS[k], LeapsAt(k)); }
  }

  /** The entries are half a year apart or more. */
  lemma TableGaps(k: nat)
    requires k < |LEAP_SECS|
    ensures k + 1 < |LEAP_SECS| ==> LEAP_SECS[k].tod > LEAP_SECS[k + 1].tod + 2 * SEC
    ensures k == 0 ==> LEAP_SECS[k].tod + 2 * SEC < TOD_LIMIT
  {
  }

  lemma {:induction false} TableDescends(k: nat, h: nat)
    requires k < h < |LEAP_SECS|
    ensures LEAP_SECS[k].tod > LEAP_SECS[h].tod + 2 * SEC
    decreases h - k
  {
    TableGaps(k);
    if k + 1 < h { TableDescends(k + 1, h); }
  }

  /** Entry `i` is the most recent one at `tod`. */
  predicate IsCurrent(tod: nat, i: nat) {
    i < |LEAP_SECS| && LEAP_SECS[i].tod <= tod && (i > 0 ==> LEAP_SECS[i - 1].tod > tod)
  }

  method FindEntry(tod: nat) returns (i: nat)
    ensures IsCurrent(tod, i)
  {
    i := 0;
    while LEAP_SECS[i].tod > tod
      invariant i < |LEAP_SECS| && (i > 0 ==> LEAP_SECS[i - 1].tod > tod)
      decreases |LEAP_SECS| - i
    {
      i := i + 1;
    }
  }

  lemma CurrentIs(tod: nat, i: nat, k: nat)
    requires IsCurrent(tod, i) && k < |LEAP_SECS|
    ensures LEAP_SECS[k].tod <= tod <==> i <= k
  {
    if i < k { TableDescends(i, k); }
    if k + 1 < i { TableDescends(k, i - 1); }
  }

  lemma {:induction false} LeapsCounted(tod: nat, i: nat, k: nat)
    requires IsCurrent(tod, i) && k <= |LEAP_SECS|
    ensures LeapsFrom(tod, k) == LeapsAt(if k < i then i else k)
    decreases |LEAP_SECS| - k
  {
    if k < |LEAP_SECS| {
      LeapsCounted(tod, i, k + 1);
      CurrentIs(tod, i, k);
      TableDates(k);
    }
  }

  /** 64-bit addition. */
  function Ahead(tod: nat): nat
    requires tod < TOD_LIMIT
  {
    if tod + SEC < TOD_LIMIT then tod + SEC else tod + SEC - TOD_LIMIT
  }

  /** The entry a second ahead tells whether the clock is inside a leap second. */
  predicate Tells(tod: nat, i: nat, j: nat)
    requires i < |LEAP_SECS| && j < |LEAP_SECS|
  {
    if i != j && LEAP_SECS[j].leap then j + 1 == i && InLeap(tod, j) && tod - SEC > LEAP_SECS[i].tod
    else forall k :: 0 <= k < |LEAP_SECS| ==> !InLeap(tod, k)
  }

  lemma AheadWraps(tod: nat, i: nat, j: nat)
    requires tod < TOD_LIMIT <= tod + SEC && IsCurrent(tod, i) && IsCurrent(tod + SEC - TOD_LIMIT, j)
    ensures Tells(tod, i, j)
  {
    TableGaps(0);
    CurrentIs(tod, i, 0);
    TableGaps(24);
    if j < 25 {
      CurrentIs(tod + SEC - TOD_LIMIT, j, 24);
      TableDates(24);
      TableDates(25);
    }
    TableDates(j);
    forall k | 0 <= k < |LEAP_SECS| ensures !InLeap(tod, k) { CurrentIs(tod, i, k); }
  }

  lemma SecondAhead(tod: nat, i: nat, j: nat)
    requires tod < TOD_LIMIT && IsCurrent(tod, i) && IsCurrent(Ahead(tod), j)
    ensures Tells(tod, i, j)
  {
    if tod + SEC < TOD_LIMIT { AheadInRange(tod, i, j); } else { AheadWraps(tod, i, j); }
  }

  lemma AheadInRange(tod: nat, i: nat, j: nat)
    requires tod + SEC < TOD_LIMIT && IsCurrent(tod, i) && IsCurrent(tod + SEC, j)
    ensures Tells(tod, i, j)
  {
    CurrentIs(tod + SEC, j, i);
    if j < i {
      CurrentIs(tod, i, j);
      if j + 1 < i { TableDescends(j, i - 1); }
      TableGaps(j);
    }
    forall k | 0 <= k < |LEAP_SECS| && InLeap(tod, k) ensures k == j && j < i {
      CurrentIs(tod, i, k);
      CurrentIs(tod + SEC, j, k);
      if j < k { TableDescends(j, k); }
    }
  }

  // ---- The conversion ----

  /** Take whole years off `rest`, counted from the first of January or July. */
  method WholeYears(year0: int, month: int, rest0: int) returns (year: int, rest: int)
    requires year0 >= 1900 && (month == 1 || month == 7) && rest0 >= 0
    ensures year >= year0 && 0 <= rest < 366 * DAY
    ensures Days(year, month, 1) * DAY + rest == Days(year0, month, 1) * DAY + rest0
  {
    year, rest := year0, rest0;
    while true
      invariant year >= year0 && rest >= 0
      invariant Days(year, month, 1) * DAY + rest == Days(year0, month, 1) * DAY + rest0
      decreases rest
    {
      var length := if LeapYear(if month == 1 then year else year + 1) then YEAR + DAY else YEAR;
      if rest < length { break; }
      YearStep(year, month);
      rest := rest - length;
      year := year + 1;
    }
  }

  /** The month and day `days` days after the first of January or July. */
  method FindMonth(year0: int, month0: int, days: int) returns (year: int, month: int, day: int)
    requires year0 >= 1900 && (month0 == 1 || month0 == 7) && 0 <= days < 366
    ensures year >= year0 && 1 <= month <= 12 && 0 <= day < MonthDays(year, month)
    ensures Days(year, month, day + 1) == Days(year0, month0, days + 1)
  {
    year, month, day := year0, month0, days;
    while true
      invariant year >= year0 && 1 <= month <= 12 && day >= 0
      invariant Days(year, month, day + 1) == Days(year0, month0, days + 1)
      decreases day
    {
      ghost var m := month;
      var i := MonthOffset(year, month);
      while month < 12 && i + day >= MonthOffset(year, month + 1)
        invariant 1 <= month <= 12 && i + day >= MonthOffset(year, month)
        decreases 12 - month
      {
        month := month + 1;
      }
      day := day + i - MonthOffset(year, month);
      OffsetIs(year, m);
      OffsetIs(year, month);
      if month < 12 || day < 31 { break; }
      year, month, day := year + 1, 1, day - 31;
    }
  }

  /** Hours, minutes, seconds and microseconds of a day. */
  method TimeOfDay(time: int) returns (hour: int, minute: int, second: int, micro: int)
    requires 0 <= time < DAY
    ensures 0 <= hour < 24 && 0 <= minute < 60 && 0 <= second < 60 && 0 <= micro < 1_000_000
    ensures hour * HOUR + minute * MIN + second * SEC + micro * MICROSEC == time - time % MICROSEC
    ensures time >= DAY - SEC ==> second == 59
  {
    var tod := time;
    hour := tod / HOUR;
    tod := tod - hour * HOUR;
    minute := tod / MIN;
    tod := tod - minute * MIN;
    second := tod / SEC;
    tod := tod - second * SEC;
    micro := tod / MICROSEC;
    assert HOUR % MICROSEC == 0 && MIN % MICROSEC == 0 && SEC % MICROSEC == 0;
    assert time == hour * HOUR + minute * MIN + second * SEC + tod;
    assert time % MICROSEC == tod % MICROSEC;
  }

  lemma EndOfDay(e: int, day: int, time: int)
    requires e * DAY - SEC <= day * DAY + time < e * DAY && 0 <= time < DAY
    ensures time >= DAY - SEC
  {
  }

  /** Inside a leap second the clock less a second is in the last second of a day. */
  lemma LastSecond(tod: nat, i: nat, j: nat, number: int, day: int, time: int)
    requires i < |LEAP_SECS| && j + 1 == i && InLeap(tod, j)
    requires number == Days(LEAP_SECS[i].year, LEAP_SECS[i].month, 1)
    requires day * DAY + time == number * DAY + tod - SEC - LEAP_SECS[i].tod && 0 <= time < DAY
    ensures time >= DAY - SEC
  {
    TableDates(i);
    TableDates(j);
    var from, to := LEAP_SECS[i].tod, LEAP_SECS[j].tod;
    var e := Days(LEAP_SECS[j].year, LEAP_SECS[j].month, 1);
    assert LeapsAt(j) == LeapsAt(i) + 1;
    EndOfDay(e, day, time);
  }

  lemma ClockIs(dt: DateTime, leaps: nat)
    requires dt.year >= 1900 && 1 <= dt.month <= 12
    ensures ClockOf(dt, leaps) == Days(dt.year, dt.month, dt.day) * DAY
      + dt.hour * HOUR + dt.minute * MIN + (dt.second + leaps) * SEC + dt.micro * MICROSEC
  {
  }

  method ParseTod(tod: nat) returns (r: Option<DateTime>)
    requires tod < TOD_LIMIT
    ensures r.Some? && ValidDate(r.value)
    ensures ClockOf(r.value, LeapsBy(tod)) == tod - tod % 4096
    ensures r.value.second == 60 <==> exists k :: 0 <= k < |LEAP_SECS| && InLeap(tod, k)
  {
    var i := FindEntry(tod);
    var j := FindEntry(Ahead(tod));
    SecondAhead(tod, i, j);
    LeapsCounted(tod, i, 0);
    TableDates(i);
    TableDates(j);
    var entry := LEAP_SECS[i];
    var rest := tod - entry.tod;
    var addSec := 0;
    if i != j && LEAP_SECS[j].leap {
      rest, addSec := rest - SEC, 1;
    }
    if entry.month != 1 && entry.month != 7 { return None; }
    var year, left := WholeYears(entry.year, entry.month, rest);
    var days := left / DAY;
    var time := left - days * DAY;
    var month, day;
    ghost var number := Days(year, entry.month, days + 1);
    if addSec == 1 { LastSecond(tod, i, j, Days(entry.year, entry.month, 1), number, time); }
    year, month, day := FindMonth(year, entry.month, days);
    var hour, minute, second, micro := TimeOfDay(time);
    ClockIs(DateTime(year, month, day + 1, hour, minute, second + addSec, micro), LeapsBy(tod));
    Assemble(tod, number, time, LeapsAt(i) + addSec);
    return Some(DateTime(year, month, day + 1, hour, minute, second + addSec, micro));
  }

  lemma Assemble(tod: nat, number: int, time: int, leaps: nat)
    requires tod == number * DAY + leaps * SEC + time
    ensures tod - tod % MICROSEC == number * DAY + leaps * SEC + time - time % MICROSEC
  {
    assert DAY % MICROSEC == 0 && SEC % MICROSEC == 0;
  }
}
