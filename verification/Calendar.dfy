/** The civil calendar: days since 1970-01-01 to and from year, month and day, as `saml.rs` computes it
    with truncating division and `migrate.rs` with Euclidean division, against the proleptic Gregorian
    calendar itself. */
module Calendar {

  datatype Date = Date(y: int, m: int, d: int)

  // ---- the calendar -------------------------------------------------------------------------------

  predicate IsLeap(y: int) { y % 4 == 0 && (y % 100 != 0 || y % 400 == 0) }

  function DaysInMonth(y: int, m: int): int
    requires 1 <= m <= 12
  {
    if m == 2 then (if IsLeap(y) then 29 else 28)
    else if m == 4 || m == 6 || m == 9 || m == 11 then 30 else 31
  }

  predicate RealDate(t: Date) { 1 <= t.m <= 12 && 1 <= t.d <= DaysInMonth(t.y, t.m) }

  function Tomorrow(t: Date): Date
    requires RealDate(t)
  {
    if t.d < DaysInMonth(t.y, t.m) then t.(d := t.d + 1)
    else if t.m < 12 then Date(t.y, t.m + 1, 1)
    else Date(t.y + 1, 1, 1)
  }

  // ---- the code -----------------------------------------------------------------------------------

  /** Division as the code's integers do it: toward zero. */
  function TruncDiv(a: int, b: int): int
    requires b > 0
  {
    if a >= 0 then a / b else -((-a) / b)
  }

  function DaysFromCivil(y: int, m: int, d: int): int {
    var y := if m <= 2 then y - 1 else y;
    var era := TruncDiv(if y >= 0 then y else y - 399, 400);
    var yoe := y - era * 400;
    var mp := (m + 9) % 12;
    var doy := (153 * mp + 2) / 5 + d - 1;
    var doe := yoe * 365 + yoe / 4 - yoe / 100 + doy;
    era * 146097 + doe - 719468
  }

  /** The date of a day of an era, the tail both conversions share. */
  function DateOfEra(era: int, doe: int): Date {
    var yoe := (doe - doe / 1460 + doe / 36524 - doe / 146096) / 365;
    var doy := doe - (365 * yoe + yoe / 4 - yoe / 100);
    var mp := (5 * doy + 2) / 153;
    var d := doy - (153 * mp + 2) / 5 + 1;
    var m := if mp < 10 then mp + 3 else mp - 9;
    var y := yoe + era * 400;
    Date(if m <= 2 then y + 1 else y, m, d)
  }

  function CivilFromDays(days: int): Date {
    var z := days + 719468;
    var era := TruncDiv(if z >= 0 then z else z - 146096, 146097);
    DateOfEra(era, z - era * 146097)
  }

  datatype Parts = Parts(date: Date, h: int, mi: int, s: int)

  function UtcParts(secs: int): Parts {
    var days := secs / 86400;
    var rem := secs % 86400;
    var z := days + 719468;
    Parts(DateOfEra(z / 146097, z % 146097), rem / 3600, rem % 3600 / 60, rem % 60)
  }

  // ---- the year of the era ------------------------------------------------------------------------

  function YearOfEra(doe: int): int { (doe - doe / 1460 + doe / 36524 - doe / 146096) / 365 }

  /** Days of the era before a year that starts in March. */
  function YearStart(yoe: int): int { 365 * yoe + yoe / 4 - yoe / 100 }

  /** The March year's length: its February is the next year's. */
  function YearLength(yoe: int): int {
    if (yoe + 1) % 4 == 0 && ((yoe + 1) % 100 != 0 || (yoe + 1) % 400 == 0) then 366 else 365
  }

  /** A day of the era by century, four-year block, year and day. */
  lemma YearOfEraAt(c: int, q: int, r: int, doy: int)
    requires 0 <= c <= 3 && 0 <= q <= 24 && 0 <= r <= 3 && 0 <= doy <= 365
    requires doy == 365 ==> r == 3 && (q < 24 || c == 3)
    ensures YearOfEra(36524 * c + 1461 * q + 365 * r + doy) == 100 * c + 4 * q + r
  {
    var doe := 36524 * c + 1461 * q + 365 * r + doy;
    var w := 24 * c + q + 365 * r + doy;
    assert doe == 1460 * (25 * c + q) + w;
    assert doe / 1460 == 25 * c + q + w / 1460;
    assert w / 1460 <= 1 && (w / 1460 == 1 <==> w >= 1460);
    if doe == 146096 {
      assert doe / 36524 == 4 && doe / 146096 == 1;
    } else {
      assert 1461 * q + 365 * r + doy < 36524;
      assert doe / 36524 == c && doe / 146096 == 0;
    }
    assert 365 * (100 * c + 4 * q + r) <= doe - doe / 1460 + doe / 36524 - doe / 146096
        < 365 * (100 * c + 4 * q + r) + 365;
  }

  lemma YearOfEraInverts(yoe: int, doy: int)
    requires 0 <= yoe < 400 && 0 <= doy < YearLength(yoe)
    ensures YearOfEra(YearStart(yoe) + doy) == yoe && 0 <= YearStart(yoe) + doy < 146097
  {
    var c, q, r := yoe / 100, yoe % 100 / 4, yoe % 4;
    assert yoe == 100 * c + 4 * q + r;
    assert YearStart(yoe) == 36524 * c + 1461 * q + 365 * r;
    YearOfEraAt(c, q, r, doy);
  }

  lemma YearOfEraSplits(doe: int)
    requires 0 <= doe < 146097
    ensures var yoe := YearOfEra(doe);
            0 <= yoe < 400 && 0 <= doe - YearStart(yoe) < YearLength(yoe)
  {
    var c := if doe / 36524 > 3 then 3 else doe / 36524;
    var rem := doe - 36524 * c;
    var q := rem / 1461;
    var rem' := rem - 1461 * q;
    var r := if rem' / 365 > 3 then 3 else rem' / 365;
    YearOfEraAt(c, q, r, rem' - 365 * r);
    YearOfBlocks(c, q, r, rem' - 365 * r);
  }

  lemma YearOfBlocks(c: int, q: int, r: int, doy: int)
    requires 0 <= c <= 3 && 0 <= q <= 24 && 0 <= r <= 3 && 0 <= doy <= 365
    requires doy == 365 ==> r == 3 && (q < 24 || c == 3)
    ensures var yoe := 100 * c + 4 * q + r;
            YearStart(yoe) == 36524 * c + 1461 * q + 365 * r && doy < YearLength(yoe)
  {
    var yoe := 100 * c + 4 * q + r;
    assert yoe / 4 == 25 * c + q && yoe / 100 == c;
  }

  // ---- the month of the year ----------------------------------------------------------------------

  function MonthStart(mp: int): int { (153 * mp + 2) / 5 }

  lemma MonthInverts(mp: int, d: int)
    requires 0 <= mp <= 11 && 1 <= d && (if mp < 11 then MonthStart(mp) + d <= MonthStart(mp + 1) else d <= 29)
    ensures (5 * (MonthStart(mp) + d - 1) + 2) / 153 == mp
  {
  }

  lemma MonthSplits(doy: int)
    requires 0 <= doy <= 365
    ensures var mp := (5 * doy + 2) / 153;
            && 0 <= mp <= 11 && MonthStart(mp) <= doy && (mp < 11 ==> doy < MonthStart(mp + 1))
  {
  }

  // ---- the two conversions ------------------------------------------------------------------------

  /** The code's eras are floors, on both sides of zero. */
  lemma YearEraAt(y: int, era: int, yoe: int)
    requires y == yoe + era * 400 && 0 <= yoe < 400
    ensures TruncDiv(if y >= 0 then y else y - 399, 400) == era
  {
  }

  /** The March year, month and day a date falls in. */
  function MarchYear(t: Date): int { if t.m <= 2 then t.y - 1 else t.y }
  function MarchMonth(t: Date): int { (t.m + 9) % 12 }

  function DayOfYear(t: Date): int { MonthStart(MarchMonth(t)) + t.d - 1 }

  lemma MarchDate(t: Date)
    requires RealDate(t)
    ensures var mp := MarchMonth(t);
            && 0 <= mp <= 11 && 0 <= DayOfYear(t) < YearLength(MarchYear(t) % 400)
            && (if mp < 11 then MonthStart(mp) + t.d <= MonthStart(mp + 1) else t.d <= 29)
            && t.m == if mp < 10 then mp + 3 else mp - 9
  {
    LeapOfEra(MarchYear(t));
  }

  lemma LeapOfEra(y: int)
    ensures YearLength(y % 400) == if IsLeap(y + 1) then 366 else 365
  {
    LeapPeriod(y % 400 + 1, y / 400);
    assert y + 1 == y % 400 + 1 + 400 * (y / 400);
  }

  lemma LeapPeriod(y: int, k: int)
    ensures IsLeap(y + 400 * k) <==> IsLeap(y)
  {
    Period(y, 100 * k, 4);
    Period(y, 4 * k, 100);
    Period(y, k, 400);
    assert 400 * k == 4 * (100 * k) == 100 * (4 * k);
  }

  lemma Period(n: int, k: int, d: int)
    requires d == 4 || d == 100 || d == 400
    ensures (n + d * k) % d == n % d
  {
  }

  lemma DaysAt(t: Date, era: int, yoe: int)
    requires 1 <= t.m <= 12 && MarchYear(t) == yoe + era * 400 && 0 <= yoe < 400
    ensures DaysFromCivil(t.y, t.m, t.d) == era * 146097 + YearStart(yoe) + DayOfYear(t) - 719468
  {
    YearEraAt(MarchYear(t), era, yoe);
  }

  /** The date of a day of a March year. */
  function FromMarch(y: int, doy: int): Date {
    var mp := (5 * doy + 2) / 153;
    var m := if mp < 10 then mp + 3 else mp - 9;
    Date(if m <= 2 then y + 1 else y, m, doy - MonthStart(mp) + 1)
  }

  lemma DateAt(era: int, yoe: int, doy: int)
    requires 0 <= yoe < 400 && 0 <= doy < YearLength(yoe)
    ensures DateOfEra(era, YearStart(yoe) + doy) == FromMarch(yoe + era * 400, doy)
  {
    YearOfEraInverts(yoe, doy);
  }

  lemma EraAt(z: int, era: int, doe: int)
    requires z == era * 146097 + doe && 0 <= doe < 146097
    ensures TruncDiv(if z >= 0 then z else z - 146096, 146097) == era
  {
  }

  lemma CivilAt(days: int, era: int, yoe: int, doy: int)
    requires 0 <= yoe < 400 && 0 <= doy < YearLength(yoe)
    requires days + 719468 == era * 146097 + (YearStart(yoe) + doy)
    ensures CivilFromDays(days) == FromMarch(yoe + era * 400, doy)
  {
    EraStarts(yoe, doy);
    CivilOfEra(days, era, YearStart(yoe) + doy);
    DateAt(era, yoe, doy);
  }

  lemma CivilOfEra(days: int, era: int, doe: int)
    requires days + 719468 == era * 146097 + doe && 0 <= doe < 146097
    ensures CivilFromDays(days) == DateOfEra(era, doe)
  {
    EraAt(days + 719468, era, doe);
  }

  lemma EraStarts(yoe: int, doy: int)
    requires 0 <= yoe < 400 && 0 <= doy < YearLength(yoe)
    ensures 0 <= YearStart(yoe) + doy < 146097
  {
    YearOfEraInverts(yoe, doy);
  }

  lemma FromMarchInverts(t: Date)
    requires RealDate(t)
    ensures FromMarch(MarchYear(t), DayOfYear(t)) == t
  {
    MarchDate(t);
    MonthInverts(MarchMonth(t), t.d);
  }

  lemma FromMarchReal(y: int, doy: int)
    requires 0 <= doy < YearLength(y % 400)
    ensures var t := FromMarch(y, doy); RealDate(t) && MarchYear(t) == y && DayOfYear(t) == doy
  {
    MonthSplits(doy);
    LeapOfEra(y);
  }

  lemma MarchDay(t: Date, era: int, yoe: int)
    requires RealDate(t) && MarchYear(t) == yoe + era * 400 && 0 <= yoe < 400
    ensures 0 <= DayOfYear(t) < YearLength(yoe)
  {
    MarchDate(t);
    Period(yoe, era, 400);
  }

  /** The day that a date's era, year and day of the year come to is that date. */
  lemma DateOfItsDay(t: Date, days: int, era: int, yoe: int)
    requires RealDate(t) && MarchYear(t) == yoe + era * 400 && 0 <= yoe < 400
    requires days == era * 146097 + YearStart(yoe) + DayOfYear(t) - 719468
    ensures CivilFromDays(days) == t
  {
    MarchDay(t, era, yoe);
    FromMarchInverts(t);
    CivilAt(days, era, yoe, DayOfYear(t));
  }

  /** A real date survives the trip to days and back. */
  lemma CivilInvertsDays(t: Date)
    requires RealDate(t)
    ensures CivilFromDays(DaysFromCivil(t.y, t.m, t.d)) == t
  {
    var era, yoe := MarchYear(t) / 400, MarchYear(t) % 400;
    DaysAt(t, era, yoe);
    DateOfItsDay(t, DaysFromCivil(t.y, t.m, t.d), era, yoe);
  }

  /** The era, year and day of the year of any day. */
  lemma DaySplits(days: int) returns (era: int, yoe: int, doy: int)
    ensures 0 <= yoe < 400 && 0 <= doy < YearLength(yoe)
    ensures days + 719468 == era * 146097 + (YearStart(yoe) + doy)
  {
    era := (days + 719468) / 146097;
    var doe := (days + 719468) % 146097;
    yoe := YearOfEra(doe);
    YearOfEraSplits(doe);
    doy := doe - YearStart(yoe);
  }

  lemma DayOfItsDate(days: int, era: int, yoe: int, doy: int, t: Date)
    requires 0 <= yoe < 400 && 0 <= doy < YearLength(yoe)
    requires days + 719468 == era * 146097 + (YearStart(yoe) + doy)
    requires t == FromMarch(yoe + era * 400, doy)
    ensures RealDate(t) && DaysFromCivil(t.y, t.m, t.d) == days
  {
    assert (yoe + era * 400) % 400 == yoe;
    FromMarchReal(yoe + era * 400, doy);
    DaysAt(t, era, yoe);
  }

  /** Every day is a real date, and converts back to itself. */
  lemma DaysInvertCivil(days: int)
    ensures var t := CivilFromDays(days);
            RealDate(t) && DaysFromCivil(t.y, t.m, t.d) == days
  {
    var era, yoe, doy := DaySplits(days);
    CivilAt(days, era, yoe, doy);
    DayOfItsDate(days, era, yoe, doy, CivilFromDays(days));
  }

  /** The round trip `parse_instant` makes accepts exactly the real dates. */
  lemma RoundTripIffReal(y: int, m: int, d: int)
    requires 1 <= m <= 12
    ensures CivilFromDays(DaysFromCivil(y, m, d)) == Date(y, m, d) <==> RealDate(Date(y, m, d))
  {
    DaysInvertCivil(DaysFromCivil(y, m, d));
    if RealDate(Date(y, m, d)) { CivilInvertsDays(Date(y, m, d)); }
  }

  /** The day number is the calendar's own count: zero on 1970-01-01, one more every day. */
  lemma DaysCountTheCalendar(t: Date)
    requires RealDate(t)
    ensures DaysFromCivil(1970, 1, 1) == 0
    ensures var n := Tomorrow(t);
            RealDate(n) && DaysFromCivil(n.y, n.m, n.d) == DaysFromCivil(t.y, t.m, t.d) + 1
  {
    if t.m == 2 && t.d == DaysInMonth(t.y, 2) {
      FebruaryEnds(t.y, t.d);
    } else {
      var era, yoe := MarchYear(t) / 400, MarchYear(t) % 400;
      SameMarchYear(t);
      DaysAt(t, era, yoe);
      DaysAt(Tomorrow(t), era, yoe);
    }
  }

  lemma SameMarchYear(t: Date)
    requires RealDate(t) && !(t.m == 2 && t.d == DaysInMonth(t.y, 2))
    ensures var n := Tomorrow(t);
            RealDate(n) && MarchYear(n) == MarchYear(t) && DayOfYear(n) == DayOfYear(t) + 1
  {
    if t.d == DaysInMonth(t.y, t.m) { NextMonthStarts(t.y, t.m); }
  }

  /** The months of the year that begins in March follow one another without a gap. */
  lemma NextMonthStarts(y: int, m: int)
    requires 1 <= m <= 12 && m != 2
    ensures MonthStart((m + 10) % 12) == MonthStart((m + 9) % 12) + DaysInMonth(y, m)
  {
  }

  /** The first of March follows the last of February. */
  lemma FebruaryEnds(y: int, d: int)
    requires d == DaysInMonth(y, 2)
    ensures DaysFromCivil(y, 3, 1) == DaysFromCivil(y, 2, d) + 1
  {
    var era, yoe := (y - 1) / 400, (y - 1) % 400;
    LeapOfEra(y - 1);
    DaysAt(Date(y, 2, d), era, yoe);
    if yoe < 399 {
      NextYear(yoe);
      DaysAt(Date(y, 3, 1), era, yoe + 1);
    } else {
      DaysAt(Date(y, 3, 1), era + 1, 0);
    }
  }

  lemma NextYear(yoe: int)
    requires 0 <= yoe < 399
    ensures YearStart(yoe + 1) == YearStart(yoe) + YearLength(yoe)
  {
  }

  lemma EuclideanDate(secs: int)
    ensures UtcParts(secs).date == CivilFromDays(secs / 86400)
  {
    var z := secs / 86400 + 719468;
    EraAt(z, z / 146097, z % 146097);
  }

  lemma TimeOfDay(secs: int)
    ensures var p := UtcParts(secs);
            && 0 <= p.h < 24 && 0 <= p.mi < 60 && 0 <= p.s < 60
            && secs / 86400 * 86400 + p.h * 3600 + p.mi * 60 + p.s == secs
  {
  }

  /** The parts of a time are a real date and a time of day, and add up to it; the Euclidean conversion
      names the same date as the truncating one. */
  lemma UtcPartsAgree(secs: int)
    ensures UtcParts(secs).date == CivilFromDays(secs / 86400)
    ensures var p := UtcParts(secs);
            && RealDate(p.date) && 0 <= p.h < 24 && 0 <= p.mi < 60 && 0 <= p.s < 60
            && DaysFromCivil(p.date.y, p.date.m, p.date.d) * 86400 + p.h * 3600 + p.mi * 60 + p.s == secs
  {
    EuclideanDate(secs);
    TimeOfDay(secs);
    DaysInvertCivil(secs / 86400);
  }
}
