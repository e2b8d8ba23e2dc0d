/** Text order is time order: backup stamps (`migrate.rs`) and dated log names (`logfile.rs`). */
module TimeOrder {
  import opened Calendar
  import opened Common
  import opened Instant
  import opened Text

  // ---- the code -----------------------------------------------------------------------------------

  function FormatStamp(p: Parts): string
    requires RealTime(p)
  {
    PaddedSigned(p.date.y, 4) + Padded(p.date.m, 2) + Padded(p.date.d, 2) + "T"
    + Padded(p.h, 2) + Padded(p.mi, 2) + Padded(p.s, 2) + "Z"
  }

  function UtcStamp(unix: int): string { FormatStamp(PartsOf(unix)) }

  function FormatDay(t: Date): string
    requires RealDate(t)
  {
    PaddedSigned(t.y, 4) + "-" + Padded(t.m, 2) + "-" + Padded(t.d, 2)
  }

  function LogName(stem: string, day: int): string {
    stem + "-" + FormatDay(PartsOf(day * 86400).date) + ".log"
  }

  // ---- the calendar's order -----------------------------------------------------------------------

  predicate DateBefore(a: Date, b: Date) {
    a.y < b.y || (a.y == b.y && (a.m < b.m || (a.m == b.m && a.d < b.d)))
  }

  predicate PartsBefore(p: Parts, q: Parts) {
    DateBefore(p.date, q.date)
    || (p.date == q.date && (p.h < q.h || (p.h == q.h && (p.mi < q.mi || (p.mi == q.mi && p.s < q.s)))))
  }

  function DayNumber(t: Date): int { DaysFromCivil(t.y, t.m, t.d) }

  /** `num` counts the days of the calendar. */
  ghost predicate CountsDays(num: Date -> int) {
    forall t {:trigger Tomorrow(t)} | RealDate(t) ::
      RealDate(Tomorrow(t)) && num(Tomorrow(t)) == num(t) + 1
  }

  /** `dateOf` undoes it, on every day. */
  ghost predicate Inverse(num: Date -> int, dateOf: int -> Date) {
    && (forall t {:trigger num(t)} | RealDate(t) :: dateOf(num(t)) == t)
    && (forall n {:trigger dateOf(n)} :: RealDate(dateOf(n)) && num(dateOf(n)) == n)
  }

  ghost predicate Counts(num: Date -> int, dateOf: int -> Date) { CountsDays(num) && Inverse(num, dateOf) }

  lemma {:induction false} LaterDay(num: Date -> int, dateOf: int -> Date, day: int, n: nat)
    requires n > 0 && Counts(num, dateOf)
    ensures DateBefore(dateOf(day), dateOf(day + n))
    decreases n
  {
    var c := dateOf(day + n - 1);
    assert num(Tomorrow(c)) == day + n;
    assert DateBefore(c, Tomorrow(c));
    if n > 1 { LaterDay(num, dateOf, day, n - 1); }
  }

  lemma CountOrder(num: Date -> int, dateOf: int -> Date, a: Date, b: Date)
    requires Counts(num, dateOf) && RealDate(a) && RealDate(b)
    ensures DateBefore(a, b) <==> num(a) < num(b)
    ensures a == b <==> num(a) == num(b)
  {
    if num(a) < num(b) {
      LaterDay(num, dateOf, num(a), num(b) - num(a));
    } else if num(b) < num(a) {
      LaterDay(num, dateOf, num(b), num(a) - num(b));
    }
  }

  lemma DaysAreCounted()
    ensures CountsDays(DayNumber)
  {
    forall t | RealDate(t)
      ensures RealDate(Tomorrow(t)) && DayNumber(Tomorrow(t)) == DayNumber(t) + 1
    {
      DaysCountTheCalendar(t);
    }
  }

  lemma DaysAreUndone()
    ensures Inverse(DayNumber, CivilFromDays)
  {
    forall t | RealDate(t)
      ensures CivilFromDays(DayNumber(t)) == t
    {
      CivilInvertsDays(t);
    }
    forall n
      ensures RealDate(CivilFromDays(n)) && DayNumber(CivilFromDays(n)) == n
    {
      DaysInvertCivil(n);
    }
  }

  lemma DayOrder(a: Date, b: Date)
    requires RealDate(a) && RealDate(b)
    ensures DateBefore(a, b) <==> DayNumber(a) < DayNumber(b)
    ensures a == b <==> DayNumber(a) == DayNumber(b)
  {
    DaysAreCounted();
    DaysAreUndone();
    CountOrder(DayNumber, CivilFromDays, a, b);
  }

  /** Times are ordered field by field. */
  lemma SecondsOrder(p: Parts, q: Parts)
    requires RealTime(p) && RealTime(q)
    ensures PartsBefore(p, q) <==> Seconds(p) < Seconds(q)
  {
    DayOrder(p.date, q.date);
    SecondsOrderAt(DayNumber(p.date), DayNumber(q.date), p, q);
  }

  lemma SecondsOrderAt(a: int, b: int, p: Parts, q: Parts)
    requires 0 <= p.h < 24 && 0 <= p.mi < 60 && 0 <= p.s < 60
    requires 0 <= q.h < 24 && 0 <= q.mi < 60 && 0 <= q.s < 60
    ensures a * 86400 + p.h * 3600 + p.mi * 60 + p.s < b * 86400 + q.h * 3600 + q.mi * 60 + q.s
            <==> a < b || (a == b && (p.h < q.h || (p.h == q.h && (p.mi < q.mi || (p.mi == q.mi && p.s < q.s)))))
  {
  }

  // ---- the text's order ---------------------------------------------------------------------------

  /** Fields of one width, and what follows them. */
  lemma FieldOrder(m: nat, n: nat, w: nat, r: string, s: string)
    requires m < Pow10(w) && n < Pow10(w)
    ensures Before(Fixed(m, w) + r, Fixed(n, w) + s) <==> m < n || (m == n && Before(r, s))
  {
    FixedOrder(m, n, w);
    BeforeAppend(Fixed(m, w), Fixed(n, w), r, s);
  }

  /** Both years are written with the same number of digits: four, unless they need more. */
  predicate OneWidth(x: int, y: int) { x >= 0 && y >= 0 && |Padded(x, 4)| == |Padded(y, 4)| }

  lemma YearDigits(y: nat)
    ensures var w := |Padded(y, 4)|; y < Pow10(w) && Padded(y, 4) == Fixed(y, w)
  {
    Widths();
    if y < 10000 {
      PaddedIsFixed(y, 4);
    } else {
      LongYear(y);
      DecimalIsFixed(y);
    }
  }

  lemma FourDigitsAreOneWidth(x: int, y: int)
    requires 0 <= x <= 9999 && 0 <= y <= 9999
    ensures OneWidth(x, y)
  {
    FourDigits(x);
    FourDigits(y);
  }

  /** The day's text with `sep` between its fields and `rest` behind it. */
  function DayText(t: Date, sep: string, rest: string): string
    requires RealDate(t) && t.y >= 0
  {
    Padded(t.y, 4) + (sep + (Fixed(t.m, 2) + (sep + (Fixed(t.d, 2) + rest))))
  }

  function ClockText(p: Parts): string
    requires RealTime(p)
  {
    Fixed(p.h, 2) + (Fixed(p.mi, 2) + (Fixed(p.s, 2) + "Z"))
  }

  lemma Widths()
    ensures Pow10(2) == 100 && Pow10(4) == 10000
  {
    assert Pow10(4) == 10 * Pow10(3) && Pow10(3) == 10 * Pow10(2) && Pow10(2) == 10 * Pow10(1) == 100;
  }

  lemma DayTextOrder(a: Date, b: Date, sep: string, r: string, s: string)
    requires RealDate(a) && RealDate(b) && OneWidth(a.y, b.y)
    ensures Before(DayText(a, sep, r), DayText(b, sep, s)) <==> DateBefore(a, b) || (a == b && Before(r, s))
  {
    Widths();
    var (a1, b1) := (Fixed(a.d, 2) + r, Fixed(b.d, 2) + s);
    var (a2, b2) := (Fixed(a.m, 2) + (sep + a1), Fixed(b.m, 2) + (sep + b1));
    NeverBeforeItself(sep);
    FieldOrder(a.d, b.d, 2, r, s);
    BeforeAppend(sep, sep, a1, b1);
    FieldOrder(a.m, b.m, 2, sep + a1, sep + b1);
    BeforeAppend(sep, sep, a2, b2);
    YearDigits(a.y);
    YearDigits(b.y);
    FieldOrder(a.y, b.y, |Padded(a.y, 4)|, sep + a2, sep + b2);
  }

  lemma ClockTextOrder(p: Parts, q: Parts)
    requires RealTime(p) && RealTime(q)
    ensures Before(ClockText(p), ClockText(q))
            <==> p.h < q.h || (p.h == q.h && (p.mi < q.mi || (p.mi == q.mi && p.s < q.s)))
  {
    Widths();
    NeverBeforeItself("Z");
    FieldOrder(p.s, q.s, 2, "Z", "Z");
    FieldOrder(p.mi, q.mi, 2, Fixed(p.s, 2) + "Z", Fixed(q.s, 2) + "Z");
    FieldOrder(p.h, q.h, 2, Fixed(p.mi, 2) + (Fixed(p.s, 2) + "Z"), Fixed(q.mi, 2) + (Fixed(q.s, 2) + "Z"));
  }

  lemma StampText(p: Parts)
    requires RealTime(p) && p.date.y >= 0
    ensures FormatStamp(p) == DayText(p.date, "", "T" + ClockText(p))
  {
    var y := Padded(p.date.y, 4);
    StampFields(p, y);
    Regroup(y, Fixed(p.date.m, 2), Fixed(p.date.d, 2), Fixed(p.h, 2), Fixed(p.mi, 2), Fixed(p.s, 2));
  }

  lemma StampFields(p: Parts, y: string)
    requires RealTime(p) && y == PaddedSigned(p.date.y, 4)
    ensures FormatStamp(p) == y + Fixed(p.date.m, 2) + Fixed(p.date.d, 2) + "T"
                              + Fixed(p.h, 2) + Fixed(p.mi, 2) + Fixed(p.s, 2) + "Z"
  {
    TwoDigits(p.date.m);
    TwoDigits(p.date.d);
    TwoDigits(p.h);
    TwoDigits(p.mi);
    TwoDigits(p.s);
  }

  lemma Regroup(a: string, b: string, c: string, d: string, e: string, f: string)
    ensures a + b + c + "T" + d + e + f + "Z" == a + ("" + (b + ("" + (c + ("T" + (d + (e + (f + "Z"))))))))
  {
    assert a + b + c + "T" + d + e + f + "Z" == a + b + c + ("T" + (d + (e + (f + "Z"))));
    assert "" + (b + ("" + (c + ("T" + (d + (e + (f + "Z"))))))) == b + (c + ("T" + (d + (e + (f + "Z")))));
  }

  lemma LogText(stem: string, t: Date)
    requires RealDate(t) && t.y >= 0
    ensures stem + "-" + FormatDay(t) + ".log" == (stem + "-") + DayText(t, "-", ".log")
  {
    TwoDigits(t.m);
    TwoDigits(t.d);
    RegroupDay(stem + "-", Padded(t.y, 4), Fixed(t.m, 2), Fixed(t.d, 2), ".log");
  }

  lemma RegroupDay(head: string, a: string, b: string, c: string, rest: string)
    ensures head + (a + "-" + b + "-" + c) + rest == head + (a + ("-" + (b + ("-" + (c + rest)))))
  {
    assert a + "-" + b + "-" + c + rest == a + ("-" + (b + ("-" + (c + rest))));
    assert head + (a + "-" + b + "-" + c) + rest == head + (a + "-" + b + "-" + c + rest);
  }

  // ---- years by the clock -------------------------------------------------------------------------

  /** The first second of a year. */
  function NewYear(y: int): int { DaysFromCivil(y, 1, 1) * 86400 }

  lemma YearsByTheClock(p: Parts, y: int)
    requires RealTime(p)
    ensures p.date.y < y <==> Seconds(p) < NewYear(y)
  {
    var q := Parts(Date(y, 1, 1), 0, 0, 0);
    SecondsOrder(p, q);
    assert Seconds(q) == NewYear(y);
  }

  const YEAR_0: int := -62167219200
  const YEAR_2000: int := 946684800
  const YEAR_3000: int := 32503680000
  const YEAR_10000: int := 253402300800

  lemma NewYears()
    ensures NewYear(0) == YEAR_0 && NewYear(2000) == YEAR_2000
    ensures NewYear(3000) == YEAR_3000 && NewYear(10000) == YEAR_10000
  {
  }

  lemma FourDigitSeconds(unix: int, p: Parts)
    requires RealTime(p) && Seconds(p) == unix
    ensures FourDigitYear(p) <==> YEAR_0 <= unix < YEAR_10000
  {
    NewYears();
    YearsByTheClock(p, 0);
    YearsByTheClock(p, 10000);
  }

  lemma MillenniumSeconds(unix: int, p: Parts)
    requires RealTime(p) && Seconds(p) == unix
    ensures 2000 <= p.date.y <= 2999 <==> YEAR_2000 <= unix < YEAR_3000
  {
    NewYears();
    YearsByTheClock(p, 2000);
    YearsByTheClock(p, 3000);
  }

  /** Parsing undoes formatting exactly from the first second of the year 0 to the last of 9999. */
  lemma RoundTripsInRange(unix: int)
    ensures ParseInstant(Instant.Instant(unix)) == Some(unix) <==> YEAR_0 <= unix < YEAR_10000
  {
    FourDigitSeconds(unix, PartsOf(unix));
    InstantRoundTrips(unix);
  }

  // ---- the theorems -------------------------------------------------------------------------------

  /** Stamps of years with one number of digits sort in time order, to the second. */
  lemma StampOrder(a: int, b: int)
    requires OneWidth(PartsOf(a).date.y, PartsOf(b).date.y)
    ensures Before(UtcStamp(a), UtcStamp(b)) <==> a < b
  {
    FormattedOrder(PartsOf(a), PartsOf(b));
  }

  lemma FormattedOrder(p: Parts, q: Parts)
    requires RealTime(p) && RealTime(q) && OneWidth(p.date.y, q.date.y)
    ensures Before(FormatStamp(p), FormatStamp(q)) <==> Seconds(p) < Seconds(q)
  {
    StampText(p);
    StampText(q);
    DayTextOrder(p.date, q.date, "", "T" + ClockText(p), "T" + ClockText(q));
    BeforeAppend("T", "T", ClockText(p), ClockText(q));
    NeverBeforeItself("T");
    ClockTextOrder(p, q);
    SecondsOrder(p, q);
  }

  /** Dated log names of one service sort in day order, in years with one number of digits. */
  lemma LogNameOrder(stem: string, a: int, b: int)
    requires OneWidth(PartsOf(a * 86400).date.y, PartsOf(b * 86400).date.y)
    ensures Before(LogName(stem, a), LogName(stem, b)) <==> a < b
  {
    MidnightDay(a);
    MidnightDay(b);
    DatedOrder(stem, PartsOf(a * 86400).date, PartsOf(b * 86400).date);
  }

  lemma MidnightDay(day: int)
    ensures DayNumber(PartsOf(day * 86400).date) == day
  {
    UtcPartsAgree(day * 86400);
    DaysInvertCivil(day);
  }

  lemma DatedOrder(stem: string, a: Date, b: Date)
    requires RealDate(a) && RealDate(b) && OneWidth(a.y, b.y)
    ensures Before(stem + "-" + FormatDay(a) + ".log", stem + "-" + FormatDay(b) + ".log")
            <==> DayNumber(a) < DayNumber(b)
  {
    LogText(stem, a);
    LogText(stem, b);
    BeforeAppend(stem + "-", stem + "-", DayText(a, "-", ".log"), DayText(b, "-", ".log"));
    NeverBeforeItself(stem + "-");
    NeverBeforeItself(".log");
    DayTextOrder(a, b, "-", ".log", ".log");
    DayOrder(a, b);
  }

  lemma FourDigitTimes(a: int, b: int)
    requires YEAR_0 <= a < YEAR_10000 && YEAR_0 <= b < YEAR_10000
    ensures OneWidth(PartsOf(a).date.y, PartsOf(b).date.y)
  {
    FourDigitSeconds(a, PartsOf(a));
    FourDigitSeconds(b, PartsOf(b));
    FourDigitsAreOneWidth(PartsOf(a).date.y, PartsOf(b).date.y);
  }

  // ---- where the order ends -----------------------------------------------------------------------

  /** The year 10000 is written with a smaller first digit than 9999. */
  lemma FifthDigit(a: Date, b: Date, sep: string, r: string, s: string)
    requires RealDate(a) && RealDate(b) && a.y == 9999 && b.y == 10000
    ensures Before(DayText(b, sep, s), DayText(a, sep, r)) && !Before(DayText(a, sep, r), DayText(b, sep, s))
  {
    assert Decimal(9999)[0] == '9' by {
      assert Decimal(9999) == Decimal(999) + "9" && Decimal(999) == Decimal(99) + "9";
      assert Decimal(99) == Decimal(9) + "9";
    }
    assert Decimal(10000)[0] == '1' by {
      assert Decimal(10000) == Decimal(1000) + "0" && Decimal(1000) == Decimal(100) + "0";
      assert Decimal(100) == Decimal(10) + "0" && Decimal(10) == Decimal(1) + "0";
    }
    FourDigits(9999);
    LongYear(10000);
  }

  lemma TurnOfTheYear(a: int, b: int)
    requires YEAR_10000 - 86400 <= a < YEAR_10000 <= b < YEAR_10000 + 86400
    ensures PartsOf(a).date.y == 9999 && PartsOf(b).date.y == 10000
  {
    NewYears();
    assert NewYear(9999) <= a && b < NewYear(10001);
    YearsByTheClock(PartsOf(a), 9999);
    YearsByTheClock(PartsOf(a), 10000);
    YearsByTheClock(PartsOf(b), 10000);
    YearsByTheClock(PartsOf(b), 10001);
  }

  /** The first second of the year 10000 sorts before the last of 9999. */
  lemma StampsTurn()
    ensures Before(UtcStamp(YEAR_10000), UtcStamp(YEAR_10000 - 1))
    ensures !Before(UtcStamp(YEAR_10000 - 1), UtcStamp(YEAR_10000))
  {
    TurnOfTheYear(YEAR_10000 - 1, YEAR_10000);
    var p, q := PartsOf(YEAR_10000 - 1), PartsOf(YEAR_10000);
    StampText(p);
    StampText(q);
    FifthDigit(p.date, q.date, "", "T" + ClockText(p), "T" + ClockText(q));
  }

  /** Stamps from the year 0 on sort in time order as long as, and only as long as, the year has four digits. */
  lemma StampsSortTo9999(n: int)
    ensures (forall a, b | YEAR_0 <= a < n && YEAR_0 <= b < n :: Before(UtcStamp(a), UtcStamp(b)) <==> a < b)
            <==> n <= YEAR_10000
  {
    if n <= YEAR_10000 {
      forall a, b | YEAR_0 <= a < n && YEAR_0 <= b < n ensures Before(UtcStamp(a), UtcStamp(b)) <==> a < b {
        FourDigitTimes(a, b);
        StampOrder(a, b);
      }
    } else {
      StampsTurn();
    }
  }

  /** The first day of the year 10000. */
  const DAY_10000: int := YEAR_10000 / 86400

  lemma LogNamesTurn(stem: string)
    ensures Before(LogName(stem, DAY_10000), LogName(stem, DAY_10000 - 1))
    ensures !Before(LogName(stem, DAY_10000 - 1), LogName(stem, DAY_10000))
  {
    TurnOfTheYear((DAY_10000 - 1) * 86400, DAY_10000 * 86400);
    var a, b := PartsOf((DAY_10000 - 1) * 86400).date, PartsOf(DAY_10000 * 86400).date;
    LogText(stem, a);
    LogText(stem, b);
    FifthDigit(a, b, "-", ".log", ".log");
    NeverBeforeItself(stem + "-");
    BeforeAppend(stem + "-", stem + "-", DayText(a, "-", ".log"), DayText(b, "-", ".log"));
    BeforeAppend(stem + "-", stem + "-", DayText(b, "-", ".log"), DayText(a, "-", ".log"));
  }

  /** So do dated log names. */
  lemma LogNamesSortTo9999(stem: string, n: int)
    ensures (forall a, b | YEAR_0 <= a * 86400 && a < n && YEAR_0 <= b * 86400 && b < n ::
               Before(LogName(stem, a), LogName(stem, b)) <==> a < b)
            <==> n <= DAY_10000
  {
    if n <= DAY_10000 {
      forall a, b | YEAR_0 <= a * 86400 && a < n && YEAR_0 <= b * 86400 && b < n
        ensures Before(LogName(stem, a), LogName(stem, b)) <==> a < b
      {
        FourDigitTimes(a * 86400, b * 86400);
        LogNameOrder(stem, a, b);
      }
    } else {
      LogNamesTurn(stem);
    }
  }
}
