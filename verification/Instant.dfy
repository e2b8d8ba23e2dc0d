/** SAML instants as text, both ways (`saml.rs`), against the set of texts that denote a time. */
module Instant {
  import opened Calendar
  import opened Common
  import opened Text

  // ---- times --------------------------------------------------------------------------------------

  predicate RealTime(p: Parts) {
    RealDate(p.date) && 0 <= p.h < 24 && 0 <= p.mi < 60 && 0 <= p.s < 60
  }

  predicate FourDigitYear(p: Parts) { 0 <= p.date.y <= 9999 }

  function Seconds(p: Parts): int {
    DaysFromCivil(p.date.y, p.date.m, p.date.d) * 86400 + p.h * 3600 + p.mi * 60 + p.s
  }

  /** A time's text, `fraction` behind the seconds. */
  function Written(p: Parts, fraction: string): string
    requires RealTime(p) && FourDigitYear(p)
  {
    Join(DateFields(p.date), '-') + "T" + Join(TimeFields(p), ':') + fraction + "Z"
  }

  function DateFields(t: Date): seq<string>
    requires RealDate(t) && 0 <= t.y
  {
    [Fixed(t.y, 4), Fixed(t.m, 2), Fixed(t.d, 2)]
  }

  function TimeFields(p: Parts): seq<string>
    requires RealTime(p)
  {
    [Fixed(p.h, 2), Fixed(p.mi, 2), Fixed(p.s, 2)]
  }

  /** Nothing, or a point and at least one digit. */
  predicate IsFraction(f: string) { f == "" || (|f| >= 2 && f[0] == '.' && Digits(f[1..])) }

  // ---- the code -----------------------------------------------------------------------------------

  /** What `instant` and `utc_parts` make of a time. */
  function PartsOf(unix: int): (p: Parts)
    ensures RealTime(p) && Seconds(p) == unix
  {
    UtcPartsAgree(unix);
    UtcParts(unix)
  }

  /** `instant`'s format. */
  function Format(p: Parts): string
    requires RealTime(p)
  {
    PaddedSigned(p.date.y, 4) + "-" + Padded(p.date.m, 2) + "-" + Padded(p.date.d, 2) + "T"
    + Padded(p.h, 2) + ":" + Padded(p.mi, 2) + ":" + Padded(p.s, 2) + "Z"
  }

  function Instant(unix: int): string { Format(PartsOf(unix)) }

  predicate DigitsOf(s: string, n: nat) { |s| == n && Digits(s) }

  /** The time of day without its fraction. */
  function WithoutFraction(time: string): Option<string> {
    match SplitOnce(time, '.')
    case None => Some(time)
    case Some(p) => if p.1 != "" && Digits(p.1) then Some(p.0) else None
  }

  function ReadDate(d: seq<string>): Option<Date> {
    if |d| != 3 || !DigitsOf(d[0], 4) || !DigitsOf(d[1], 2) || !DigitsOf(d[2], 2) then None
    else Some(Date(Num(d[0]), Num(d[1]), Num(d[2])))
  }

  /** The time of day, behind the date. */
  function ReadTime(date: Date, t: seq<string>): Option<Parts> {
    if |t| != 3 || !DigitsOf(t[0], 2) || !DigitsOf(t[1], 2) || !DigitsOf(t[2], 2) then None
    else Some(Parts(date, Num(t[0]), Num(t[1]), Num(t[2])))
  }

  function Checked(p: Parts): Option<int> {
    if !(1 <= p.date.m <= 12) || p.h > 23 || p.mi > 59 || p.s > 59 then None
    else
      var days := DaysFromCivil(p.date.y, p.date.m, p.date.d);
      if CivilFromDays(days) != p.date then None
      else Some(days * 86400 + p.h * 3600 + p.mi * 60 + p.s)
  }

  function FromFields(d: seq<string>, t: seq<string>): Option<int> {
    match ReadDate(d)
    case None => None
    case Some(date) =>
      match ReadTime(date, t)
      case None => None
      case Some(p) => Checked(p)
  }

  /** The date and the time of day of a text, between which it is cut. */
  function Halves(s: string): Option<(string, string)> {
    if s == "" || s[|s| - 1] != 'Z' then None
    else match SplitOnce(s[..|s| - 1], 'T')
      case None => None
      case Some(halves) =>
        match WithoutFraction(halves.1)
        case None => None
        case Some(time) => Some((halves.0, time))
  }

  function ParseInstant(s: string): Option<int> {
    match Halves(s)
    case None => None
    case Some(h) => FromFields(Split(h.0, '-'), Split(h.1, ':'))
  }

  // ---- exactly the texts that denote a time -------------------------------------------------------

  lemma ChecksTheCalendar(p: Parts)
    requires p.h >= 0 && p.mi >= 0 && p.s >= 0
    ensures Checked(p) == if RealTime(p) then Some(Seconds(p)) else None
  {
    if 1 <= p.date.m <= 12 { RoundTripIffReal(p.date.y, p.date.m, p.date.d); }
  }

  lemma DateReads(t: Date)
    requires RealDate(t) && 0 <= t.y <= 9999
    ensures ReadDate(DateFields(t)) == Some(t)
  {
    FourDigits(t.y);
    TwoDigits(t.m);
    TwoDigits(t.d);
  }

  lemma TimeReads(p: Parts)
    requires RealTime(p)
    ensures ReadTime(p.date, TimeFields(p)) == Some(p)
  {
    TwoDigits(p.h);
    TwoDigits(p.mi);
    TwoDigits(p.s);
  }

  lemma ReadIsDate(d: seq<string>)
    requires ReadDate(d).Some? && RealDate(ReadDate(d).value)
    ensures var t := ReadDate(d).value; 0 <= t.y <= 9999 && d == DateFields(t)
  {
    FourDigits(0);
    FixedOfNum(d[0]);
    FixedOfNum(d[1]);
    FixedOfNum(d[2]);
  }

  lemma ReadIsTime(date: Date, t: seq<string>)
    requires ReadTime(date, t).Some? && RealTime(ReadTime(date, t).value)
    ensures t == TimeFields(ReadTime(date, t).value)
  {
    FixedOfNum(t[0]);
    FixedOfNum(t[1]);
    FixedOfNum(t[2]);
  }

  lemma TwoDigits(n: nat)
    requires n < 100
    ensures Num(Fixed(n, 2)) == n && Padded(n, 2) == Fixed(n, 2)
  {
    assert Pow10(2) == 10 * Pow10(1) == 100;
    NumOfFixed(n, 2);
    PaddedIsFixed(n, 2);
  }

  lemma FourDigits(n: nat)
    requires n <= 9999
    ensures Pow10(4) == 10000 && Num(Fixed(n, 4)) == n && Padded(n, 4) == Fixed(n, 4)
  {
    assert Pow10(4) == 10 * Pow10(3) && Pow10(3) == 10 * Pow10(2) && Pow10(2) == 10 * Pow10(1) == 100;
    NumOfFixed(n, 4);
    PaddedIsFixed(n, 4);
  }

  /** Joined digits hold no other letter. */
  lemma JoinHasOnly(parts: seq<string>, c: char, x: char)
    requires |parts| == 3 && forall i | 0 <= i < 3 :: Digits(parts[i])
    requires x != c && !IsDigit(x)
    ensures x !in Join(parts, c)
  {
    assert Join(parts[1..], c) == parts[1] + [c] + Join(parts[1..][1..], c);
    assert Join(parts, c) == parts[0] + [c] + (parts[1] + [c] + parts[2]);
  }

  lemma FractionReads(time: string, f: string)
    requires '.' !in time && IsFraction(f)
    ensures WithoutFraction(time + f) == Some(time)
  {
    if f == "" {
      assert time + f == time;
    } else {
      assert time + f == time + ['.'] + f[1..];
      SplitOnceAt(time, '.', f[1..]);
    }
  }

  lemma WrittenCuts(date: string, time: string, f: string)
    requires 'T' !in date && '.' !in time && IsFraction(f)
    ensures Halves(date + "T" + time + f + "Z") == Some((date, time))
  {
    var s := date + "T" + time + f + "Z";
    assert s[..|s| - 1] == date + ['T'] + (time + f);
    SplitOnceAt(date, 'T', time + f);
    FractionReads(time, f);
  }

  lemma Cut(s: string) returns (f: string)
    requires Halves(s).Some?
    ensures var h := Halves(s).value; s == h.0 + "T" + h.1 + f + "Z" && IsFraction(f)
  {
    var halves := SplitOnce(s[..|s| - 1], 'T').value;
    var time := WithoutFraction(halves.1).value;
    f := Fraction(halves.1);
    assert s == s[..|s| - 1] + "Z";
    assert halves.0 + "T" + (time + f) == halves.0 + "T" + time + f;
  }

  lemma Fraction(time: string) returns (f: string)
    requires WithoutFraction(time).Some?
    ensures time == WithoutFraction(time).value + f && IsFraction(f)
  {
    f := time[|WithoutFraction(time).value|..];
  }

  /** Every text of a real time parses to it. */
  lemma ParseWritten(p: Parts, f: string)
    requires RealTime(p) && FourDigitYear(p) && IsFraction(f)
    ensures ParseInstant(Written(p, f)) == Some(Seconds(p))
  {
    JoinHasOnly(DateFields(p.date), '-', 'T');
    JoinHasOnly(TimeFields(p), ':', '.');
    WrittenCuts(Join(DateFields(p.date), '-'), Join(TimeFields(p), ':'), f);
    SplitOfJoin(DateFields(p.date), '-');
    SplitOfJoin(TimeFields(p), ':');
    DateReads(p.date);
    TimeReads(p);
    ChecksTheCalendar(p);
  }

  /** Everything that parses is the text of a real time. */
  lemma ParsedIsWritten(s: string) returns (p: Parts, f: string)
    requires ParseInstant(s).Some?
    ensures RealTime(p) && FourDigitYear(p) && IsFraction(f)
    ensures s == Written(p, f) && ParseInstant(s) == Some(Seconds(p))
  {
    f := Cut(s);
    var (date, time) := Halves(s).value;
    var d, t := Split(date, '-'), Split(time, ':');
    p := ReadTime(ReadDate(d).value, t).value;
    ChecksTheCalendar(p);
    ReadIsDate(d);
    ReadIsTime(p.date, t);
    JoinOfSplit(date, '-');
    JoinOfSplit(time, ':');
  }

  /** `parse_instant` accepts exactly the texts of real times, whatever the fraction, and answers the
      time's own count of seconds. */
  lemma ParsesExactlyRealTimes(s: string, unix: int)
    ensures ParseInstant(s) == Some(unix)
            <==> exists p, f :: RealTime(p) && FourDigitYear(p) && IsFraction(f)
                                && s == Written(p, f) && unix == Seconds(p)
  {
    if ParseInstant(s) == Some(unix) {
      var p, f := ParsedIsWritten(s);
    }
    forall p, f | RealTime(p) && FourDigitYear(p) && IsFraction(f) && s == Written(p, f)
      ensures ParseInstant(s) == Some(Seconds(p))
    {
      ParseWritten(p, f);
    }
  }

  // ---- writing and reading back -------------------------------------------------------------------

  lemma JoinThree(p: seq<string>, c: char)
    requires |p| == 3
    ensures Join(p, c) == p[0] + [c] + p[1] + [c] + p[2]
  {
    assert Join(p[1..], c) == p[1] + [c] + Join(p[1..][1..], c);
    assert p[1..][1..] == [p[2]];
    assert p[0] + [c] + (p[1] + [c] + p[2]) == p[0] + [c] + p[1] + [c] + p[2];
  }

  lemma SixFields(d: seq<string>, t: seq<string>)
    requires |d| == |t| == 3
    ensures Join(d, '-') + "T" + Join(t, ':') + "" + "Z"
            == d[0] + "-" + d[1] + "-" + d[2] + "T" + t[0] + ":" + t[1] + ":" + t[2] + "Z"
  {
    JoinThree(d, '-');
    JoinThree(t, ':');
    var head := d[0] + "-" + d[1] + "-" + d[2] + "T";
    assert head + (t[0] + ":" + t[1] + ":" + t[2]) == head + t[0] + ":" + t[1] + ":" + t[2];
  }

  lemma FormatIsWritten(p: Parts)
    requires RealTime(p) && FourDigitYear(p)
    ensures Format(p) == Written(p, "")
  {
    FourDigits(p.date.y);
    TwoDigits(p.date.m);
    TwoDigits(p.date.d);
    TwoDigits(p.h);
    TwoDigits(p.mi);
    TwoDigits(p.s);
    SixFields(DateFields(p.date), TimeFields(p));
  }

  lemma WrittenHead(p: Parts, f: string)
    requires RealTime(p) && FourDigitYear(p)
    ensures var s := Written(p, f); |s| > 4 && IsDigit(s[0]) && s[4] == '-'
  {
    var d := DateFields(p.date);
    assert Join(d, '-') == d[0] + "-" + Join(d[1..], '-');
    assert |d[0]| == 4 && IsDigit(d[0][0]);
  }

  lemma FormatHead(p: Parts)
    requires RealTime(p)
    ensures PaddedSigned(p.date.y, 4) <= Format(p)
  {
  }

  /** A year of another width starts a text no time has. */
  lemma OddYearIsUnreadable(p: Parts)
    requires RealTime(p) && !FourDigitYear(p)
    ensures ParseInstant(Format(p)).None?
  {
    var s := Format(p);
    FormatHead(p);
    if p.date.y > 9999 {
      LongYear(p.date.y);
      assert IsDigit(s[4]);
    } else {
      assert s[0] == '-';
    }
    if ParseInstant(s).Some? {
      var q, f := ParsedIsWritten(s);
      WrittenHead(q, f);
    }
  }

  lemma LongYear(y: nat)
    requires y > 9999
    ensures |Padded(y, 4)| > 4 && Digits(Padded(y, 4))
  {
    DecimalIsFixed(y);
    FourDigits(0);
    if |Decimal(y)| <= 4 { PowersGrow(|Decimal(y)|, 4); }
  }

  /** `parse_instant` undoes `instant` exactly in the years that have four digits. */
  lemma InstantRoundTrips(unix: int)
    ensures ParseInstant(Instant(unix)) == Some(unix) <==> FourDigitYear(PartsOf(unix))
  {
    var p := PartsOf(unix);
    if FourDigitYear(p) {
      FormatIsWritten(p);
      ParseWritten(p, "");
    } else {
      OddYearIsUnreadable(p);
    }
  }
}
