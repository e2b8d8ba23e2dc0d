/** Both pruners delete exactly the oldest files beyond the ones kept, because names sort in time order. */
module RetentionByTime {
  import opened Calendar
  import opened Common
  import opened Instant
  import opened Retention
  import opened Text
  import opened TimeOrder

  function BackupName(t: Moment): string { "backup-" + UtcStamp(t.at) + ".db" }

  /** An import backup of this millennium is found, and goes exactly when `keep` newer ones exist. */
  lemma OldestBackupsGo(times: set<Moment>, keep: nat, t: Moment)
    requires t in times && forall u | u in times :: InMillennium(u)
    ensures IsBackup(BackupName(t))
    ensures BackupName(t) in Surplus(Names(BackupName, times), keep) <==> |Newer(t, times)| >= keep
  {
    MillenniumSeconds(t.at, PartsOf(t.at));
    BackupIsFound(PartsOf(t.at));
    BackupsSort(times);
    SurplusIsOldest(BackupName, times, keep, t);
  }

  lemma BackupsSort(times: set<Moment>)
    requires forall u | u in times :: InMillennium(u)
    ensures NamesSort(BackupName, times)
  {
    forall a, b | a in times && b in times
      ensures Before(BackupName(a), BackupName(b)) <==> a.at < b.at
    {
      MillenniumSeconds(a.at, PartsOf(a.at));
      MillenniumSeconds(b.at, PartsOf(b.at));
      BackupPair(PartsOf(a.at), PartsOf(b.at));
    }
  }

  predicate InMillennium(t: Moment) { YEAR_2000 <= t.at < YEAR_3000 }

  lemma BackupIsFound(p: Parts)
    requires RealTime(p) && 2000 <= p.date.y <= 2999
    ensures IsBackup("backup-" + FormatStamp(p) + ".db")
  {
    StampHead(p);
    BackupShape(FormatStamp(p));
  }

  lemma BackupPair(p: Parts, q: Parts)
    requires RealTime(p) && RealTime(q) && FourDigitYear(p) && FourDigitYear(q)
    ensures Before("backup-" + FormatStamp(p) + ".db", "backup-" + FormatStamp(q) + ".db")
            <==> Seconds(p) < Seconds(q)
  {
    FourDigitsAreOneWidth(p.date.y, q.date.y);
    FormattedOrder(p, q);
    StampText(p);
    StampText(q);
    BackupOrder(FormatStamp(p), FormatStamp(q));
  }

  lemma StampHead(p: Parts)
    requires RealTime(p) && 2000 <= p.date.y <= 2999
    ensures |FormatStamp(p)| >= 1 && FormatStamp(p)[0] == '2'
  {
    FourDigits(p.date.y);
    var y := p.date.y;
    assert Fixed(y, 4) == Fixed(y / 10, 3) + [Digit(y % 10)];
    assert Fixed(y / 10, 3) == Fixed(y / 10 / 10, 2) + [Digit(y / 10 % 10)];
    assert Fixed(y / 10 / 10, 2) == Fixed(y / 10 / 10 / 10, 1) + [Digit(y / 10 / 10 % 10)];
    assert y / 10 / 10 / 10 == 2;
    assert Fixed(2, 1) == Fixed(0, 0) + [Digit(2)];
  }

  lemma BackupShape(stamp: string)
    requires |stamp| >= 1 && stamp[0] == '2'
    ensures IsBackup("backup-" + stamp + ".db")
  {
  }

  lemma BackupOrder(a: string, b: string)
    requires |a| == |b|
    ensures Before("backup-" + a + ".db", "backup-" + b + ".db") <==> Before(a, b)
  {
    NeverBeforeItself(".db");
    NeverBeforeItself("backup-");
    BeforeAppend(a, b, ".db", ".db");
    BeforeAppend("backup-", "backup-", a + ".db", b + ".db");
    assert "backup-" + a + ".db" == "backup-" + (a + ".db");
    assert "backup-" + b + ".db" == "backup-" + (b + ".db");
  }

  /** A day's log is found among the service's own, and goes exactly when `keep` later days have one. */
  lemma OldestLogsGo(stem: string, days: set<Moment>, keep: nat, day: Moment)
    requires day in days && forall u | u in days :: DayHasFourDigitYear(u)
    ensures IsLogOf(stem, LogName(stem, day.at))
    ensures LogName(stem, day.at) in Surplus(Names(DatedLog(stem), days), keep) <==> |Newer(day, days)| >= keep
  {
    LogIsFound(stem, day);
    LogsSort(stem, days);
    SurplusIsOldest(DatedLog(stem), days, keep, day);
  }

  function DatedLog(stem: string): Moment -> string { (u: Moment) => LogName(stem, u.at) }

  lemma LogIsFound(stem: string, day: Moment)
    requires DayHasFourDigitYear(day)
    ensures IsLogOf(stem, LogName(stem, day.at))
  {
    FourDigitSeconds(day.at * 86400, PartsOf(day.at * 86400));
    LogShape(stem, PartsOf(day.at * 86400).date);
  }

  lemma LogsSort(stem: string, days: set<Moment>)
    requires forall u | u in days :: DayHasFourDigitYear(u)
    ensures NamesSort(DatedLog(stem), days)
  {
    var name := DatedLog(stem);
    forall a, b | a in days && b in days
      ensures Before(name(a), name(b)) <==> a.at < b.at
    {
      FourDigitTimes(a.at * 86400, b.at * 86400);
      LogNameOrder(stem, a.at, b.at);
    }
  }

  predicate DayHasFourDigitYear(day: Moment) { YEAR_0 <= day.at * 86400 < YEAR_10000 }

  lemma LogShape(stem: string, t: Date)
    requires RealDate(t) && 0 <= t.y <= 9999
    ensures IsLogOf(stem, stem + "-" + FormatDay(t) + ".log")
  {
    FourDigits(t.y);
    TwoDigits(t.m);
    TwoDigits(t.d);
    DayShape(Fixed(t.y, 4), Fixed(t.m, 2), Fixed(t.d, 2));
    NameShape(stem, FormatDay(t));
  }

  lemma DayShape(a: string, b: string, c: string)
    requires |a| == 4 && |b| == |c| == 2 && Digits(a) && Digits(b) && Digits(c)
    ensures IsDayText(a + "-" + b + "-" + c)
  {
  }

  lemma NameShape(stem: string, day: string)
    requires IsDayText(day)
    ensures IsLogOf(stem, stem + "-" + day + ".log")
  {
    assert (stem + "-" + day + ".log")[|stem| + 1..] == day + ".log";
    assert (day + ".log")[..|day|] == day;
  }

  /** Exactly these names are the pruners' own. */
  lemma OnlyTheirOwnNames(n: string, stem: string)
    ensures IsBackup(n) <==> exists mid :: n == "backup-2" + mid + ".db"
    ensures IsLogOf(stem, n) <==> exists day :: IsDayText(day) && n == stem + "-" + day + ".log"
  {
    BackupNames(n);
    LogNames(n, stem);
  }

  lemma BackupNames(n: string)
    ensures IsBackup(n) <==> exists mid :: n == "backup-2" + mid + ".db"
  {
    if IsBackup(n) {
      assert n[|n| - 3..][0] == n[|n| - 3] == '.';
      assert forall i | 0 <= i < 8 :: n[i] == "backup-2"[i];
      assert |n| >= 11;
      assert n == "backup-2" + n[8..|n| - 3] + ".db";
    }
    if mid :| n == "backup-2" + mid + ".db" { assert n[|n| - 3..] == ".db"; }
  }

  lemma LogNames(n: string, stem: string)
    ensures IsLogOf(stem, n) <==> exists day :: IsDayText(day) && n == stem + "-" + day + ".log"
  {
    if IsLogOf(stem, n) {
      var rest := n[|stem| + 1..];
      var day := rest[..|rest| - 4];
      assert rest == day + ".log";
      assert n == stem + "-" + day + ".log";
    }
    if day :| IsDayText(day) && n == stem + "-" + day + ".log" { NameShape(stem, day); }
  }

  // ---- the folders --------------------------------------------------------------------------------

  /** A folder, as listed, of import backups made at `times` and of other files. */
  ghost predicate BackupFolder(files: set<string>, listing: seq<string>, times: set<Moment>, others: set<string>) {
    && NamesIn(listing) == files == others + Names(BackupName, times)
    && (forall t | t in times :: InMillennium(t)) && (forall n | n in others :: !IsBackup(n))
  }

  /** Pruning leaves the others and the newest `keep` backups. */
  method PruneBackupsByTime(dir: Folder, listing: seq<string>, keep: nat)
    requires Distinct(listing)
    modifies dir
    ensures forall times, others | BackupFolder(old(dir.files), listing, times, others) ::
              dir.files == others + Names(BackupName, Newest(times, keep))
  {
    forall times, others | BackupFolder(dir.files, listing, times, others)
      ensures dir.files - Surplus(Found(listing, IsBackup), keep) == others + Names(BackupName, Newest(times, keep))
    {
      BackupsAreFound(times);
      BackupsSort(times);
      NewestAreLeft(BackupName, times, others, IsBackup, listing, keep);
    }
    dir.PruneBackups(Some(listing), keep, {});
  }

  lemma BackupsAreFound(times: set<Moment>)
    requires forall t | t in times :: InMillennium(t)
    ensures forall t | t in times :: IsBackup(BackupName(t))
  {
    forall t | t in times ensures IsBackup(BackupName(t)) {
      MillenniumSeconds(t.at, PartsOf(t.at));
      BackupIsFound(PartsOf(t.at));
    }
  }

  /** A folder, as listed, of a service's logs of `days` and of other files. */
  ghost predicate LogFolder(files: set<string>, stem: string, listing: seq<string>, days: set<Moment>,
                            others: set<string>)
  {
    && NamesIn(listing) == files == others + Names(DatedLog(stem), days)
    && (forall t | t in days :: DayHasFourDigitYear(t)) && (forall n | n in others :: !IsLogOf(stem, n))
  }

  /** Pruning leaves the others and the newest `keep` logs. */
  method PruneLogsByTime(dir: Folder, stem: string, listing: seq<string>, keep: nat)
    requires Distinct(listing)
    modifies dir
    ensures forall days, others | LogFolder(old(dir.files), stem, listing, days, others) ::
              dir.files == others + Names(DatedLog(stem), Newest(days, keep))
  {
    forall days, others | LogFolder(dir.files, stem, listing, days, others)
      ensures dir.files - Surplus(Found(listing, LogsOf(stem)), keep)
              == others + Names(DatedLog(stem), Newest(days, keep))
    {
      LogsAreFound(stem, days);
      LogsSort(stem, days);
      NewestAreLeft(DatedLog(stem), days, others, LogsOf(stem), listing, keep);
    }
    dir.PruneLogs(stem, Some(listing), keep, {});
  }

  lemma LogsAreFound(stem: string, days: set<Moment>)
    requires forall t | t in days :: DayHasFourDigitYear(t)
    ensures forall t | t in days :: LogsOf(stem)(DatedLog(stem)(t))
  {
    forall t | t in days ensures LogsOf(stem)(DatedLog(stem)(t)) { LogIsFound(stem, t); }
  }
}
