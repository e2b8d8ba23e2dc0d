/** The two pruners, of import backups (`migrate.rs`) and of dated logs (`logfile.rs`): which files they
    delete, by name and by time. */
module Retention {
  import opened Common
  import opened Text

  // ---- what goes ----------------------------------------------------------------------------------

  /** The names that sort behind one. */
  function Later(n: string, names: set<string>): set<string> { set m | m in names && Before(n, m) }

  /** The names beyond the last `keep`: at least `keep` others sort behind each. */
  function Surplus(names: set<string>, keep: nat): set<string> {
    set n | n in names && |Later(n, names)| >= keep
  }

  // ---- the code -----------------------------------------------------------------------------------

  predicate StartsWith(s: string, p: string) { p <= s }

  predicate EndsWith(s: string, p: string) { |p| <= |s| && s[|s| - |p|..] == p }

  predicate IsBackup(n: string) { StartsWith(n, "backup-2") && EndsWith(n, ".db") }

  predicate IsDayText(s: string) {
    |s| == 10 && forall i | 0 <= i < 10 :: if i == 4 || i == 7 then s[i] == '-' else IsDigit(s[i])
  }

  predicate IsLogOf(stem: string, n: string) {
    StartsWith(n, stem + "-")
    && var rest := n[|stem| + 1..];
       EndsWith(rest, ".log") && IsDayText(rest[..|rest| - 4])
  }

  function LogsOf(stem: string): string -> bool { n => IsLogOf(stem, n) }

  function Found(listing: seq<string>, wanted: string -> bool): set<string> {
    set n | n in listing && wanted(n)
  }

  function Matching(listing: seq<string>, wanted: string -> bool): (r: seq<string>)
    ensures forall n :: n in r <==> n in listing && wanted(n)
  {
    if listing == [] then []
    else
      var rest := Matching(listing[1..], wanted);
      if wanted(listing[0]) then [listing[0]] + rest else rest
  }

  function Insert(n: string, s: seq<string>): seq<string> {
    if s == [] || Before(n, s[0]) then [n] + s else [s[0]] + Insert(n, s[1..])
  }

  function SortNames(s: seq<string>): seq<string> {
    if s == [] then [] else Insert(s[0], SortNames(s[1..]))
  }

  class Folder {
    var files: set<string>

    constructor (files: set<string>)
      ensures this.files == files
    {
      this.files := files;
    }

    /** Deletes all but the last `keep` of the sorted names; deleting a `stuck` file fails. */
    method RemoveOldest(sorted: seq<string>, keep: nat, stuck: set<string>)
      modifies this
      ensures files == old(files) - (NamesIn(sorted[..Excess(sorted, keep)]) - stuck)
    {
      var excess := Excess(sorted, keep);
      for i := 0 to excess
        invariant files == old(files) - (NamesIn(sorted[..i]) - stuck)
      {
        if sorted[i] !in stuck { files := files - {sorted[i]}; }
        assert sorted[..i + 1] == sorted[..i] + [sorted[i]];
      }
    }

    /** `listing` is what reading the directory yields, in any order, if it can be read. */
    method PruneBackups(listing: Option<seq<string>>, keep: nat, stuck: set<string>)
      requires listing.Some? ==> Distinct(listing.value)
      modifies this
      ensures listing.None? ==> files == old(files)
      ensures listing.Some? ==>
                files == old(files) - (Surplus(Found(listing.value, IsBackup), keep) - stuck)
    {
      if listing.None? { return; }
      var backups := SortNames(Matching(listing.value, IsBackup));
      SortedSurplus(listing.value, IsBackup, keep);
      RemoveOldest(backups, keep, stuck);
    }

    method PruneLogs(stem: string, listing: Option<seq<string>>, keep: nat, stuck: set<string>)
      requires listing.Some? ==> Distinct(listing.value)
      modifies this
      ensures listing.None? ==> files == old(files)
      ensures listing.Some? ==>
                files == old(files) - (Surplus(Found(listing.value, LogsOf(stem)), keep) - stuck)
    {
      if listing.None? { return; }
      var dated := SortNames(Matching(listing.value, LogsOf(stem)));
      SortedSurplus(listing.value, LogsOf(stem), keep);
      RemoveOldest(dated, keep, stuck);
    }
  }

  predicate Distinct(s: seq<string>) { forall i, j | 0 <= i < j < |s| :: s[i] != s[j] }

  function NamesIn(s: seq<string>): set<string> { set n | n in s }

  function Excess(s: seq<string>, keep: nat): nat { if |s| > keep then |s| - keep else 0 }

  // ---- sorting ------------------------------------------------------------------------------------

  predicate Ascending(s: seq<string>) { forall i, j | 0 <= i < j < |s| :: Before(s[i], s[j]) }

  lemma {:induction false} InsertKeeps(n: string, s: seq<string>)
    requires Ascending(s) && n !in s
    ensures Ascending(Insert(n, s)) && NamesIn(Insert(n, s)) == NamesIn(s) + {n}
    ensures |Insert(n, s)| == |s| + 1
  {
    if s == [] {
    } else if Before(n, s[0]) {
      forall i | 0 < i < |s| ensures Before(n, s[i]) { BeforeIsTransitive(n, s[0], s[i]); }
    } else {
      var rest := Insert(n, s[1..]);
      InsertKeeps(n, s[1..]);
      BeforeIsTotal(n, s[0]);
      assert forall m | m in rest :: m in NamesIn(s[1..]) + {n};
      assert forall m | m in rest :: Before(s[0], m);
      assert s == [s[0]] + s[1..];
    }
  }

  lemma {:induction false} SortKeeps(s: seq<string>)
    requires Distinct(s)
    ensures Ascending(SortNames(s)) && NamesIn(SortNames(s)) == NamesIn(s) && |SortNames(s)| == |s|
  {
    if s != [] {
      SortKeeps(s[1..]);
      assert s[0] !in NamesIn(s[1..]);
      InsertKeeps(s[0], SortNames(s[1..]));
      assert s == [s[0]] + s[1..];
    }
  }

  lemma {:induction false} MatchingDistinct(s: seq<string>, wanted: string -> bool)
    requires Distinct(s)
    ensures Distinct(Matching(s, wanted))
  {
    if s != [] { MatchingDistinct(s[1..], wanted); }
  }

  lemma {:induction false} AscendingSize(s: seq<string>)
    requires Ascending(s)
    ensures |NamesIn(s)| == |s|
  {
    if s != [] {
      var last := s[|s| - 1];
      AscendingSize(s[..|s| - 1]);
      NeverBeforeItself(last);
      assert NamesIn(s) == NamesIn(s[..|s| - 1]) + {last};
    }
  }

  lemma LaterInOrder(s: seq<string>, i: nat)
    requires Ascending(s) && i < |s|
    ensures Later(s[i], NamesIn(s)) == NamesIn(s[i + 1..]) && |Later(s[i], NamesIn(s))| == |s| - 1 - i
  {
    forall j | 0 <= j <= i ensures !Before(s[i], s[j]) {
      NeverBeforeItself(s[j]);
      if Before(s[i], s[j]) { BeforeIsTransitive(s[j], s[i], s[j]); }
    }
    AscendingSize(s[i + 1..]);
  }

  /** The front of a sorted list is its surplus, and what stays behind it is `keep` names or all. */
  lemma FrontIsSurplus(s: seq<string>, keep: nat)
    requires Ascending(s)
    ensures NamesIn(s[..Excess(s, keep)]) == Surplus(NamesIn(s), keep)
    ensures |NamesIn(s) - Surplus(NamesIn(s), keep)| == if |s| < keep then |s| else keep
  {
    var e := Excess(s, keep);
    forall i | 0 <= i < |s|
      ensures s[i] in Surplus(NamesIn(s), keep) <==> i < e
    {
      LaterInOrder(s, i);
    }
    assert NamesIn(s) - Surplus(NamesIn(s), keep) == NamesIn(s[e..]);
    AscendingSize(s[e..]);
  }

  lemma SortedSurplus(listing: seq<string>, wanted: string -> bool, keep: nat)
    requires Distinct(listing)
    ensures var sorted := SortNames(Matching(listing, wanted));
            NamesIn(sorted[..Excess(sorted, keep)]) == Surplus(Found(listing, wanted), keep)
  {
    var found := Matching(listing, wanted);
    MatchingDistinct(listing, wanted);
    SortKeeps(found);
    FrontIsSurplus(SortNames(found), keep);
    assert NamesIn(found) == Found(listing, wanted);
  }

  /** The pruner keeps `keep` names, or all of fewer. */
  lemma KeepsTheLast(names: seq<string>, keep: nat)
    requires Distinct(names)
    ensures |NamesIn(names) - Surplus(NamesIn(names), keep)| == if |names| < keep then |names| else keep
  {
    SortKeeps(names);
    FrontIsSurplus(SortNames(names), keep);
  }

  // ---- names for times ----------------------------------------------------------------------------

  /** What a file's name dates it to: a second for a backup, a day for a log. */
  datatype Moment = Moment(at: int)

  /** Names that sort like their times. */
  ghost predicate NamesSort(name: Moment -> string, times: set<Moment>) {
    forall a, b | a in times && b in times :: Before(name(a), name(b)) <==> a.at < b.at
  }

  function Newer(t: Moment, times: set<Moment>): set<Moment> { set u | u in times && u.at > t.at }

  function Names(name: Moment -> string, times: set<Moment>): set<string> { set u | u in times :: name(u) }

  lemma {:induction false} NamesAreAsMany(name: Moment -> string, times: set<Moment>)
    requires NamesSort(name, times)
    ensures |Names(name, times)| == |times|
    decreases |times|
  {
    if times != {} {
      var t :| t in times;
      var rest := times - {t};
      NamesAreAsMany(name, rest);
      forall u | u in rest ensures name(u) != name(t) { NeverBeforeItself(name(t)); }
      assert Names(name, times) == Names(name, rest) + {name(t)};
    }
  }

  /** Whatever names sort like their times, the surplus is the oldest beyond the newest `keep`. */
  lemma SurplusIsOldest(name: Moment -> string, times: set<Moment>, keep: nat, t: Moment)
    requires NamesSort(name, times) && t in times
    ensures name(t) in Surplus(Names(name, times), keep) <==> |Newer(t, times)| >= keep
  {
    NamesAreAsMany(name, Newer(t, times));
    assert Later(name(t), Names(name, times)) == Names(name, Newer(t, times));
  }

  /** The newest `keep`. */
  function Newest(times: set<Moment>, keep: nat): set<Moment> { set t | t in times && |Newer(t, times)| < keep }

  /** In a folder of such files and others, what pruning leaves is the others and the newest. */
  lemma NewestAreLeft(name: Moment -> string, times: set<Moment>, others: set<string>, wanted: string -> bool,
                      listing: seq<string>, keep: nat)
    requires NamesSort(name, times) && NamesIn(listing) == others + Names(name, times)
    requires (forall t | t in times :: wanted(name(t))) && (forall n | n in others :: !wanted(n))
    ensures NamesIn(listing) - Surplus(Found(listing, wanted), keep) == others + Names(name, Newest(times, keep))
  {
    assert Found(listing, wanted) == Names(name, times) by {
      forall n | n in Found(listing, wanted) ensures n in Names(name, times) { assert n in NamesIn(listing); }
      forall n | n in Names(name, times) ensures n in Found(listing, wanted) { assert n in NamesIn(listing); }
    }
    forall t | t in times
      ensures name(t) in Surplus(Names(name, times), keep) <==> t !in Newest(times, keep)
    {
      SurplusIsOldest(name, times, keep, t);
    }
    NamesTellApart(name, times, Newest(times, keep));
  }

  lemma NamesTellApart(name: Moment -> string, times: set<Moment>, some: set<Moment>)
    requires NamesSort(name, times) && some <= times
    ensures forall t | t in times :: name(t) in Names(name, some) <==> t in some
  {
    forall t | t in times && name(t) in Names(name, some) ensures t in some {
      var u :| u in some && name(u) == name(t);
      NeverBeforeItself(name(t));
    }
  }
}
