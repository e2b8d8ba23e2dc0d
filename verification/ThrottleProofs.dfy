/** The pruned table answers like a log that never forgets; and what the throttle bounds. */
module ThrottleProofs {
  import opened Throttle

  datatype Call =
    | TakeCall(key: string, at: Instant)
    | FailCall(key: string, at: Instant)
    | BlockedCall(key: string, at: Instant)
    | RefundCall(key: string, at: Instant)
    | ClearCall(key: string, at: Instant)

  /** One call on the throttle's own table: the new table and the answer. */
  function OnTable(m: Table, limit: nat, c: Call): (Table, bool) {
    match c
    case TakeCall(k, at) => Take(m, limit, k, at)
    case FailCall(k, at) => (Fail(m, k, at), true)
    case BlockedCall(k, at) => Blocked(m, limit, k, at)
    case RefundCall(k, _) => (Refund(m, k), true)
    case ClearCall(k, _) => (m - {k}, true)
  }

  /** The same call on a log that drops nothing: an attempt is counted by looking back over the window,
      and a refund takes back the newest attempt. */
  function OnLog(log: Table, limit: nat, c: Call): (Table, bool) {
    var times := Times(log, c.key);
    var spent := limit != 0 && |Recent(times, c.at)| >= limit;
    match c
    case TakeCall(k, at) => if limit == 0 || spent then (log, !spent) else (log[k := times + [at]], true)
    case FailCall(k, at) => (log[k := times + [at]], true)
    case BlockedCall(_, _) => (log, spent)
    case RefundCall(k, _) => (if times == [] then log else log[k := times[..|times| - 1]], true)
    case ClearCall(k, _) => (log[k := []], true)
  }

  function TableAnswers(m: Table, limit: nat, calls: seq<Call>): seq<bool>
    decreases |calls|
  {
    if calls == [] then [] else
      var (m', b) := OnTable(m, limit, calls[0]);
      [b] + TableAnswers(m', limit, calls[1..])
  }

  function LogAnswers(log: Table, limit: nat, calls: seq<Call>): seq<bool>
    decreases |calls|
  {
    if calls == [] then [] else
      var (log', b) := OnLog(log, limit, calls[0]);
      [b] + LogAnswers(log', limit, calls[1..])
  }

  /** A clock that never runs backwards. */
  predicate Timely(calls: seq<Call>, now: Instant) {
    calls != [] ==> now <= calls[0].at && Timely(calls[1..], calls[0].at)
  }

  predicate Sorted(s: seq<Instant>, now: Instant) {
    && (forall i, j | 0 <= i < j < |s| :: s[i] <= s[j])
    && (forall i | 0 <= i < |s| :: s[i] <= now)
  }

  /** The two tables see the same recent attempts from now on. */
  ghost predicate Agree(m: Table, log: Table, now: Instant) {
    forall k: string :: Sorted(Times(m, k), now) && Sorted(Times(log, k), now)
                        && Recent(Times(m, k), now) == Recent(Times(log, k), now)
  }

  // ---- looking back over a window ----------------------------------------------------------------

  lemma {:induction false} RecentAppend(s: seq<Instant>, t: seq<Instant>, at: Instant)
    ensures Recent(s + t, at) == Recent(s, at) + Recent(t, at)
  {
    if s == [] {
      assert s + t == t;
    } else {
      RecentAppend(s[1..], t, at);
      assert (s + t)[1..] == s[1..] + t;
    }
  }

  lemma {:induction false} RecentLater(s: seq<Instant>, now: Instant, at: Instant)
    requires now <= at && forall i | 0 <= i < |s| :: s[i] <= now
    ensures Recent(Recent(s, now), at) == Recent(s, at)
  {
    if s != [] {
      RecentLater(s[1..], now, at);
      if InWindow(now, s[0]) {
        RecentAppend([s[0]], Recent(s[1..], now), at);
      } else {
        assert Recent(s, now) == Recent(s[1..], now) && Recent(s, at) == Recent(s[1..], at);
      }
    }
  }

  lemma {:induction false} RecentSorted(s: seq<Instant>, now: Instant, at: Instant)
    requires Sorted(s, at)
    ensures Sorted(Recent(s, now), at) && forall t | t in Recent(s, now) :: t in s
  {
    if s != [] {
      assert s == [s[0]] + s[1..];
      RecentSorted(s[1..], now, at);
      var rest := Recent(s[1..], now);
      forall i | 0 <= i < |rest| ensures s[0] <= rest[i] { assert rest[i] in s[1..]; }
      if InWindow(now, s[0]) {
        assert Recent(s, now) == [s[0]] + rest;
      } else {
        assert Recent(s, now) == rest;
      }
    }
  }

  /** The newest attempt decides whether any is recent. */
  lemma {:induction false} NewestDecides(s: seq<Instant>, now: Instant)
    requires s != [] && Sorted(s, now)
    ensures var init, last := s[..|s| - 1], s[|s| - 1];
            && Recent(s, now) == Recent(init, now) + Recent([last], now)
            && Sorted(init, now)
            && (!InWindow(now, last) ==> Recent(s, now) == [] && Recent(init, now) == [])
  {
    var init, last := s[..|s| - 1], s[|s| - 1];
    assert s == init + [last];
    RecentAppend(init, [last], now);
    if !InWindow(now, last) { NoneRecent(init, now, last); }
  }

  lemma {:induction false} NoneRecent(s: seq<Instant>, now: Instant, last: Instant)
    requires last <= now && !InWindow(now, last) && forall i | 0 <= i < |s| :: s[i] <= last
    ensures Recent(s, now) == []
  {
    if s != [] { NoneRecent(s[1..], now, last); }
  }

  // ---- the refinement ------------------------------------------------------------------------------

  /** Agreement lasts while nothing happens. */
  lemma AgreeLater(m: Table, log: Table, now: Instant, at: Instant)
    requires Agree(m, log, now) && now <= at
    ensures Agree(m, log, at)
  {
    forall k: string
      ensures Sorted(Times(m, k), at) && Sorted(Times(log, k), at)
              && Recent(Times(m, k), at) == Recent(Times(log, k), at)
    {
      RecentLater(Times(m, k), now, at);
      RecentLater(Times(log, k), now, at);
    }
  }

  /** A swept key had nothing recent, so the log would find nothing either. */
  lemma SweptAgrees(m: Table, log: Table, at: Instant)
    requires Agree(m, log, at)
    ensures Agree(Swept(m, at), log, at)
  {
    var m' := Swept(m, at);
    forall k: string
      ensures Sorted(Times(m', k), at) && Recent(Times(m', k), at) == Recent(Times(log, k), at)
    {
      assert Sorted(Times(m, k), at) && Recent(Times(m, k), at) == Recent(Times(log, k), at);
      if k in m && k !in m' && m[k] != [] { NewestDecides(m[k], at); }
    }
  }

  /** Replacing one key's attempts in both tables. */
  lemma ReplaceAgrees(m: Table, log: Table, m': Table, log': Table, key: string, at: Instant)
    requires Agree(m, log, at)
    requires forall k: string | k != key :: Times(m', k) == Times(m, k) && Times(log', k) == Times(log, k)
    requires Sorted(Times(m', key), at) && Sorted(Times(log', key), at)
    requires Recent(Times(m', key), at) == Recent(Times(log', key), at)
    ensures Agree(m', log', at)
  {
    forall k: string
      ensures Sorted(Times(m', k), at) && Sorted(Times(log', k), at)
              && Recent(Times(m', k), at) == Recent(Times(log', k), at)
    {
      assert Sorted(Times(m, k), at) && Sorted(Times(log, k), at);
    }
  }

  lemma PushSorted(s: seq<Instant>, at: Instant)
    requires Sorted(s, at)
    ensures Sorted(s + [at], at)
  {
  }

  lemma PushRecent(kept: seq<Instant>, was: seq<Instant>, at: Instant)
    requires Recent(kept, at) == Recent(was, at) && forall i | 0 <= i < |kept| :: kept[i] <= at
    ensures Recent(kept + [at], at) == Recent(was + [at], at) == Recent(Recent(kept, at) + [at], at)
  {
    RecentLater(kept, at, at);
    RecentAppend(kept, [at], at);
    RecentAppend(Recent(kept, at), [at], at);
    RecentAppend(was, [at], at);
  }

  /** Both tables gain the same attempt. */
  lemma PushAgrees(m: Table, log: Table, m': Table, log': Table, key: string, at: Instant)
    requires Agree(m, log, at)
    requires forall k: string | k != key :: Times(m', k) == Times(m, k) && Times(log', k) == Times(log, k)
    requires Times(m', key) == Times(m, key) + [at] || Times(m', key) == Recent(Times(m, key), at) + [at]
    requires Times(log', key) == Times(log, key) + [at]
    ensures Agree(m', log', at)
  {
    var kept := Times(m, key);
    assert Sorted(kept, at) && Sorted(Times(log, key), at);
    RecentSorted(kept, at, at);
    PushSorted(kept, at);
    PushSorted(Recent(kept, at), at);
    PushSorted(Times(log, key), at);
    PushRecent(kept, Times(log, key), at);
    ReplaceAgrees(m, log, m', log', key, at);
  }

  function Popped(s: seq<Instant>): seq<Instant> {
    if s == [] then [] else s[..|s| - 1]
  }

  lemma PopRecent(kept: seq<Instant>, was: seq<Instant>, at: Instant)
    requires Sorted(kept, at) && Sorted(was, at) && Recent(kept, at) == Recent(was, at)
    ensures Sorted(Popped(kept), at) && Sorted(Popped(was), at)
    ensures Recent(Popped(kept), at) == Recent(Popped(was), at)
  {
    if kept != [] { NewestDecides(kept, at); }
    if was != [] { NewestDecides(was, at); }
    if kept != [] && was != [] && InWindow(at, kept[|kept| - 1]) && InWindow(at, was[|was| - 1]) {
      var r := Recent(kept, at);
      assert Recent(Popped(kept), at) == r[..|r| - 1] == Recent(Popped(was), at);
    }
  }

  lemma RefundTimes(m: Table, log: Table, key: string, at: Instant, k: string)
    ensures Times(Refund(m, key), k) == if k == key then Popped(Times(m, k)) else Times(m, k)
    ensures Times(OnLog(log, 0, RefundCall(key, at)).0, k) == if k == key then Popped(Times(log, k)) else Times(log, k)
  {
  }

  lemma RefundAgrees(m: Table, log: Table, key: string, at: Instant)
    requires Agree(m, log, at)
    ensures Agree(Refund(m, key), OnLog(log, 0, RefundCall(key, at)).0, at)
  {
    var m', log' := Refund(m, key), OnLog(log, 0, RefundCall(key, at)).0;
    forall k: string { RefundTimes(m, log, key, at, k); }
    PopRecent(Times(m, key), Times(log, key), at);
    ReplaceAgrees(m, log, m', log', key, at);
  }

  lemma BlockedAgrees(m: Table, log: Table, limit: nat, key: string, at: Instant)
    requires Agree(m, log, at)
    ensures Agree(Blocked(m, limit, key, at).0, log, at)
    ensures Blocked(m, limit, key, at).1 == OnLog(log, limit, BlockedCall(key, at)).1
  {
    var kept := Times(m, key);
    assert Sorted(kept, at) && Sorted(Times(log, key), at) && Recent(kept, at) == Recent(Times(log, key), at);
    RecentSorted(kept, at, at);
    RecentLater(kept, at, at);
    ReplaceAgrees(m, log, Blocked(m, limit, key, at).0, log, key, at);
  }

  lemma TakeAgrees(m: Table, log: Table, limit: nat, key: string, at: Instant)
    requires Agree(m, log, at)
    ensures Agree(Take(m, limit, key, at).0, OnLog(log, limit, TakeCall(key, at)).0, at)
    ensures Take(m, limit, key, at).1 == OnLog(log, limit, TakeCall(key, at)).1
  {
    if limit != 0 {
      var swept := Swept(m, at);
      SweptAgrees(m, log, at);
      var kept := Times(swept, key);
      assert Sorted(kept, at) && Recent(kept, at) == Recent(Times(log, key), at);
      var m', log' := Take(m, limit, key, at).0, OnLog(log, limit, TakeCall(key, at)).0;
      if |Recent(kept, at)| < limit {
        PushAgrees(swept, log, m', log', key, at);
      } else {
        RecentSorted(kept, at, at);
        RecentLater(kept, at, at);
        assert Sorted(Times(log, key), at);
        ReplaceAgrees(swept, log, m', log, key, at);
      }
    }
  }

  lemma CallAgrees(m: Table, log: Table, limit: nat, now: Instant, c: Call)
    requires Agree(m, log, now) && now <= c.at
    ensures OnTable(m, limit, c).1 == OnLog(log, limit, c).1
    ensures Agree(OnTable(m, limit, c).0, OnLog(log, limit, c).0, c.at)
  {
    AgreeLater(m, log, now, c.at);
    match c
    case TakeCall(k, at) => TakeAgrees(m, log, limit, k, at);
    case BlockedCall(k, at) => BlockedAgrees(m, log, limit, k, at);
    case RefundCall(k, at) => RefundAgrees(m, log, k, at);
    case FailCall(k, at) =>
      SweptAgrees(m, log, at);
      PushAgrees(Swept(m, at), log, Fail(m, k, at), OnLog(log, limit, c).0, k, at);
    case ClearCall(k, at) =>
      ReplaceAgrees(m, log, m - {k}, log[k := []], k, at);
  }

  lemma {:induction false} AnswersAgree(m: Table, log: Table, limit: nat, calls: seq<Call>, now: Instant)
    requires Agree(m, log, now) && Timely(calls, now)
    ensures TableAnswers(m, limit, calls) == LogAnswers(log, limit, calls)
    decreases |calls|
  {
    if calls != [] {
      CallAgrees(m, log, limit, now, calls[0]);
      AnswersAgree(OnTable(m, limit, calls[0]).0, OnLog(log, limit, calls[0]).0, limit, calls[1..], calls[0].at);
    }
  }

  /** Forgetting is invisible: from a new throttle, every run of calls gets the answers of a log that
      keeps every attempt. */
  lemma PruningIsInvisible(limit: nat, calls: seq<Call>, now: Instant)
    requires Timely(calls, now)
    ensures TableAnswers(map[], limit, calls) == LogAnswers(map[], limit, calls)
  {
    AnswersAgree(map[], map[], limit, calls, now);
  }
}
