/** What the throttle bounds: the attempts let through in any window. */
module ThrottleBounds {
  import opened Throttle
  import opened ThrottleProofs

  // ---- attempts in a window ----------------------------------------------------------------------

  /** No attempt is given back or cleared. */
  predicate Plain(calls: seq<Call>) {
    forall i | 0 <= i < |calls| :: !calls[i].RefundCall? && !calls[i].ClearCall?
  }

  /** The times of the attempts under `key` that were let through. */
  function Admitted(calls: seq<Call>, answers: seq<bool>, key: string): seq<Instant>
    requires |answers| == |calls|
  {
    if calls == [] then [] else
      (if calls[0].TakeCall? && calls[0].key == key && answers[0] then [calls[0].at] else [])
      + Admitted(calls[1..], answers[1..], key)
  }

  /** Any `limit` + 1 of them in a row take at least a window. */
  ghost predicate Spaced(a: seq<Instant>, limit: nat) {
    forall i | 0 <= i && i + limit < |a| :: a[i + limit] - a[i] >= WINDOW
  }

  function Span(a: seq<Instant>, from: Instant): seq<Instant> {
    if a == [] then []
    else if from <= a[0] < from + WINDOW then [a[0]] + Span(a[1..], from)
    else Span(a[1..], from)
  }

  lemma {:induction false} SpanPast(a: seq<Instant>, from: Instant)
    requires forall i | 0 <= i < |a| :: from + WINDOW <= a[i]
    ensures Span(a, from) == []
  {
    if a != [] { SpanPast(a[1..], from); }
  }

  /** Only the first `n` can be in a span the others are past. */
  lemma {:induction false} SpanBound(a: seq<Instant>, n: nat, from: Instant)
    requires n <= |a| && forall i | n <= i < |a| :: from + WINDOW <= a[i]
    ensures |Span(a, from)| <= n
  {
    if n == 0 { SpanPast(a, from); } else { SpanBound(a[1..], n - 1, from); }
  }

  lemma {:induction false} SpacedSpan(a: seq<Instant>, limit: nat, now: Instant, from: Instant)
    requires Sorted(a, now) && Spaced(a, limit)
    ensures |Span(a, from)| <= limit
  {
    if a != [] {
      if a[0] < from {
        assert Sorted(a[1..], now);
        assert Spaced(a[1..], limit) by {
          forall i | 0 <= i && i + limit < |a[1..]| ensures a[1..][i + limit] - a[1..][i] >= WINDOW {
            assert a[i + 1 + limit] - a[i + 1] >= WINDOW;
          }
        }
        SpacedSpan(a[1..], limit, now, from);
      } else if limit < |a| {
        assert a[0 + limit] - a[0] >= WINDOW;
        SpanBound(a, limit, from);
      } else {
        SpanBound(a, |a|, from);
      }
    }
  }

  ghost predicate Dominated(a: seq<Instant>, log: seq<Instant>) {
    forall at :: |Recent(a, at)| <= |Recent(log, at)|
  }

  lemma DominatedPush(a: seq<Instant>, log: seq<Instant>, at: Instant)
    requires Dominated(a, log)
    ensures Dominated(a + [at], log + [at]) && Dominated(a, log + [at])
  {
    forall t ensures |Recent(a + [at], t)| <= |Recent(log + [at], t)| && |Recent(a, t)| <= |Recent(log + [at], t)| {
      RecentAppend(a, [at], t);
      RecentAppend(log, [at], t);
    }
  }

  lemma {:induction false} AllRecent(a: seq<Instant>, at: Instant)
    requires forall i | 0 <= i < |a| :: InWindow(at, a[i])
    ensures Recent(a, at) == a
  {
    if a != [] { AllRecent(a[1..], at); }
  }

  lemma SuffixRecent(a: seq<Instant>, i: nat, at: Instant)
    requires i <= |a| && forall j | i <= j < |a| :: InWindow(at, a[j])
    ensures |Recent(a, at)| >= |a| - i
  {
    AllRecent(a[i..], at);
    RecentAppend(a[..i], a[i..], at);
    assert a[..i] + a[i..] == a;
  }

  /** An attempt let through with fewer than `limit` in the window keeps them spaced. */
  lemma SpacedPush(a: seq<Instant>, limit: nat, at: Instant)
    requires Sorted(a, at) && Spaced(a, limit) && |Recent(a, at)| < limit
    ensures Sorted(a + [at], at) && Spaced(a + [at], limit)
  {
    PushSorted(a, at);
    if limit <= |a| {
      var i := |a| - limit;
      if at - a[i] < WINDOW { SuffixRecent(a, i, at); }
    }
  }

  /** When the last call was made. */
  function End(calls: seq<Call>, now: Instant): Instant {
    if calls == [] then now else End(calls[1..], calls[0].at)
  }

  /** The attempts let through so far, against the log so far. */
  ghost predicate Tracks(a: seq<Instant>, log: Table, key: string, limit: nat, now: Instant) {
    Sorted(a, now) && Spaced(a, limit) && Dominated(a, Times(log, key))
  }

  lemma CallTracks(log: Table, a: seq<Instant>, limit: nat, c: Call, now: Instant, key: string)
    requires limit > 0 && Plain([c]) && now <= c.at && Tracks(a, log, key, limit, now)
    ensures var (log', b) := OnLog(log, limit, c);
            Tracks(a + Admitted([c], [b], key), log', key, limit, c.at)
  {
    assert !([c][0]).RefundCall? && !([c][0]).ClearCall?;
    var (log', b) := OnLog(log, limit, c);
    assert Admitted([c], [b], key) == if c.TakeCall? && c.key == key && b then [c.at] else [];
    assert a + [] == a;
    DominatedPush(a, Times(log, key), c.at);
    if c.TakeCall? && c.key == key && b { SpacedPush(a, limit, c.at); }
  }

  /** The attempts let through, kept up call by call. */
  function Collected(log: Table, a: seq<Instant>, limit: nat, calls: seq<Call>, key: string): seq<Instant>
    decreases |calls|
  {
    if calls == [] then a else
      var (log', b) := OnLog(log, limit, calls[0]);
      Collected(log', a + Admitted([calls[0]], [b], key), limit, calls[1..], key)
  }

  lemma {:induction false} CollectedSpaced(log: Table, a: seq<Instant>, limit: nat, calls: seq<Call>,
                                           now: Instant, key: string)
    requires limit > 0 && Plain(calls) && Timely(calls, now) && Tracks(a, log, key, limit, now)
    ensures Spaced(Collected(log, a, limit, calls, key), limit)
    ensures Sorted(Collected(log, a, limit, calls, key), End(calls, now))
    decreases |calls|
  {
    if calls != [] {
      var c := calls[0];
      var (log', b) := OnLog(log, limit, c);
      assert Plain([c]) && Plain(calls[1..]);
      CallTracks(log, a, limit, c, now, key);
      CollectedSpaced(log', a + Admitted([c], [b], key), limit, calls[1..], c.at, key);
    }
  }

  lemma {:induction false} CollectedIsAdmitted(log: Table, a: seq<Instant>, limit: nat, calls: seq<Call>, key: string)
    ensures |LogAnswers(log, limit, calls)| == |calls|
    ensures Collected(log, a, limit, calls, key) == a + Admitted(calls, LogAnswers(log, limit, calls), key)
    decreases |calls|
  {
    if calls != [] {
      var (log', b) := OnLog(log, limit, calls[0]);
      var first := Admitted([calls[0]], [b], key);
      CollectedIsAdmitted(log', a + first, limit, calls[1..], key);
      var rest := LogAnswers(log', limit, calls[1..]);
      assert ([b] + rest)[1..] == rest;
      AdmittedSplits(calls, [b] + rest, key);
    }
  }

  lemma AdmittedSplits(calls: seq<Call>, answers: seq<bool>, key: string)
    requires |answers| == |calls| && calls != []
    ensures Admitted(calls, answers, key)
            == Admitted([calls[0]], [answers[0]], key) + Admitted(calls[1..], answers[1..], key)
  {
    assert Admitted([calls[0]], [answers[0]], key)
        == if calls[0].TakeCall? && calls[0].key == key && answers[0] then [calls[0].at] else [];
  }

  /** Without refunds or clears, no window of time holds more than `limit` attempts let through. */
  lemma WindowHoldsAtMostLimit(limit: nat, calls: seq<Call>, now: Instant, key: string, from: Instant)
    requires limit > 0 && Plain(calls) && Timely(calls, now)
    ensures |TableAnswers(map[], limit, calls)| == |calls|
    ensures |Span(Admitted(calls, TableAnswers(map[], limit, calls), key), from)| <= limit
  {
    PruningIsInvisible(limit, calls, now);
    CollectedIsAdmitted(map[], [], limit, calls, key);
    CollectedSpaced(map[], [], limit, calls, now, key);
    var a := Admitted(calls, TableAnswers(map[], limit, calls), key);
    assert [] + a == a;
    SpacedSpan(a, limit, End(calls, now), from);
  }
}
