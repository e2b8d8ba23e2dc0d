/** The failed sign-in throttle: per key, the times of recent attempts, pruned as it goes. */
module Throttle {
  /** Nanoseconds of a clock that does not run backwards. */
  type Instant = int

  const WINDOW: int := 5 * 60 * 1_000_000_000
  const THROTTLE_FAILURES: nat := 5

  type Table = map<string, seq<Instant>>

  /** `at.saturating_duration_since(t) < WINDOW`. */
  predicate InWindow(at: Instant, t: Instant) {
    (if at < t then 0 else at - t) < WINDOW
  }

  /** `times.retain(in the window)`. */
  function Recent(times: seq<Instant>, at: Instant): (r: seq<Instant>) {
    if times == [] then [] else
      (if InWindow(at, times[0]) then [times[0]] else []) + Recent(times[1..], at)
  }

  function Times(m: Table, key: string): seq<Instant> {
    if key in m then m[key] else []
  }

  /** `map.retain(the newest is in the window)`. */
  function Swept(m: Table, at: Instant): (r: Table) {
    map k | k in m && m[k] != [] && InWindow(at, m[k][|m[k]| - 1]) :: m[k]
  }

  // ---- what each call answers and leaves --------------------------------------------------------

  function Blocked(m: Table, limit: nat, key: string, at: Instant): (Table, bool) {
    if key !in m then (m, false) else
      var m' := m[key := Recent(m[key], at)];
      (m', limit != 0 && |m'[key]| >= limit)
  }

  function Take(m: Table, limit: nat, key: string, at: Instant): (Table, bool) {
    if limit == 0 then (m, true) else
      var swept := Swept(m, at);
      var times := Recent(Times(swept, key), at);
      if |times| >= limit then (swept[key := times], false) else (swept[key := times + [at]], true)
  }

  /** Pops the newest attempt under the key, whichever attempt gives it back. */
  function Refund(m: Table, key: string): Table {
    if key !in m then m
    else if |m[key]| <= 1 then m - {key}
    else m[key := m[key][..|m[key]| - 1]]
  }

  function Fail(m: Table, key: string, at: Instant): Table {
    var swept := Swept(m, at);
    swept[key := Times(swept, key) + [at]]
  }

  /** The throttle as the handlers share it, one call at a time under its mutex. */
  class Throttle {
    var failures: Table
    const limit: nat

    constructor (limit: nat)
      ensures this.limit == limit && failures == map[]
    {
      this.limit := limit;
      failures := map[];
    }

    method BlockedAt(key: string, at: Instant) returns (blocked: bool)
      modifies this
      ensures (failures, blocked) == Blocked(old(failures), limit, key, at)
    {
      if key !in failures {
        return false;
      }
      var times := Retain(failures[key], at);
      failures := failures[key := times];
      blocked := limit != 0 && |times| >= limit;
    }

    method TakeAt(key: string, at: Instant) returns (ok: bool)
      modifies this
      ensures (failures, ok) == Take(old(failures), limit, key, at)
    {
      if limit == 0 {
        return true;
      }
      failures := Swept(failures, at);
      var times := Retain(if key in failures then failures[key] else [], at);
      ok := |times| < limit;
      failures := failures[key := if ok then times + [at] else times];
    }

    method RefundKey(key: string)
      modifies this
      ensures failures == Refund(old(failures), key)
    {
      if key in failures {
        var times := failures[key];
        if times != [] { times := times[..|times| - 1]; }
        failures := if times == [] then failures - {key} else failures[key := times];
      }
    }

    method FailAt(key: string, at: Instant)
      modifies this
      ensures failures == Fail(old(failures), key, at)
    {
      failures := Swept(failures, at);
      failures := failures[key := (if key in failures then failures[key] else []) + [at]];
    }

    /** At any later time the key is unblocked and its next attempt let through, and every other key is answered
        as it would have been. */
    method Clear(key: string)
      modifies this
      ensures failures == old(failures) - {key}
      ensures forall at :: !Blocked(failures, limit, key, at).1 && Take(failures, limit, key, at).1
      ensures forall k, at | k != key ::
                && Blocked(failures, limit, k, at).1 == Blocked(old(failures), limit, k, at).1
                && Take(failures, limit, k, at).1 == Take(old(failures), limit, k, at).1
    {
      failures := failures - {key};
    }
  }

  /** Keeps the attempts still in the window, in order. */
  method Retain(times: seq<Instant>, at: Instant) returns (kept: seq<Instant>)
    ensures kept == Recent(times, at)
  {
    kept := [];
    for i := 0 to |times|
      invariant kept + Recent(times[i..], at) == Recent(times, at)
    {
      if InWindow(at, times[i]) { kept := kept + [times[i]]; }
    }
  }
}
