/** Every wrong guess counts: over any interleaving of local sign-ins the throttle blocks a name exactly when the wrong
    guesses at it within the window, since the last right one, have reached the limit. */
module HashCount {
  import opened Throttle
  import opened ThrottleProofs
  import opened HashBound

  /** A log of wrong guesses by name that never forgets, after a step: a right guess clears the name. */
  function Noted(s: State, l: Label, log: Table): Table
    requires Enabled(s, l)
  {
    if !l.Finish? then log
    else
      var name := s.attempts[l.i].name;
      log[name := if l.ok then [] else Times(log, name) + [s.now]]
  }

  function Guesses(s: State, ls: seq<Label>, log: Table): Table
    requires ValidRun(s, ls)
    decreases |ls|
  {
    if ls == [] then log else Guesses(Apply(s, ls[0]), ls[1..], Noted(s, ls[0], log))
  }

  /** The throttle's table after a step: a call on it, or nothing. */
  function TableAfter(s: State, l: Label): Table
    requires Enabled(s, l)
  {
    match l
    case Arrive(name) => Blocked(s.table, THROTTLE_FAILURES, name, s.now).0
    case Recheck(i) => Blocked(s.table, THROTTLE_FAILURES, s.attempts[i].name, s.now).0
    case Finish(i, ok) => if ok then s.table - {s.attempts[i].name} else Fail(s.table, s.attempts[i].name, s.now)
    case _ => s.table
  }

  lemma NotedStep(s: State, l: Label, log: Table)
    requires Agree(s.table, log, s.now) && Enabled(s, l)
    ensures Agree(Apply(s, l).table, Noted(s, l, log), Apply(s, l).now)
  {
    assert Apply(s, l).table == TableAfter(s, l);
    NotedOn(s, l, log, Apply(s, l).table, Apply(s, l).now);
  }

  lemma NotedOn(s: State, l: Label, log: Table, table: Table, now: Instant)
    requires Agree(s.table, log, s.now) && Enabled(s, l) && table == TableAfter(s, l)
    requires now == if l.Tick? then s.now + l.elapsed else s.now
    ensures Agree(table, Noted(s, l, log), now)
  {
    match l
    case Tick(elapsed) => AgreeLater(s.table, log, s.now, now);
    case Arrive(name) => BlockedAgrees(s.table, log, THROTTLE_FAILURES, name, s.now);
    case Recheck(i) => BlockedAgrees(s.table, log, THROTTLE_FAILURES, s.attempts[i].name, s.now);
    case Finish(i, ok) =>
      if ok { RightNoted(s, s.attempts[i].name, log); } else { WrongNoted(s, s.attempts[i].name, log); }
    case _ =>
  }

  lemma RightNoted(s: State, name: string, log: Table)
    requires Agree(s.table, log, s.now)
    ensures Agree(s.table - {name}, log[name := []], s.now)
  {
    CallAgrees(s.table, log, THROTTLE_FAILURES, s.now, ClearCall(name, s.now));
  }

  lemma WrongNoted(s: State, name: string, log: Table)
    requires Agree(s.table, log, s.now)
    ensures Agree(Fail(s.table, name, s.now), log[name := Times(log, name) + [s.now]], s.now)
  {
    CallAgrees(s.table, log, THROTTLE_FAILURES, s.now, FailCall(name, s.now));
  }

  lemma {:induction false} NotedRun(s: State, ls: seq<Label>, log: Table)
    requires Agree(s.table, log, s.now) && ValidRun(s, ls)
    ensures Agree(After(s, ls).table, Guesses(s, ls, log), After(s, ls).now)
    decreases |ls|
  {
    if ls != [] {
      NotedStep(s, ls[0], log);
      NotedRun(Apply(s, ls[0]), ls[1..], Noted(s, ls[0], log));
    }
  }

  /** The wrong guesses at a name in the window now, since the last right one. */
  function WrongGuesses(now: Instant, ls: seq<Label>, name: string): nat
    requires ValidRun(State(now, map[], []), ls)
  {
    var start := State(now, map[], []);
    |Recent(Times(Guesses(start, ls, map[]), name), After(start, ls).now)|
  }

  /** What the throttle counts is exactly the wrong guesses, however sign-ins interleave and whatever is pruned. */
  lemma FailuresAreTheWrongGuesses(now: Instant, ls: seq<Label>, name: string)
    requires ValidRun(State(now, map[], []), ls)
    ensures Failures(After(State(now, map[], []), ls), name) == WrongGuesses(now, ls, name)
  {
    NotedRun(State(now, map[], []), ls, map[]);
  }

  lemma BlockedIff(s: State, name: string)
    ensures Blocked(s.table, THROTTLE_FAILURES, name, s.now).1 <==> Failures(s, name) >= THROTTLE_FAILURES
  {
  }

  /** A name is let through to a permit, and again to its hash, exactly while the wrong guesses are below the limit. */
  lemma BlockedExactlyAtTheLimit(now: Instant, ls: seq<Label>, name: string, i: nat)
    requires ValidRun(State(now, map[], []), ls)
    ensures var s, n := After(State(now, map[], []), ls), WrongGuesses(now, ls, name);
            && Apply(s, Arrive(name)).attempts
               == s.attempts + [Attempt(name, if n >= THROTTLE_FAILURES then Over else Waiting)]
            && (At(s, i, Holding) && s.attempts[i].name == name ==>
                  Apply(s, Recheck(i)).attempts
                  == s.attempts[i := Attempt(name, if n >= THROTTLE_FAILURES then Over else Hashing)])
  {
    FailuresAreTheWrongGuesses(now, ls, name);
    BlockedIff(After(State(now, map[], []), ls), name);
  }

  /** An attempt ends only by its hash, by going away, by a dying task or at the limit; with a permit it moves on. */
  lemma AttemptEndsExactlyIf(s: State, l: Label, i: nat)
    requires Enabled(s, l) && i < |s.attempts| && !s.attempts[i].phase.Over?
    ensures var s' := Apply(s, l);
            && i < |s'.attempts| && s'.attempts[i].name == s.attempts[i].name
            && (s'.attempts[i].phase.Over? <==>
                  (l.Finish? && l.i == i) || l == Abandon(i) || l == Panic(i)
                  || (l == Recheck(i) && Failures(s, s.attempts[i].name) >= THROTTLE_FAILURES))
            && (l == Acquire(i) ==> s'.attempts[i].phase.Holding?)
  {
    BlockedIff(s, s.attempts[i].name);
  }

  /** One wrong guess counts once, for its own name; a right one leaves nothing counted for it. */
  lemma OneGuessCountsOnce(now: Instant, ls: seq<Label>, i: nat, name: string)
    requires ValidRun(State(now, map[], []), ls) && At(After(State(now, map[], []), ls), i, Hashing)
    ensures var s := After(State(now, map[], []), ls);
            var own := name == s.attempts[i].name;
            && Failures(Apply(s, Finish(i, false)), name) == Failures(s, name) + (if own then 1 else 0)
            && Failures(Apply(s, Finish(i, true)), name) == (if own then 0 else Failures(s, name))
  {
    var s, log := After(State(now, map[], []), ls), Guesses(State(now, map[], []), ls, map[]);
    NotedRun(State(now, map[], []), ls, map[]);
    NotedStep(s, Finish(i, false), log);
    NotedStep(s, Finish(i, true), log);
    RecentAppend(Times(log, name), [s.now], s.now);
  }

  /** The attempts that count at a moment: those less than five minutes old. */
  lemma {:induction false} CountsFiveMinutes(times: seq<Instant>, at: Instant, t: Instant)
    ensures t in Recent(times, at) <==> t in times && at - t < 5 * 60 * 1_000_000_000
  {
    if times != [] { CountsFiveMinutes(times[1..], at, t); }
  }

  lemma {:induction false} SomeoneHolds(attempts: seq<Attempt>)
    requires PermitsHeld(attempts) > 0
    ensures exists j :: 0 <= j < |attempts| && (attempts[j].phase.Holding? || attempts[j].phase.Hashing?)
  {
    if !attempts[0].phase.Holding? && !attempts[0].phase.Hashing? {
      SomeoneHolds(attempts[1..]);
      var j :| 0 <= j < |attempts[1..]| && (attempts[1..][j].phase.Holding? || attempts[1..][j].phase.Hashing?);
      assert attempts[1..][j] == attempts[j + 1];
    }
  }

  /** Nobody is stuck: a waiting attempt gets a permit exactly while fewer than four are out, and while four are,
      someone who holds one can go on. */
  lemma NobodyIsStuck(s: State, i: nat)
    requires At(s, i, Waiting)
    ensures Enabled(s, Acquire(i)) <==> PermitsHeld(s.attempts) < 4
    ensures !Enabled(s, Acquire(i)) ==> exists j: nat :: Enabled(s, Recheck(j)) || Enabled(s, Finish(j, true))
  {
    if PermitsHeld(s.attempts) >= 4 {
      SomeoneHolds(s.attempts);
      var j :| 0 <= j < |s.attempts| && (s.attempts[j].phase.Holding? || s.attempts[j].phase.Hashing?);
      assert Enabled(s, Recheck(j)) || Enabled(s, Finish(j, true));
    }
  }
}
