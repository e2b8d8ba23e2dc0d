/** Local sign-ins: the throttle and the hashing semaphore together. Each attempt checks the throttle,
    waits for a permit, checks again, and hashes in a task that keeps the permit and does the counting,
    whatever becomes of the request. */
module HashBound {
  import opened Throttle
  import opened ThrottleProofs

  const HASH_PERMITS: nat := 4

  /** Past the first check and waiting for a permit, holding one, hashing, or finished. */
  datatype Phase = Waiting | Holding | Hashing | Over

  datatype Attempt = Attempt(name: string, phase: Phase)

  datatype State = State(now: Instant, table: Table, attempts: seq<Attempt>)

  datatype Label =
    | Tick(elapsed: nat)
    | Arrive(name: string)
    | Acquire(i: nat)
    | Recheck(i: nat)
    | Finish(i: nat, ok: bool)
    | Abandon(i: nat)                 // the request goes away while it waits for its permit
    | Panic(i: nat)                   // the hashing task dies, and its permit with it

  predicate At(s: State, i: nat, p: Phase) { i < |s.attempts| && s.attempts[i].phase == p }

  /** Password hashes under way for one name. */
  function InFlight(attempts: seq<Attempt>, name: string): nat {
    if attempts == [] then 0 else
      (if attempts[0].name == name && attempts[0].phase == Hashing then 1 else 0) + InFlight(attempts[1..], name)
  }

  function PermitsHeld(attempts: seq<Attempt>): nat {
    if attempts == [] then 0 else
      (if attempts[0].phase == Holding || attempts[0].phase == Hashing then 1 else 0) + PermitsHeld(attempts[1..])
  }

  predicate Enabled(s: State, l: Label) {
    match l
    case Tick(_) => true
    case Arrive(_) => true
    case Acquire(i) => At(s, i, Waiting) && PermitsHeld(s.attempts) < HASH_PERMITS
    case Recheck(i) => At(s, i, Holding)
    case Finish(i, _) => At(s, i, Hashing)
    case Abandon(i) => At(s, i, Waiting)
    case Panic(i) => At(s, i, Hashing)
  }

  function Move(s: State, i: nat, p: Phase): State
    requires i < |s.attempts|
  {
    s.(attempts := s.attempts[i := s.attempts[i].(phase := p)])
  }

  function Apply(s: State, l: Label): State
    requires Enabled(s, l)
  {
    match l
    case Tick(elapsed) => s.(now := s.now + elapsed)
    case Arrive(name) =>
      var (table, blocked) := Blocked(s.table, THROTTLE_FAILURES, name, s.now);
      s.(table := table, attempts := s.attempts + [Attempt(name, if blocked then Over else Waiting)])
    case Acquire(i) => Move(s, i, Holding)
    case Recheck(i) =>
      var (table, blocked) := Blocked(s.table, THROTTLE_FAILURES, s.attempts[i].name, s.now);
      Move(s, i, if blocked then Over else Hashing).(table := table)
    case Finish(i, ok) =>
      var name := s.attempts[i].name;
      Move(s, i, Over).(table := if ok then s.table - {name} else Fail(s.table, name, s.now))
    case Abandon(i) => Move(s, i, Over)
    case Panic(i) => Move(s, i, Over)
  }

  predicate ValidRun(s: State, ls: seq<Label>)
    decreases |ls|
  {
    ls != [] ==> Enabled(s, ls[0]) && ValidRun(Apply(s, ls[0]), ls[1..])
  }

  function After(s: State, ls: seq<Label>): State
    requires ValidRun(s, ls)
    decreases |ls|
  {
    if ls == [] then s else After(Apply(s, ls[0]), ls[1..])
  }

  /** Failures still in the window. */
  function Failures(s: State, name: string): nat {
    |Recent(Times(s.table, name), s.now)|
  }

  ghost predicate Inv(s: State) {
    && PermitsHeld(s.attempts) <= HASH_PERMITS
    && (forall name: string :: Sorted(Times(s.table, name), s.now))
    && (forall name: string ::
          Failures(s, name) + InFlight(s.attempts, name) <= THROTTLE_FAILURES - 1 + HASH_PERMITS)
  }

  lemma {:induction false} CountMove(attempts: seq<Attempt>, i: nat, p: Phase, name: string)
    requires i < |attempts|
    ensures var to := attempts[i := attempts[i].(phase := p)];
            && InFlight(to, name) == InFlight(attempts, name)
               + (if attempts[i].name == name && p == Hashing then 1 else 0)
               - (if attempts[i].name == name && attempts[i].phase == Hashing then 1 else 0)
            && PermitsHeld(to) == PermitsHeld(attempts)
               + (if p == Holding || p == Hashing then 1 else 0)
               - (if attempts[i].phase == Holding || attempts[i].phase == Hashing then 1 else 0)
  {
    var to := attempts[i := attempts[i].(phase := p)];
    if i == 0 {
      assert to[1..] == attempts[1..];
    } else {
      CountMove(attempts[1..], i - 1, p, name);
      assert to[1..] == attempts[1..][i - 1 := attempts[1..][i - 1].(phase := p)];
    }
  }

  lemma {:induction false} CountArrive(attempts: seq<Attempt>, a: Attempt, name: string)
    requires a.phase == Waiting || a.phase == Over
    ensures InFlight(attempts + [a], name) == InFlight(attempts, name)
    ensures PermitsHeld(attempts + [a]) == PermitsHeld(attempts)
  {
    if attempts == [] {
      assert attempts + [a] == [a];
    } else {
      CountArrive(attempts[1..], a, name);
      assert (attempts + [a])[1..] == attempts[1..] + [a];
    }
  }

  lemma {:induction false} FlightWithinPermits(attempts: seq<Attempt>, name: string)
    ensures InFlight(attempts, name) <= PermitsHeld(attempts)
  {
    if attempts != [] { FlightWithinPermits(attempts[1..], name); }
  }

  /** What the throttle calls do to the failures in the window of any name. */
  lemma BlockedFailures(s: State, key: string, name: string)
    requires Sorted(Times(s.table, name), s.now)
    ensures var (table, blocked) := Blocked(s.table, THROTTLE_FAILURES, key, s.now);
            && Sorted(Times(table, name), s.now)
            && Failures(s.(table := table), name) == Failures(s, name)
            && (!blocked ==> Failures(s, key) < THROTTLE_FAILURES)
  {
    RecentSorted(Times(s.table, name), s.now, s.now);
    RecentLater(Times(s.table, name), s.now, s.now);
  }

  lemma FailFailures(s: State, key: string, name: string)
    requires Sorted(Times(s.table, name), s.now)
    ensures var table := Fail(s.table, key, s.now);
            && Sorted(Times(table, name), s.now)
            && Failures(s.(table := table), name) <= Failures(s, name) + if key == name then 1 else 0
  {
    var swept := Times(Swept(s.table, s.now), name);
    PushSorted(swept, s.now);
    RecentAppend(swept, [s.now], s.now);
  }

  lemma TickFailures(s: State, elapsed: nat, name: string)
    requires Sorted(Times(s.table, name), s.now)
    ensures Failures(s.(now := s.now + elapsed), name) <= Failures(s, name)
  {
    RecentLater(Times(s.table, name), s.now, s.now + elapsed);
    RecentShrinks(Recent(Times(s.table, name), s.now), s.now + elapsed);
  }

  lemma {:induction false} RecentShrinks(a: seq<Instant>, at: Instant)
    ensures |Recent(a, at)| <= |a|
  {
    if a != [] { RecentShrinks(a[1..], at); }
  }

  /** One name at a time: a step adds to the sum only by starting a hash, and then the failures were
      below the limit and the permits bound the rest. */
  lemma StepBound(s: State, l: Label, name: string)
    requires Inv(s) && Enabled(s, l)
    ensures var s' := Apply(s, l);
            && PermitsHeld(s'.attempts) <= HASH_PERMITS
            && Sorted(Times(s'.table, name), s'.now)
            && Failures(s', name) + InFlight(s'.attempts, name) <= THROTTLE_FAILURES - 1 + HASH_PERMITS
  {
    var s' := Apply(s, l);
    assert Sorted(Times(s.table, name), s.now);
    assert Failures(s, name) + InFlight(s.attempts, name) <= THROTTLE_FAILURES - 1 + HASH_PERMITS;
    match l {
      case Tick(elapsed) => TickFailures(s, elapsed, name);
      case Arrive(n) =>
        BlockedFailures(s, n, name);
        CountArrive(s.attempts, s'.attempts[|s.attempts|], name);
      case Acquire(i) => CountMove(s.attempts, i, Holding, name);
      case Recheck(i) =>
        BlockedFailures(s, s.attempts[i].name, name);
        CountMove(s.attempts, i, s'.attempts[i].phase, name);
        FlightWithinPermits(s'.attempts, name);
      case Finish(i, ok) =>
        FailFailures(s, s.attempts[i].name, name);
        CountMove(s.attempts, i, Over, name);
      case Abandon(i) => CountMove(s.attempts, i, Over, name);
      case Panic(i) => CountMove(s.attempts, i, Over, name);
    }
  }

  lemma {:induction false} RunBound(s: State, ls: seq<Label>)
    requires Inv(s) && ValidRun(s, ls)
    ensures Inv(After(s, ls))
    decreases |ls|
  {
    if ls != [] {
      StepBound(s, ls[0], "");
      forall name: string { StepBound(s, ls[0], name); }
      RunBound(Apply(s, ls[0]), ls[1..]);
    }
  }

  /** Whatever is abandoned mid-hash, the failures in the window and the hashes in flight for one name
      stay within one failure of the limit plus the permits. */
  lemma GuessesInFlightBounded(now: Instant, ls: seq<Label>, name: string)
    requires ValidRun(State(now, map[], []), ls)
    ensures var s := After(State(now, map[], []), ls);
            && Failures(s, name) + InFlight(s.attempts, name) <= THROTTLE_FAILURES - 1 + HASH_PERMITS
            && PermitsHeld(s.attempts) <= HASH_PERMITS
  {
    RunBound(State(now, map[], []), ls);
  }
}
