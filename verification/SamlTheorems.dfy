/** Acceptance over whole runs: sign-ins started, assertions issued, responses presented, a clock that never
    goes back and restarts that lose the table. An identifier is accepted once although the table forgets
    (section 4.1.4.5 of the SAML 2.0 profiles). */
module SamlTheorems {
  import opened Common
  import opened Saml

  // ---- runs ---------------------------------------------------------------------------------------

  datatype Accepted = Accepted(request: string, assertion: string, at: int)

  /** `cookies` are the unforgeable flow cookies of this process, by request; `minted` the signed assertions
      the identity provider has issued, by identifier; `log` every acceptance. */
  datatype World = World(clock: int, cookies: map<string, int>, started: set<string>,
                         minted: map<string, Assertion>, spent: Table, log: seq<Accepted>)

  /** `unguessable`: no assertion issued before a request was made names that request. */
  datatype Env = Env(cfg: Config, unguessable: bool, restarts: bool)

  datatype Label =
    | Tick(to: int)
    | Begin(id: string)
    | Mint(a: Assertion)
    | Respond(request: string, assertion: string, expires: int)
    | Restart

  /** The assertion confirms an answer to this request. */
  predicate Mentions(a: Assertion, request: string) {
    && |a.subjects| == 1
    && exists i | 0 <= i < |a.subjects[0].confirmations| ::
         var c := a.subjects[0].confirmations[i]; |c.data| == 1 && c.data[0].inResponseTo == Some(request)
  }

  ghost predicate Enabled(env: Env, s: World, l: Label) {
    match l
    case Tick(to) => to >= s.clock
    case Begin(id) =>
      id !in s.started
      && (env.unguessable ==> forall a | a in s.minted :: !Mentions(s.minted[a], id))
    case Mint(a) => a.id.Some? && a.id.value !in s.minted
    case Respond(request, assertion, expires) =>
      && request in s.cookies && s.clock < s.cookies[request] && assertion in s.minted
      && Acceptable(env.cfg, s.minted[assertion], request, s.clock)
      && LastMoment(env.cfg, s.minted[assertion], request, s.clock, expires)
    case Restart => env.restarts
  }

  function Apply(env: Env, s: World, l: Label): World {
    match l
    case Tick(to) => s.(clock := to)
    case Begin(id) => s.(cookies := s.cookies[id := s.clock + FLOW_SECS], started := s.started + {id})
    case Mint(a) => if a.id.Some? then s.(minted := s.minted[a.id.value := a]) else s
    case Respond(request, assertion, expires) =>
      var (table, first) := Spend(s.spent, env.cfg, request, assertion, expires, s.clock);
      s.(spent := table, log := if first then s.log + [Accepted(request, assertion, s.clock)] else s.log)
    case Restart => s.(cookies := map[], spent := map[])
  }

  ghost predicate ValidRun(env: Env, s: World, ls: seq<Label>)
    decreases |ls|
  {
    ls != [] ==> Enabled(env, s, ls[0]) && ValidRun(env, Apply(env, s, ls[0]), ls[1..])
  }

  function After(env: Env, s: World, ls: seq<Label>): World
    decreases |ls|
  {
    if ls == [] then s else After(env, Apply(env, s, ls[0]), ls[1..])
  }

  function Fresh(clock: int): World { World(clock, map[], {}, map[], map[], []) }

  // ---- the table ----------------------------------------------------------------------------------

  /** The entry is there and lasts to `u`. */
  predicate Holds(spent: Table, k: Key, u: int) { k in spent && spent[k] >= u }

  /** An entry that still matters survives a response, whatever it is for. */
  lemma SpendKeeps(spent: Table, cfg: Config, r: string, a: string, expires: int, now: int, k: Key, u: int)
    requires Holds(spent, k, u) && now < u
    ensures Holds(Spend(spent, cfg, r, a, expires, now).0, k, u)
  {
  }

  /** A first use enters both identifiers, long enough. */
  lemma SpendEnters(spent: Table, cfg: Config, r: string, a: string, expires: int, now: int)
    requires Spend(spent, cfg, r, a, expires, now).1
    ensures var t := Spend(spent, cfg, r, a, expires, now).0;
            && Holds(t, RequestKey(r), now + FLOW_SECS + cfg.skew)
            && Holds(t, AssertionKey(a), now + FLOW_SECS + cfg.skew)
            && Holds(t, AssertionKey(a), expires + cfg.skew)
  {
  }

  /** What is held past now is refused. */
  lemma HeldIsRefused(spent: Table, cfg: Config, r: string, a: string, expires: int, now: int, u: int)
    requires now < u && (Holds(spent, RequestKey(r), u) || Holds(spent, AssertionKey(a), u))
    ensures !Spend(spent, cfg, r, a, expires, now).1
  {
  }

  lemma {:induction false} SubsetSize(a: set<Key>, b: set<Key>)
    requires a <= b
    ensures |a| <= |b|
    decreases |a|
  {
    if a != {} {
      var k :| k in a;
      SubsetSize(a - {k}, b - {k});
    }
  }

  lemma SpendFits(spent: Table, cfg: Config, r: string, a: string, expires: int, now: int)
    requires |spent| <= MAX_SPENT
    ensures |Spend(spent, cfg, r, a, expires, now).0| <= MAX_SPENT
  {
    var live := Live(spent, now);
    assert live.Keys <= spent.Keys;
    SubsetSize(live.Keys, spent.Keys);
    assert |live.Keys| == |live| && |spent.Keys| == |spent|;
    var t := Spend(spent, cfg, r, a, expires, now).0;
    if Spend(spent, cfg, r, a, expires, now).1 {
      assert t.Keys == live.Keys + {RequestKey(r)} + {AssertionKey(a)};
      assert |t.Keys| == |t|;
    }
  }

  // ---- once per request ---------------------------------------------------------------------------

  /** Why an accepted request cannot be accepted again: its cookie runs out while its entry is held. */
  predicate RequestGuarded(env: Env, s: World, e: Accepted) {
    && e.at <= s.clock && e.request in s.started
    && (e.request in s.cookies ==>
          && s.cookies[e.request] <= e.at + FLOW_SECS
          && (s.clock >= e.at + FLOW_SECS
              || Holds(s.spent, RequestKey(e.request), e.at + FLOW_SECS + env.cfg.skew)))
  }

  predicate CookiesRunOut(s: World) {
    forall r | r in s.cookies :: r in s.started && s.cookies[r] <= s.clock + FLOW_SECS
  }

  predicate DistinctRequests(log: seq<Accepted>) {
    forall i, j | 0 <= i < j < |log| :: log[i].request != log[j].request
  }

  predicate RequestInv(env: Env, s: World) {
    && CookiesRunOut(s)
    && (forall i | 0 <= i < |s.log| :: RequestGuarded(env, s, s.log[i]))
    && DistinctRequests(s.log)
  }

  lemma RequestStep(env: Env, s: World, l: Label)
    requires RequestInv(env, s) && Enabled(env, s, l)
    ensures RequestInv(env, Apply(env, s, l))
  {
    if l.Respond? { RequestResponds(env, s, l); }
  }

  lemma RequestResponds(env: Env, s: World, l: Label)
    requires RequestInv(env, s) && l.Respond? && Enabled(env, s, l)
    ensures RequestInv(env, Apply(env, s, l))
  {
    var cfg, s' := env.cfg, Apply(env, s, l);
    forall i | 0 <= i < |s.log|
      ensures RequestGuarded(env, s', s.log[i])
      ensures |s'.log| > |s.log| ==> s.log[i].request != l.request
    {
      var e := s.log[i];
      var u := e.at + FLOW_SECS + cfg.skew;
      if e.request in s.cookies && s.clock < e.at + FLOW_SECS {
        SpendKeeps(s.spent, cfg, l.request, l.assertion, l.expires, s.clock, RequestKey(e.request), u);
        if e.request == l.request {
          HeldIsRefused(s.spent, cfg, l.request, l.assertion, l.expires, s.clock, u);
        }
      }
    }
    if |s'.log| > |s.log| {
      SpendEnters(s.spent, cfg, l.request, l.assertion, l.expires, s.clock);
      assert RequestGuarded(env, s', s'.log[|s.log|]);
    }
  }

  lemma {:induction false} RequestRun(env: Env, s: World, ls: seq<Label>)
    requires RequestInv(env, s) && ValidRun(env, s, ls)
    ensures RequestInv(env, After(env, s, ls))
    decreases |ls|
  {
    if ls != [] {
      RequestStep(env, s, ls[0]);
      RequestRun(env, Apply(env, s, ls[0]), ls[1..]);
    }
  }

  /** Over any run, restarts included, no request is accepted twice. */
  lemma AcceptedOncePerRequest(env: Env, clock: int, ls: seq<Label>)
    requires ValidRun(env, Fresh(clock), ls)
    ensures DistinctRequests(After(env, Fresh(clock), ls).log)
  {
    RequestRun(env, Fresh(clock), ls);
  }

  // ---- once per assertion -------------------------------------------------------------------------

  predicate DistinctAssertions(log: seq<Accepted>) {
    forall i, j | 0 <= i < j < |log| :: log[i].assertion != log[j].assertion
  }

  /** Every request an accepted assertion names runs out while the assertion's entry is held. */
  predicate AssertionGuarded(env: Env, s: World, e: Accepted) {
    && e.assertion in s.minted && e.at <= s.clock
    && (forall r | r in s.cookies && Mentions(s.minted[e.assertion], r) ::
          && s.cookies[r] <= e.at + FLOW_SECS
          && (s.clock >= e.at + FLOW_SECS
              || Holds(s.spent, AssertionKey(e.assertion), e.at + FLOW_SECS + env.cfg.skew)))
  }

  predicate AssertionInv(env: Env, s: World) {
    && CookiesRunOut(s)
    && (forall i | 0 <= i < |s.log| :: AssertionGuarded(env, s, s.log[i]))
    && DistinctAssertions(s.log)
  }

  lemma AcceptedIsMentioned(cfg: Config, a: Assertion, request: string, now: int)
    requires Acceptable(cfg, a, request, now)
    ensures Mentions(a, request)
  {
  }

  lemma AssertionStep(env: Env, s: World, l: Label)
    requires env.unguessable && AssertionInv(env, s) && Enabled(env, s, l)
    ensures AssertionInv(env, Apply(env, s, l))
  {
    if l.Respond? {
      AssertionResponds(env, s, l);
    } else {
      var s' := Apply(env, s, l);
      forall i | 0 <= i < |s.log| ensures AssertionGuarded(env, s', s.log[i]) {
        assert AssertionGuarded(env, s, s.log[i]);
        assert s'.minted[s.log[i].assertion] == s.minted[s.log[i].assertion];
      }
    }
  }

  lemma AssertionResponds(env: Env, s: World, l: Label)
    requires AssertionInv(env, s) && l.Respond? && Enabled(env, s, l)
    ensures AssertionInv(env, Apply(env, s, l))
  {
    var cfg, s' := env.cfg, Apply(env, s, l);
    AcceptedIsMentioned(cfg, s.minted[l.assertion], l.request, s.clock);
    forall i | 0 <= i < |s.log|
      ensures AssertionGuarded(env, s', s.log[i])
      ensures |s'.log| > |s.log| ==> s.log[i].assertion != l.assertion
    {
      var e := s.log[i];
      var u := e.at + FLOW_SECS + cfg.skew;
      if s.clock < e.at + FLOW_SECS && Holds(s.spent, AssertionKey(e.assertion), u) {
        SpendKeeps(s.spent, cfg, l.request, l.assertion, l.expires, s.clock, AssertionKey(e.assertion), u);
        if e.assertion == l.assertion {
          HeldIsRefused(s.spent, cfg, l.request, l.assertion, l.expires, s.clock, u);
        }
      }
    }
    if |s'.log| > |s.log| {
      SpendEnters(s.spent, cfg, l.request, l.assertion, l.expires, s.clock);
      assert AssertionGuarded(env, s', s'.log[|s.log|]);
    }
  }

  lemma {:induction false} AssertionRun(env: Env, s: World, ls: seq<Label>)
    requires env.unguessable && AssertionInv(env, s) && ValidRun(env, s, ls)
    ensures AssertionInv(env, After(env, s, ls))
    decreases |ls|
  {
    if ls != [] {
      AssertionStep(env, s, ls[0]);
      AssertionRun(env, Apply(env, s, ls[0]), ls[1..]);
    }
  }

  /** While request identifiers cannot be guessed, no assertion is accepted twice, restarts included. */
  lemma AcceptedOncePerAssertion(env: Env, clock: int, ls: seq<Label>)
    requires env.unguessable && ValidRun(env, Fresh(clock), ls)
    ensures DistinctAssertions(After(env, Fresh(clock), ls).log)
  {
    AssertionRun(env, Fresh(clock), ls);
  }

  // ---- once per assertion that ends ---------------------------------------------------------------

  /** The moment an assertion's Conditions end. */
  function Ends(a: Assertion): Option<int> {
    if |a.conditions| == 1 && a.conditions[0].notOnOrAfter.At? then Some(a.conditions[0].notOnOrAfter.t) else None
  }

  predicate EndGuarded(env: Env, s: World, e: Accepted) {
    && e.assertion in s.minted
    && var end := Ends(s.minted[e.assertion]);
       end.Some? ==>
         s.clock >= end.value + env.cfg.skew
         || Holds(s.spent, AssertionKey(e.assertion), end.value + env.cfg.skew)
  }

  /** Two acceptances of one assertion: its Conditions have no end. */
  predicate EndlessIfTwice(s: World) {
    forall i, j | 0 <= i < j < |s.log| && s.log[i].assertion == s.log[j].assertion ::
      s.log[i].assertion in s.minted && Ends(s.minted[s.log[i].assertion]).None?
  }

  predicate EndInv(env: Env, s: World) {
    && (forall i | 0 <= i < |s.log| :: EndGuarded(env, s, s.log[i]))
    && EndlessIfTwice(s)
  }

  lemma EndStep(env: Env, s: World, l: Label)
    requires !env.restarts && EndInv(env, s) && Enabled(env, s, l)
    ensures EndInv(env, Apply(env, s, l))
  {
    if l.Respond? {
      EndResponds(env, s, l);
    } else {
      var s' := Apply(env, s, l);
      forall i | 0 <= i < |s.log| ensures EndGuarded(env, s', s.log[i]) {
        assert EndGuarded(env, s, s.log[i]);
      }
    }
  }

  lemma LastsToTheEnd(cfg: Config, a: Assertion, request: string, now: int, expires: int)
    requires Acceptable(cfg, a, request, now) && LastMoment(cfg, a, request, now, expires)
    ensures Ends(a).Some? ==> now < Ends(a).value + cfg.skew && Ends(a).value <= expires
  {
  }

  lemma EndResponds(env: Env, s: World, l: Label)
    requires EndInv(env, s) && l.Respond? && Enabled(env, s, l)
    ensures EndInv(env, Apply(env, s, l))
  {
    var cfg, s' := env.cfg, Apply(env, s, l);
    LastsToTheEnd(cfg, s.minted[l.assertion], l.request, s.clock, l.expires);
    forall i | 0 <= i < |s.log|
      ensures EndGuarded(env, s', s.log[i])
      ensures |s'.log| > |s.log| && s.log[i].assertion == l.assertion ==> Ends(s.minted[l.assertion]).None?
    {
      var e := s.log[i];
      var end := Ends(s.minted[e.assertion]);
      if end.Some? && s.clock < end.value + cfg.skew {
        var u := end.value + cfg.skew;
        SpendKeeps(s.spent, cfg, l.request, l.assertion, l.expires, s.clock, AssertionKey(e.assertion), u);
        if e.assertion == l.assertion {
          HeldIsRefused(s.spent, cfg, l.request, l.assertion, l.expires, s.clock, u);
        }
      }
    }
    if |s'.log| > |s.log| {
      SpendEnters(s.spent, cfg, l.request, l.assertion, l.expires, s.clock);
      assert EndGuarded(env, s', s'.log[|s.log|]);
    }
  }

  lemma {:induction false} EndRun(env: Env, s: World, ls: seq<Label>)
    requires !env.restarts && EndInv(env, s) && ValidRun(env, s, ls)
    ensures EndInv(env, After(env, s, ls))
    decreases |ls|
  {
    if ls != [] {
      EndStep(env, s, ls[0]);
      EndRun(env, Apply(env, s, ls[0]), ls[1..]);
    }
  }

  /** In one service run an assertion whose Conditions carry NotOnOrAfter is accepted once, even if requests
      could be guessed. */
  lemma AcceptedOnceWhenItEnds(env: Env, clock: int, ls: seq<Label>)
    requires !env.restarts && ValidRun(env, Fresh(clock), ls)
    ensures EndlessIfTwice(After(env, Fresh(clock), ls))
  {
    EndRun(env, Fresh(clock), ls);
  }

  // ---- accepted twice -----------------------------------------------------------------------------

  function Bearer(cfg: Config, request: string, until: int): Confirmation {
    Confirmation(true, [Data(Some(cfg.acsUrl), Some(request), false, At(until))])
  }

  /** An assertion that answers two requests, one of them not made yet; its Conditions end at `end`, if ever. */
  function Ahead(cfg: Config, raw: string, end: Time): Assertion {
    Assertion(Some("2.0"), Some("a"), [Some(cfg.idp)], At(0),
              [Subject([], [Bearer(cfg, "r", 10), Bearer(cfg, "q", 1000)])],
              [Conditions(Absent, end, [Audiences([Some(cfg.entityId)])])],
              [Absent], [Attribute(Some(cfg.sidAttribute), [Some(raw)])])
  }

  predicate EndsLate(end: Time) { end == Absent || end == At(1000) }

  function Expires(end: Time, k: nat): int { if end.At? || k == 1 then 1000 else 10 }

  lemma AheadIsAcceptable(cfg: Config, raw: string, end: Time, k: nat, now: int)
    requires cfg.readSid(raw).Some? && EndsLate(end)
    requires k < 2 && 0 <= now < (if k == 0 then 10 else 1000) + cfg.skew
    ensures var a, r := Ahead(cfg, raw, end), if k == 0 then "r" else "q";
            Acceptable(cfg, a, r, now) && LastMoment(cfg, a, r, now, Expires(end, k))
  {
    var a, r, u := Ahead(cfg, raw, end), if k == 0 then "r" else "q", if k == 0 then 10 else 1000;
    var cs := a.subjects[0].confirmations;
    assert Confirms(cfg, cs[k], r, now) && Until(cs[k]) == u;
    assert NamesSid(cfg, a.attributes, raw) by { assert a.attributes[0].values == [Some(raw)]; }
    assert VerifiedSid(cfg, a, cfg.readSid(raw).value);
    assert a.conditions[0].items[0].Audiences?;
    assert LatestConfirmation(cfg, cs, r, now, u);
  }

  function Lasts(end: Time): int { if end.At? then 1000 else 300 }

  /** After the first of its requests, made and answered at time 0. */
  function Answered(cfg: Config, raw: string, end: Time): World {
    World(0, map["r" := 300], {"r"}, map["a" := Ahead(cfg, raw, end)],
          map[RequestKey("r") := 300 + cfg.skew, AssertionKey("a") := Lasts(end) + cfg.skew],
          [Accepted("r", "a", 0)])
  }

  lemma FirstSpend(cfg: Config, end: Time)
    requires EndsLate(end)
    ensures Spend(map[], cfg, "r", "a", Expires(end, 0), 0)
            == (map[RequestKey("r") := 300 + cfg.skew, AssertionKey("a") := Lasts(end) + cfg.skew], true)
  {
    assert Live(map[], 0) == map[];
  }

  /** The assertion is issued and its first request made. */
  function Asked(a: Assertion): World { World(0, map["r" := 300], {"r"}, map["a" := a], map[], []) }

  lemma Asks(env: Env, a: Assertion)
    requires !env.unguessable && a.id == Some("a")
    ensures ValidRun(env, Fresh(0), [Mint(a), Begin("r")])
    ensures After(env, Fresh(0), [Mint(a), Begin("r")]) == Asked(a)
  {
    var s1 := Apply(env, Fresh(0), Mint(a));
    Chain(env, s1, Begin("r"), []);
    Chain(env, Fresh(0), Mint(a), [Begin("r")]);
  }

  lemma Answers(env: Env, a: Assertion, expires: int, table: Table)
    requires Acceptable(env.cfg, a, "r", 0) && LastMoment(env.cfg, a, "r", 0, expires)
    requires Spend(map[], env.cfg, "r", "a", expires, 0) == (table, true)
    ensures var ls := [Respond("r", "a", expires)];
            ValidRun(env, Asked(a), ls)
            && After(env, Asked(a), ls) == Asked(a).(spent := table, log := [Accepted("r", "a", 0)])
  {
    Chain(env, Asked(a), Respond("r", "a", expires), []);
  }

  lemma AsksAndAnswers(env: Env, a: Assertion, expires: int, table: Table)
    requires !env.unguessable && a.id == Some("a")
    requires Acceptable(env.cfg, a, "r", 0) && LastMoment(env.cfg, a, "r", 0, expires)
    requires Spend(map[], env.cfg, "r", "a", expires, 0) == (table, true)
    ensures var ls := [Mint(a), Begin("r")] + [Respond("r", "a", expires)];
            && ValidRun(env, Fresh(0), ls)
            && After(env, Fresh(0), ls) == Asked(a).(spent := table, log := [Accepted("r", "a", 0)])
  {
    Asks(env, a);
    Answers(env, a, expires, table);
    RunAppend(env, Fresh(0), [Mint(a), Begin("r")], [Respond("r", "a", expires)]);
  }

  lemma FirstAnswer(env: Env, raw: string, end: Time)
    requires !env.unguessable && env.cfg.readSid(raw).Some? && EndsLate(end)
    ensures var ls := [Mint(Ahead(env.cfg, raw, end)), Begin("r")] + [Respond("r", "a", Expires(end, 0))];
            ValidRun(env, Fresh(0), ls) && After(env, Fresh(0), ls) == Answered(env.cfg, raw, end)
  {
    AheadIsAcceptable(env.cfg, raw, end, 0, 0);
    FirstSpend(env.cfg, end);
    AsksAndAnswers(env, Ahead(env.cfg, raw, end), Expires(end, 0), Answered(env.cfg, raw, end).spent);
  }

  /** The entry is dropped, then the second request is made and answered. */
  lemma SecondAnswer(env: Env, raw: string)
    requires !env.unguessable && env.cfg.readSid(raw).Some?
    ensures var s, late := Answered(env.cfg, raw, Absent), 300 + env.cfg.skew;
            var ls := [Tick(late), Begin("q"), Respond("q", "a", 1000)];
            && ValidRun(env, s, ls)
            && After(env, s, ls).log == [Accepted("r", "a", 0), Accepted("q", "a", late)]
  {
    var s, late := Answered(env.cfg, raw, Absent), 300 + env.cfg.skew;
    var s4 := Apply(env, s, Tick(late));
    var s5 := Apply(env, s4, Begin("q"));
    AheadIsAcceptable(env.cfg, raw, Absent, 1, late);
    var s6 := Apply(env, s5, Respond("q", "a", 1000));
    assert s6.log == [Accepted("r", "a", 0), Accepted("q", "a", late)] by { assert Live(s5.spent, late) == map[]; }
    Chain(env, s5, Respond("q", "a", 1000), []);
    Chain(env, s4, Begin("q"), [Respond("q", "a", 1000)]);
    Chain(env, s, Tick(late), [Begin("q"), Respond("q", "a", 1000)]);
  }

  /** A restart loses the entry before the assertion ends, then the second request is made and answered. */
  lemma AnswerAfterRestart(env: Env, raw: string)
    requires !env.unguessable && env.restarts && env.cfg.readSid(raw).Some?
    ensures var s := Answered(env.cfg, raw, At(1000));
            var ls := [Restart, Begin("q"), Respond("q", "a", 1000)];
            && ValidRun(env, s, ls)
            && After(env, s, ls).log == [Accepted("r", "a", 0), Accepted("q", "a", 0)]
            && After(env, s, ls).minted == s.minted
  {
    var s := Answered(env.cfg, raw, At(1000));
    var s4 := Apply(env, s, Restart);
    var s5 := Apply(env, s4, Begin("q"));
    AheadIsAcceptable(env.cfg, raw, At(1000), 1, 0);
    var s6 := Apply(env, s5, Respond("q", "a", 1000));
    assert s6.log == [Accepted("r", "a", 0), Accepted("q", "a", 0)] by { assert Live(s5.spent, 0) == map[]; }
    Chain(env, s5, Respond("q", "a", 1000), []);
    Chain(env, s4, Begin("q"), [Respond("q", "a", 1000)]);
    Chain(env, s, Restart, [Begin("q"), Respond("q", "a", 1000)]);
  }

  lemma {:induction false} RunAppend(env: Env, s: World, a: seq<Label>, b: seq<Label>)
    requires ValidRun(env, s, a) && ValidRun(env, After(env, s, a), b)
    ensures ValidRun(env, s, a + b) && After(env, s, a + b) == After(env, After(env, s, a), b)
    decreases |a|
  {
    if a == [] {
      assert a + b == b;
    } else {
      assert a + b == [a[0]] + (a[1..] + b);
      RunAppend(env, Apply(env, s, a[0]), a[1..], b);
      Chain(env, s, a[0], a[1..] + b);
    }
  }

  /** If requests can be guessed, an assertion without an end answers one made after its entry was dropped. */
  lemma GuessedRequestIsAcceptedAgain(env: Env, raw: string) returns (ls: seq<Label>)
    requires !env.unguessable && env.cfg.readSid(raw).Some?
    ensures ValidRun(env, Fresh(0), ls) && !DistinctAssertions(After(env, Fresh(0), ls).log)
  {
    var a := [Mint(Ahead(env.cfg, raw, Absent)), Begin("r")] + [Respond("r", "a", 10)];
    var b := [Tick(300 + env.cfg.skew), Begin("q"), Respond("q", "a", 1000)];
    FirstAnswer(env, raw, Absent);
    SecondAnswer(env, raw);
    RunAppend(env, Fresh(0), a, b);
    ls := a + b;
    var log := After(env, Fresh(0), ls).log;
    assert log[0].assertion == log[1].assertion;
  }

  /** If they can and the service restarts, so does one that has not ended. */
  lemma EndingIsAcceptedAgain(env: Env, raw: string) returns (ls: seq<Label>)
    requires !env.unguessable && env.restarts && env.cfg.readSid(raw).Some?
    ensures ValidRun(env, Fresh(0), ls) && !EndlessIfTwice(After(env, Fresh(0), ls))
  {
    var a := [Mint(Ahead(env.cfg, raw, At(1000))), Begin("r")] + [Respond("r", "a", 1000)];
    var b := [Restart, Begin("q"), Respond("q", "a", 1000)];
    FirstAnswer(env, raw, At(1000));
    AnswerAfterRestart(env, raw);
    RunAppend(env, Fresh(0), a, b);
    ls := a + b;
    var s := After(env, Fresh(0), ls);
    assert s.log[0].assertion == s.log[1].assertion == "a";
    assert Ends(s.minted["a"]) == Some(1000);
  }

  // ---- exactly when --------------------------------------------------------------------------------

  /** No run accepts an assertion twice. */
  ghost predicate AlwaysOnce(env: Env) {
    forall clock, ls | ValidRun(env, Fresh(clock), ls) :: DistinctAssertions(After(env, Fresh(clock), ls).log)
  }

  /** No run accepts an assertion twice whose Conditions end. */
  ghost predicate EndingOnce(env: Env) {
    forall clock, ls | ValidRun(env, Fresh(clock), ls) :: EndlessIfTwice(After(env, Fresh(clock), ls))
  }

  /** Every assertion is accepted once in every run exactly when requests cannot be guessed. */
  lemma OnceExactlyIfUnguessable(env: Env, raw: string)
    requires env.cfg.readSid(raw).Some?
    ensures AlwaysOnce(env) <==> env.unguessable
  {
    if env.unguessable {
      forall clock, ls | ValidRun(env, Fresh(clock), ls)
        ensures DistinctAssertions(After(env, Fresh(clock), ls).log)
      {
        AcceptedOncePerAssertion(env, clock, ls);
      }
    } else {
      var ls := GuessedRequestIsAcceptedAgain(env, raw);
    }
  }

  /** Every assertion whose Conditions end is, exactly when requests cannot be guessed or the service does not
      restart. */
  lemma EndingOnceExactlyIf(env: Env, raw: string)
    requires env.cfg.readSid(raw).Some?
    ensures EndingOnce(env) <==> env.unguessable || !env.restarts
  {
    if env.unguessable || !env.restarts {
      forall clock, ls | ValidRun(env, Fresh(clock), ls)
        ensures EndlessIfTwice(After(env, Fresh(clock), ls))
      {
        if env.unguessable {
          AcceptedOncePerAssertion(env, clock, ls);
        } else {
          AcceptedOnceWhenItEnds(env, clock, ls);
        }
      }
    } else {
      var ls := EndingIsAcceptedAgain(env, raw);
    }
  }

  lemma Chain(env: Env, s: World, l: Label, ls: seq<Label>)
    requires Enabled(env, s, l) && ValidRun(env, Apply(env, s, l), ls)
    ensures ValidRun(env, s, [l] + ls) && After(env, s, [l] + ls) == After(env, Apply(env, s, l), ls)
  {
    assert ([l] + ls)[1..] == ls;
  }

  // ---- the table's size ---------------------------------------------------------------------------

  lemma {:induction false} SizeRun(env: Env, s: World, ls: seq<Label>)
    requires |s.spent| <= MAX_SPENT && ValidRun(env, s, ls)
    ensures |After(env, s, ls).spent| <= MAX_SPENT
    decreases |ls|
  {
    if ls != [] {
      var l := ls[0];
      if l.Respond? { SpendFits(s.spent, env.cfg, l.request, l.assertion, l.expires, s.clock); }
      SizeRun(env, Apply(env, s, l), ls[1..]);
    }
  }

  /** The table never outgrows its limit. */
  lemma TableIsBounded(env: Env, clock: int, ls: seq<Label>)
    requires ValidRun(env, Fresh(clock), ls)
    ensures |After(env, Fresh(clock), ls).spent| <= MAX_SPENT
  {
    SizeRun(env, Fresh(clock), ls);
  }
}
