/** First uses are accepted: over any run, a response that passes every check is refused only for an identifier that was
    accepted before and is still held, or for a full table. */
module SamlFirstUse {
  import opened Common
  import opened Saml
  import opened SamlTheorems

  /** How long an acceptance holds the assertion: until the later of its last moment and the life of a flow. */
  ghost predicate HoldsAssertion(cfg: Config, a: Assertion, e: Accepted, until: int) {
    && Acceptable(cfg, a, e.request, e.at)
    && exists x :: LastMoment(cfg, a, e.request, e.at, x)
                   && until == (if x >= e.at + FLOW_SECS then x else e.at + FLOW_SECS) + cfg.skew
  }

  /** Acceptance `e` made entry `k`, which lasts exactly to `until`. */
  ghost predicate Made(cfg: Config, minted: map<string, Assertion>, e: Accepted, k: Key, until: int) {
    match k
    case RequestKey(r) => e.request == r && until == e.at + FLOW_SECS + cfg.skew
    case AssertionKey(a) => e.assertion == a && a in minted && HoldsAssertion(cfg, minted[a], e, until)
  }

  ghost predicate IsMade(cfg: Config, s: World, k: Key, until: int) {
    exists i :: 0 <= i < |s.log| && Made(cfg, s.minted, s.log[i], k, until)
  }

  ghost predicate AllMade(cfg: Config, s: World, t: Table) { forall k | k in t :: IsMade(cfg, s, k, t[k]) }

  /** Every entry of the table is of an acceptance, two for each at most. */
  ghost predicate TableInv(env: Env, s: World) { |s.spent| <= 2 * |s.log| && AllMade(env.cfg, s, s.spent) }

  lemma StillMade(cfg: Config, s: World, s': World, k: Key, until: int)
    requires IsMade(cfg, s, k, until) && s.log <= s'.log
    requires forall a | a in s.minted :: a in s'.minted && s'.minted[a] == s.minted[a]
    ensures IsMade(cfg, s', k, until)
  {
    var i :| 0 <= i < |s.log| && Made(cfg, s.minted, s.log[i], k, until);
    assert s'.log[i] == s.log[i];
    assert Made(cfg, s'.minted, s'.log[i], k, until);
  }

  lemma LiveShrinks(spent: Table, now: int)
    ensures |Live(spent, now)| <= |spent|
  {
    var live := Live(spent, now);
    SubsetSize(live.Keys, spent.Keys);
    assert |live.Keys| == |live| && |spent.Keys| == |spent|;
  }

  lemma TwoMore(live: Table, j: Key, k: Key, u: int, v: int)
    ensures |live[j := u][k := v]| <= |live| + 2
  {
    var t := live[j := u][k := v];
    assert t.Keys == live.Keys + {j} + {k};
    assert |live.Keys| == |live| && |t.Keys| == |t|;
  }

  /** When the entry of an assertion runs out. */
  function Ends(cfg: Config, expires: int, now: int): int {
    (if expires >= now + FLOW_SECS then expires else now + FLOW_SECS) + cfg.skew
  }

  /** The table with both identifiers entered. */
  function Entered(live: Table, cfg: Config, r: string, a: string, expires: int, now: int): Table {
    live[RequestKey(r) := now + FLOW_SECS + cfg.skew][AssertionKey(a) := Ends(cfg, expires, now)]
  }

  /** A response is a first use exactly when neither identifier is held and the table has room, and the table then
      holds both. */
  lemma SpendsExactlyIf(spent: Table, cfg: Config, r: string, a: string, expires: int, now: int)
    ensures var (t, first), live := Spend(spent, cfg, r, a, expires, now), Live(spent, now);
            && (first <==> RequestKey(r) !in live && AssertionKey(a) !in live && |live| + 2 <= MAX_SPENT)
            && t == if first then Entered(live, cfg, r, a, expires, now) else live
  {
  }

  lemma RespondKeeps(env: Env, s: World, l: Label)
    requires TableInv(env, s) && l.Respond? && Enabled(env, s, l)
    ensures TableInv(env, Apply(env, s, l))
  {
    RespondIs(env, s, l);
    if |Apply(env, s, l).log| > |s.log| {
      EnteredAreMade(env, s, l);
      LiveAreMade(env, s, Apply(env, s, l));
      FirstKept(env, s, Apply(env, s, l), l);
    } else {
      RefusedKept(env, s, Apply(env, s, l));
    }
  }

  lemma RefusedKept(env: Env, s: World, s': World)
    requires TableInv(env, s) && s'.log == s.log && s'.minted == s.minted && s'.spent == Live(s.spent, s.clock)
    ensures TableInv(env, s')
  {
    LiveShrinks(s.spent, s.clock);
    LiveAreMade(env, s, s');
  }

  lemma FirstKept(env: Env, s: World, s': World, l: Label)
    requires |s.spent| <= 2 * |s.log| && AllMade(env.cfg, s', Live(s.spent, s.clock))
    requires l.Respond? && |s'.log| == |s.log| + 1
    requires s'.spent == Entered(Live(s.spent, s.clock), env.cfg, l.request, l.assertion, l.expires, s.clock)
    requires IsMade(env.cfg, s', RequestKey(l.request), s.clock + FLOW_SECS + env.cfg.skew)
    requires IsMade(env.cfg, s', AssertionKey(l.assertion), Ends(env.cfg, l.expires, s.clock))
    ensures TableInv(env, s')
  {
    LiveShrinks(s.spent, s.clock);
    FirstKeeps(env, s', Live(s.spent, s.clock), l, s.clock, |s.log|);
  }

  /** What a response makes of the table and the log. */
  lemma RespondIs(env: Env, s: World, l: Label)
    requires l.Respond?
    ensures var s', live := Apply(env, s, l), Live(s.spent, s.clock);
            && s.log <= s'.log && |s'.log| <= |s.log| + 1 && s'.minted == s.minted
            && s'.spent == if |s'.log| > |s.log|
                           then Entered(live, env.cfg, l.request, l.assertion, l.expires, s.clock) else live
  {
    SpendsExactlyIf(s.spent, env.cfg, l.request, l.assertion, l.expires, s.clock);
  }

  lemma FirstKeeps(env: Env, s: World, live: Table, l: Label, now: int, n: nat)
    requires l.Respond? && s.spent == Entered(live, env.cfg, l.request, l.assertion, l.expires, now)
    requires |live| <= 2 * n && |s.log| == n + 1 && AllMade(env.cfg, s, live)
    requires IsMade(env.cfg, s, RequestKey(l.request), now + FLOW_SECS + env.cfg.skew)
    requires IsMade(env.cfg, s, AssertionKey(l.assertion), Ends(env.cfg, l.expires, now))
    ensures TableInv(env, s)
  {
    BothAreMade(env.cfg, s, live, l.request, l.assertion, l.expires, now);
    TwoMore(live, RequestKey(l.request), AssertionKey(l.assertion), now + FLOW_SECS + env.cfg.skew,
            Ends(env.cfg, l.expires, now));
  }

  lemma LiveAreMade(env: Env, s: World, s': World)
    requires TableInv(env, s) && s.log <= s'.log && s'.minted == s.minted
    ensures AllMade(env.cfg, s', Live(s.spent, s.clock))
  {
    forall k | k in Live(s.spent, s.clock) ensures IsMade(env.cfg, s', k, Live(s.spent, s.clock)[k]) {
      StillMade(env.cfg, s, s', k, s.spent[k]);
    }
  }

  lemma BothAreMade(cfg: Config, s: World, live: Table, r: string, a: string, expires: int, now: int)
    requires AllMade(cfg, s, live)
    requires IsMade(cfg, s, RequestKey(r), now + FLOW_SECS + cfg.skew)
    requires IsMade(cfg, s, AssertionKey(a), Ends(cfg, expires, now))
    ensures AllMade(cfg, s, Entered(live, cfg, r, a, expires, now))
  {
  }

  lemma EnteredAreMade(env: Env, s: World, l: Label)
    requires l.Respond? && Enabled(env, s, l) && |Apply(env, s, l).log| > |s.log|
    ensures var cfg, s' := env.cfg, Apply(env, s, l);
            && IsMade(cfg, s', RequestKey(l.request), s.clock + FLOW_SECS + cfg.skew)
            && IsMade(cfg, s', AssertionKey(l.assertion), Ends(cfg, l.expires, s.clock))
  {
    var cfg, s' := env.cfg, Apply(env, s, l);
    var e := s'.log[|s.log|];
    assert e == Accepted(l.request, l.assertion, s.clock);
    assert Made(cfg, s'.minted, e, RequestKey(l.request), s.clock + FLOW_SECS + cfg.skew);
    assert Made(cfg, s'.minted, e, AssertionKey(l.assertion), Ends(cfg, l.expires, s.clock));
  }

  lemma TableStep(env: Env, s: World, l: Label)
    requires TableInv(env, s) && Enabled(env, s, l)
    ensures TableInv(env, Apply(env, s, l))
  {
    if l.Respond? {
      RespondKeeps(env, s, l);
    } else {
      var s' := Apply(env, s, l);
      forall k | k in s'.spent ensures IsMade(env.cfg, s', k, s'.spent[k]) {
        StillMade(env.cfg, s, s', k, s.spent[k]);
      }
    }
  }

  lemma {:induction false} TableRun(env: Env, s: World, ls: seq<Label>)
    requires TableInv(env, s) && ValidRun(env, s, ls)
    ensures TableInv(env, After(env, s, ls))
    decreases |ls|
  {
    if ls != [] {
      TableStep(env, s, ls[0]);
      TableRun(env, Apply(env, s, ls[0]), ls[1..]);
    }
  }

  /** The identifier was accepted before, and the acceptance holds it past now. */
  ghost predicate StillHeld(env: Env, s: World, k: Key) {
    exists until :: s.clock < until && IsMade(env.cfg, s, k, until)
  }

  /** A response that passes every check and is refused names an identifier accepted before and still held, or finds
      the table full. */
  lemma RefusalIsExplained(env: Env, clock: int, ls: seq<Label>, l: Label)
    requires ValidRun(env, Fresh(clock), ls) && l.Respond? && Enabled(env, After(env, Fresh(clock), ls), l)
    ensures var s := After(env, Fresh(clock), ls);
            var s' := Apply(env, s, l);
            && (s'.log == s.log || s'.log == s.log + [Accepted(l.request, l.assertion, s.clock)])
            && (s'.log == s.log ==>
                  StillHeld(env, s, RequestKey(l.request)) || StillHeld(env, s, AssertionKey(l.assertion))
                  || |Live(s.spent, s.clock)| + 2 > MAX_SPENT)
  {
    TableRun(env, Fresh(clock), ls);
    var s := After(env, Fresh(clock), ls);
    SpendsExactlyIf(s.spent, env.cfg, l.request, l.assertion, l.expires, s.clock);
    var j, k := RequestKey(l.request), AssertionKey(l.assertion);
    if j in Live(s.spent, s.clock) { assert IsMade(env.cfg, s, j, s.spent[j]); }
    if k in Live(s.spent, s.clock) { assert IsMade(env.cfg, s, k, s.spent[k]); }
  }

  /** So a first use is accepted, whoever signed in before: one whose request and assertion are in no acceptance, while
      two entries for each acceptance so far leave room for two more. */
  lemma FirstUseIsAccepted(env: Env, clock: int, ls: seq<Label>, l: Label)
    requires ValidRun(env, Fresh(clock), ls) && l.Respond? && Enabled(env, After(env, Fresh(clock), ls), l)
    requires var log := After(env, Fresh(clock), ls).log;
             && 2 * |log| + 2 <= MAX_SPENT
             && forall i | 0 <= i < |log| :: log[i].request != l.request && log[i].assertion != l.assertion
    ensures var s := After(env, Fresh(clock), ls);
            Apply(env, s, l).log == s.log + [Accepted(l.request, l.assertion, s.clock)]
  {
    RefusalIsExplained(env, clock, ls, l);
    TableRun(env, Fresh(clock), ls);
    LiveShrinks(After(env, Fresh(clock), ls).spent, After(env, Fresh(clock), ls).clock);
  }
}
