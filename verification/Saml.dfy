/** Acceptance of a SAML response (`saml.rs`): the checks of the Web SSO profile on a parsed, signed
    assertion, the flow cookie, and the table of spent identifiers. */
module Saml {
  import opened Common
  import Sid

  const FLOW_SECS: nat := 300
  const MAX_SPENT: nat := 100_000

  // ---- the parsed response ------------------------------------------------------------------------

  /** A time attribute. */
  datatype Time = Absent | Malformed | At(t: int)

  /** The trimmed text of an element; `None` where it holds more than text. */
  type Words = Option<string>

  datatype Data = Data(recipient: Option<string>, inResponseTo: Option<string>, hasNotBefore: bool,
                       notOnOrAfter: Time)

  datatype Confirmation = Confirmation(bearer: bool, data: seq<Data>)

  datatype Subject = Subject(nameIds: seq<Words>, confirmations: seq<Confirmation>)

  datatype Condition = Audiences(names: seq<Words>) | OneTimeUse | ProxyRestriction | Unknown

  datatype Conditions = Conditions(notBefore: Time, notOnOrAfter: Time, items: seq<Condition>)

  datatype Attribute = Attribute(name: Option<string>, values: seq<Words>)

  /** Children that must be there once are sequences; `sessions` has each statement's end. */
  datatype Assertion = Assertion(version: Option<string>, id: Option<string>, issuers: seq<Words>,
                                 issueInstant: Time, subjects: seq<Subject>, conditions: seq<Conditions>,
                                 sessions: seq<Time>, attributes: seq<Attribute>)

  /** A response up to its assertion: `wellFormed` stands for decoding, parsing, version and status;
      `nested` counts the assertions at any depth. */
  datatype Response = Response(wellFormed: bool, inResponseTo: Option<string>, destination: Option<string>,
                               issuers: seq<Words>, encrypted: bool, assertions: seq<Assertion>,
                               nested: nat, signed: bool)

  /** `readSid` is `canonical_sid`. */
  datatype Config = Config(entityId: string, acsUrl: string, idp: string, sidAttribute: string, skew: nat,
                           readSid: string -> Option<string>)

  /** A flow cookie under an ideal MAC: it carries the key it was made with. */
  datatype Cookie = Cookie(id: string, expires: int, key: nat)

  datatype Verified = Verified(sid: string, nameId: Option<string>)

  datatype Checked = Checked(verified: Verified, id: string, expires: int)

  // ---- what is acceptable -------------------------------------------------------------------------

  /** A bearer confirmation the code cannot read refuses the whole assertion. */
  predicate Readable(c: Confirmation) {
    c.bearer ==> |c.data| == 0 || (|c.data| == 1 && !c.data[0].notOnOrAfter.Malformed?)
  }

  predicate Confirms(cfg: Config, c: Confirmation, request: string, now: int) {
    c.bearer && |c.data| == 1
    && var d := c.data[0];
       && d.recipient == Some(cfg.acsUrl) && d.inResponseTo == Some(request) && !d.hasNotBefore
       && d.notOnOrAfter.At? && now < d.notOnOrAfter.t + cfg.skew
  }

  function Until(c: Confirmation): int
    requires |c.data| == 1 && c.data[0].notOnOrAfter.At?
  {
    c.data[0].notOnOrAfter.t
  }

  predicate Confirmed(cfg: Config, cs: seq<Confirmation>, request: string, now: int) {
    && (forall i | 0 <= i < |cs| :: Readable(cs[i]))
    && (exists i | 0 <= i < |cs| :: Confirms(cfg, cs[i], request, now))
  }

  /** The latest of the confirmations that hold. */
  predicate LatestConfirmation(cfg: Config, cs: seq<Confirmation>, request: string, now: int, until: int) {
    && (exists i | 0 <= i < |cs| :: Confirms(cfg, cs[i], request, now) && Until(cs[i]) == until)
    && (forall i | 0 <= i < |cs| :: Confirms(cfg, cs[i], request, now) ==> Until(cs[i]) <= until)
  }

  predicate ForUs(cfg: Config, c: Condition) {
    match c
    case Audiences(names) =>
      (forall i | 0 <= i < |names| :: names[i].Some?) && Some(cfg.entityId) in names
    case OneTimeUse => true
    case ProxyRestriction => true
    case Unknown => false
  }

  predicate ConditionsHold(cfg: Config, c: Conditions, now: int) {
    && !c.notBefore.Malformed? && (c.notBefore.At? ==> c.notBefore.t <= now + cfg.skew)
    && !c.notOnOrAfter.Malformed? && (c.notOnOrAfter.At? ==> now < c.notOnOrAfter.t + cfg.skew)
    && (forall i | 0 <= i < |c.items| :: ForUs(cfg, c.items[i]))
    && (exists i | 0 <= i < |c.items| :: c.items[i].Audiences?)
  }

  predicate SessionsLast(sessions: seq<Time>, now: int) {
    && sessions != []
    && (forall i | 0 <= i < |sessions| ::
          !sessions[i].Malformed? && (sessions[i].At? ==> now < sessions[i].t))
  }

  /** The text of the one attribute of the configured name, with its one value. */
  predicate NamesSid(cfg: Config, attributes: seq<Attribute>, raw: string) {
    exists k | 0 <= k < |attributes| ::
      && attributes[k].name == Some(cfg.sidAttribute)
      && (forall i | 0 <= i < |attributes| && i != k :: attributes[i].name != Some(cfg.sidAttribute))
      && attributes[k].values == [Some(raw)]
  }

  predicate IssuedToUs(cfg: Config, a: Assertion, now: int) {
    && a.version == Some("2.0") && a.id.Some? && a.id.value != ""
    && |a.issuers| == 1 && a.issuers[0] == Some(cfg.idp)
    && a.issueInstant.At? && a.issueInstant.t <= now + cfg.skew
  }

  ghost predicate Acceptable(cfg: Config, a: Assertion, request: string, now: int) {
    && IssuedToUs(cfg, a, now)
    && |a.subjects| == 1 && |a.subjects[0].nameIds| <= 1
    && (|a.subjects[0].nameIds| == 1 ==> a.subjects[0].nameIds[0].Some?)
    && Confirmed(cfg, a.subjects[0].confirmations, request, now)
    && |a.conditions| == 1 && ConditionsHold(cfg, a.conditions[0], now)
    && SessionsLast(a.sessions, now)
    && (exists sid :: VerifiedSid(cfg, a, sid))
  }

  /** The SID the assertion names, in its canonical form. */
  ghost predicate VerifiedSid(cfg: Config, a: Assertion, sid: string) {
    exists raw :: NamesSid(cfg, a.attributes, raw) && cfg.readSid(raw) == Some(sid)
  }

  /** The subject's name identifier, where there is one. */
  function NameOf(a: Assertion): Option<string> {
    if |a.subjects| == 1 && |a.subjects[0].nameIds| == 1 then a.subjects[0].nameIds[0] else None
  }

  /** The last moment of an acceptable assertion: the later of its confirmation and its conditions. */
  ghost predicate LastMoment(cfg: Config, a: Assertion, request: string, now: int, expires: int)
    requires Acceptable(cfg, a, request, now)
  {
    var c := a.conditions[0].notOnOrAfter;
    exists until ::
      && LatestConfirmation(cfg, a.subjects[0].confirmations, request, now, until)
      && expires == if c.At? && c.t > until then c.t else until
  }

  // ---- the code: the assertion --------------------------------------------------------------------

  method Confirm(cfg: Config, cs: seq<Confirmation>, request: string, now: int) returns (until: Option<int>)
    ensures until.Some? <==> Confirmed(cfg, cs, request, now)
    ensures until.Some? ==> LatestConfirmation(cfg, cs, request, now, until.value)
  {
    until := None;
    for i := 0 to |cs|
      invariant forall j | 0 <= j < i :: Readable(cs[j])
      invariant until.None? ==> forall j | 0 <= j < i :: !Confirms(cfg, cs[j], request, now)
      invariant until.Some? ==> LatestConfirmation(cfg, cs[..i], request, now, until.value)
    {
      assert cs[..i + 1] == cs[..i] + [cs[i]];
      if cs[i].bearer && |cs[i].data| > 0 {
        if |cs[i].data| > 1 { return None; }
        var data := cs[i].data[0];
        if data.notOnOrAfter.Malformed? { return None; }
        if data.recipient == Some(cfg.acsUrl) && data.inResponseTo == Some(request) && !data.hasNotBefore
           && data.notOnOrAfter.At? && now < data.notOnOrAfter.t + cfg.skew
        {
          if until.None? || until.value < data.notOnOrAfter.t { until := Some(data.notOnOrAfter.t); }
          assert Confirms(cfg, cs[..i + 1][i], request, now);
        }
      }
      assert forall j | 0 <= j < i :: cs[..i + 1][j] == cs[..i][j];
    }
    assert cs[..|cs|] == cs;
  }

  method CheckConditions(cfg: Config, c: Conditions, now: int) returns (ok: bool)
    ensures ok <==> ConditionsHold(cfg, c, now)
  {
    if c.notBefore.Malformed? || (c.notBefore.At? && now + cfg.skew < c.notBefore.t) { return false; }
    if c.notOnOrAfter.Malformed? || (c.notOnOrAfter.At? && now >= c.notOnOrAfter.t + cfg.skew) { return false; }
    var audiences := 0;
    for i := 0 to |c.items|
      invariant forall j | 0 <= j < i :: ForUs(cfg, c.items[j])
      invariant audiences > 0 <==> exists j | 0 <= j < i :: c.items[j].Audiences?
    {
      if c.items[i].Audiences? {
        var names := c.items[i].names;
        var ours := false;
        for k := 0 to |names|
          invariant forall j | 0 <= j < k :: names[j].Some?
          invariant ours <==> Some(cfg.entityId) in names[..k]
        {
          if names[k].None? { return false; }
          ours := ours || names[k].value == cfg.entityId;
          assert names[..k + 1] == names[..k] + [names[k]];
        }
        assert names[..|names|] == names;
        if !ours { return false; }
        audiences := audiences + 1;
      } else if !c.items[i].OneTimeUse? && !c.items[i].ProxyRestriction? {
        return false;
      }
    }
    return audiences > 0;
  }

  method CheckSessions(sessions: seq<Time>, now: int) returns (ok: bool)
    ensures ok <==> SessionsLast(sessions, now)
  {
    if sessions == [] { return false; }
    for i := 0 to |sessions|
      invariant forall j | 0 <= j < i :: !sessions[j].Malformed? && (sessions[j].At? ==> now < sessions[j].t)
    {
      if sessions[i].Malformed? || (sessions[i].At? && sessions[i].t <= now) { return false; }
    }
    return true;
  }

  method FindSid(cfg: Config, attributes: seq<Attribute>) returns (raw: Option<string>)
    ensures forall text :: NamesSid(cfg, attributes, text) <==> raw == Some(text)
  {
    var found: seq<Attribute> := [];
    ghost var at := -1;
    for i := 0 to |attributes|
      invariant found == [] <==> forall j | 0 <= j < i :: attributes[j].name != Some(cfg.sidAttribute)
      invariant |found| == 1 ==>
                  && 0 <= at < i && found[0] == attributes[at] && attributes[at].name == Some(cfg.sidAttribute)
                  && forall j | 0 <= j < i && j != at :: attributes[j].name != Some(cfg.sidAttribute)
      invariant |found| > 1 ==>
                  exists j, k :: 0 <= j < k < i && attributes[j].name == attributes[k].name == Some(cfg.sidAttribute)
    {
      if attributes[i].name == Some(cfg.sidAttribute) {
        found := found + [attributes[i]];
        if |found| == 1 { at := i; }
      }
    }
    if |found| != 1 || |found[0].values| != 1 { return None; }
    raw := found[0].values[0];
    assert found[0].values == [raw];
  }

  method ReadSid(cfg: Config, a: Assertion) returns (sid: Option<string>)
    ensures sid.Some? <==> exists s :: VerifiedSid(cfg, a, s)
    ensures sid.Some? ==> VerifiedSid(cfg, a, sid.value)
  {
    var raw := FindSid(cfg, a.attributes);
    sid := if raw.None? then None else cfg.readSid(raw.value);
    if sid.Some? {
      assert NamesSid(cfg, a.attributes, raw.value);
      assert VerifiedSid(cfg, a, sid.value);
    }
  }

  method CheckAssertion(cfg: Config, a: Assertion, request: string, now: int) returns (r: Option<Checked>)
    ensures r.Some? <==> Acceptable(cfg, a, request, now)
    ensures r.Some? ==>
              && Some(r.value.id) == a.id && VerifiedSid(cfg, a, r.value.verified.sid)
              && r.value.verified.nameId == NameOf(a)
              && LastMoment(cfg, a, request, now, r.value.expires)
  {
    if a.version != Some("2.0") || a.id.None? || a.id.value == "" { return None; }
    if |a.issuers| != 1 || a.issuers[0] != Some(cfg.idp) { return None; }
    if !a.issueInstant.At? || a.issueInstant.t > now + cfg.skew { return None; }
    if |a.subjects| != 1 { return None; }
    var subject := a.subjects[0];
    if |subject.nameIds| > 1 { return None; }
    if |subject.nameIds| == 1 && subject.nameIds[0].None? { return None; }
    var until := Confirm(cfg, subject.confirmations, request, now);
    if until.None? || |a.conditions| != 1 { return None; }
    var hold := CheckConditions(cfg, a.conditions[0], now);
    if !hold { return None; }
    var last := CheckSessions(a.sessions, now);
    if !last { return None; }
    var sid := ReadSid(cfg, a);
    if sid.None? { return None; }
    var c := a.conditions[0].notOnOrAfter;
    var expires := if c.At? && c.t > until.value then c.t else until.value;
    var nameId := if |subject.nameIds| == 1 then subject.nameIds[0] else None;
    r := Some(Checked(Verified(sid.value, nameId), a.id.value, expires));
  }

  // ---- the code: the spent table ------------------------------------------------------------------

  datatype Key = RequestKey(id: string) | AssertionKey(id: string)

  type Table = map<Key, int>

  function Live(spent: Table, now: int): Table { map k | k in spent && spent[k] > now :: spent[k] }

  /** Pruning, the two refusals and the two entries: the table afterwards and whether it was a first use. */
  function Spend(spent: Table, cfg: Config, request: string, assertion: string, expires: int, now: int)
    : (Table, bool)
  {
    var live := Live(spent, now);
    if RequestKey(request) in live || AssertionKey(assertion) in live then (live, false)
    else if |live| + 2 > MAX_SPENT then (live, false)
    else
      var lasts := if expires >= now + FLOW_SECS then expires else now + FLOW_SECS;
      (live[RequestKey(request) := now + FLOW_SECS + cfg.skew][AssertionKey(assertion) := lasts + cfg.skew],
       true)
  }

  predicate ResponseFits(cfg: Config, r: Response, request: string) {
    && r.wellFormed && r.inResponseTo == Some(request)
    && (r.destination.Some? ==> r.destination.value == cfg.acsUrl)
    && |r.issuers| <= 1 && (|r.issuers| == 1 ==> r.issuers[0] == Some(cfg.idp))
    && !r.encrypted && |r.assertions| == 1 && r.nested == 1 && r.signed
  }

  /** Every check before the table. */
  ghost predicate Passes(cfg: Config, flowKey: nat, r: Response, cookie: Option<Cookie>, now: int)
    ensures Passes(cfg, flowKey, r, cookie, now) ==> cookie.Some? && |r.assertions| == 1 && r.assertions[0].id.Some?
  {
    && cookie.Some? && cookie.value.key == flowKey && now < cookie.value.expires
    && ResponseFits(cfg, r, cookie.value.id) && Acceptable(cfg, r.assertions[0], cookie.value.id, now)
  }

  class ServiceProvider {
    const cfg: Config
    const flowKey: nat
    var spent: Table

    constructor (entityId: string, acsUrl: string, idp: string, sidAttribute: string, skew: nat, flowKey: nat)
      ensures cfg == Config(entityId, acsUrl, idp, sidAttribute, skew, Sid.Canonical)
      ensures this.flowKey == flowKey && spent == map[]
    {
      this.cfg := Config(entityId, acsUrl, idp, sidAttribute, skew, Sid.Canonical);
      this.flowKey := flowKey;
      this.spent := map[];
    }

    /** The cookie of a new sign-in under a fresh identifier. */
    method Start(id: string, now: int) returns (cookie: Cookie)
      ensures cookie.key == flowKey && cookie.id == id && cookie.expires == now + FLOW_SECS
    {
      cookie := Cookie(id, now + FLOW_SECS, flowKey);
    }

    /** The request a presented cookie was issued for, while it is current. */
    method FlowRequest(cookie: Option<Cookie>, now: int) returns (request: Option<string>)
      ensures request.Some? <==> cookie.Some? && cookie.value.key == flowKey && now < cookie.value.expires
      ensures request.Some? ==> request.value == cookie.value.id
    {
      if cookie.None? || cookie.value.key != flowKey || cookie.value.expires <= now { return None; }
      return Some(cookie.value.id);
    }

    /** Every check before the table. */
    method Check(r: Response, cookie: Option<Cookie>, now: int) returns (c: Option<Checked>)
      ensures c.Some? <==> Passes(cfg, flowKey, r, cookie, now)
      ensures c.Some? ==>
                && r.assertions[0].id == Some(c.value.id)
                && VerifiedSid(cfg, r.assertions[0], c.value.verified.sid)
                && c.value.verified.nameId == NameOf(r.assertions[0])
                && LastMoment(cfg, r.assertions[0], cookie.value.id, now, c.value.expires)
    {
      var request := FlowRequest(cookie, now);
      if request.None? || !r.wellFormed { return None; }
      if r.inResponseTo.None? || r.inResponseTo.value != request.value { return None; }
      if r.destination.Some? && r.destination.value != cfg.acsUrl { return None; }
      if |r.issuers| > 1 || (|r.issuers| == 1 && r.issuers[0] != Some(cfg.idp)) { return None; }
      if r.encrypted || |r.assertions| != 1 || r.nested != 1 || !r.signed { return None; }
      c := CheckAssertion(cfg, r.assertions[0], request.value, now);
    }

    /** One use of a request and an assertion: prune, refuse what is spent or does not fit, enter both. */
    method Use(request: string, assertion: string, expires: int, now: int) returns (first: bool)
      modifies this
      ensures (spent, first) == Spend(old(spent), cfg, request, assertion, expires, now)
      ensures var live := Live(old(spent), now);
              first <==> RequestKey(request) !in live && AssertionKey(assertion) !in live && |live| + 2 <= MAX_SPENT
    {
      spent := Live(spent, now);
      var requestKey, assertionKey := RequestKey(request), AssertionKey(assertion);
      if requestKey in spent || assertionKey in spent { return false; }
      if |spent| + 2 > MAX_SPENT { return false; }
      spent := spent[requestKey := now + FLOW_SECS + cfg.skew];
      var lasts := if expires >= now + FLOW_SECS then expires else now + FLOW_SECS;
      spent := spent[assertionKey := lasts + cfg.skew];
      return true;
    }

    /** Nothing is spent unless every check passed; a first use spends both identifiers. */
    method Accept(r: Response, cookie: Option<Cookie>, now: int) returns (v: Option<Verified>)
      modifies this
      ensures !Passes(cfg, flowKey, r, cookie, now) ==> v.None? && spent == old(spent)
      ensures Passes(cfg, flowKey, r, cookie, now) ==>
                exists expires ::
                  && LastMoment(cfg, r.assertions[0], cookie.value.id, now, expires)
                  && (spent, v.Some?)
                     == Spend(old(spent), cfg, cookie.value.id, r.assertions[0].id.value, expires, now)
      ensures v.Some? ==> VerifiedSid(cfg, r.assertions[0], v.value.sid) && v.value.nameId == NameOf(r.assertions[0])
    {
      var c := Check(r, cookie, now);
      if c.None? { return None; }
      var first := Use(cookie.value.id, c.value.id, c.value.expires, now);
      if !first { return None; }
      return Some(c.value.verified);
    }
  }
}
