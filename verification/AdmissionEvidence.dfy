/** What being admitted means: over any run, an admitted connection showed a ticket issued to its user for its server,
    a session of its user and an assignment of its server, each at its own check and in this order; and a connection
    that has all of these is admitted. */
module AdmissionEvidence {
  import opened Common
  import opened Live
  import opened Admission
  import opened AdmissionInvariant
  import opened AdmissionTheorems

  // ---- a run as the states it passes through ------------------------------------------------------

  predicate Steps(s: State, l: Label, s': State) { Enabled(s, l) && s' == Apply(s, l) }

  ghost predicate IsTrace(tr: seq<State>, ls: seq<Label>) {
    && |tr| == |ls| + 1
    && forall i {:trigger Steps(tr[i], ls[i], tr[i + 1])} | 0 <= i < |ls| :: Steps(tr[i], ls[i], tr[i + 1])
  }

  lemma {:induction false} TraceOf(s: State, ls: seq<Label>) returns (tr: seq<State>)
    requires ValidRun(s, ls)
    ensures IsTrace(tr, ls) && tr[0] == s && tr[|ls|] == After(s, ls)
    decreases |ls|
  {
    if ls == [] {
      tr := [s];
    } else {
      var rest := TraceOf(Apply(s, ls[0]), ls[1..]);
      tr := [s] + rest;
      TraceBehind(s, ls[0], rest, ls[1..]);
      assert ls == [ls[0]] + ls[1..];
    }
  }

  lemma TraceBehind(s: State, l: Label, rest: seq<State>, ls: seq<Label>)
    requires IsTrace(rest, ls) && Steps(s, l, rest[0])
    ensures IsTrace([s] + rest, [l] + ls)
  {
    var tr, all := [s] + rest, [l] + ls;
    forall i | 0 <= i < |all| ensures Steps(tr[i], all[i], tr[i + 1]) {
      if i > 0 {
        var m := i - 1;
        assert tr[i] == rest[m] && all[i] == ls[m] && tr[i + 1] == rest[m + 1];
        assert Steps(rest[m], ls[m], rest[m + 1]);
      }
    }
  }

  // ---- one step -----------------------------------------------------------------------------------

  predicate PastTicket(p: ConnPhase) { p.Redeemed? || HasServer(p) }
  predicate PastRows(p: ConnPhase) { p.Rowed? || p.Admitted? }

  /** The ticket is in the table, for the connection's user and its server. */
  predicate ShowsTicket(s: State, k: Conn, ticket: nat) {
    s.generation == k.generation && ticket in s.tickets && s.tickets[ticket] == (k.user, k.server)
  }

  predicate ShowsSession(s: State, k: Conn) {
    s.generation == k.generation && k.token in s.store.sessions && s.store.sessions[k.token] == k.user
  }

  predicate ShowsAssignment(s: State, k: Conn) {
    && s.generation == k.generation
    && (k.user, k.server) in s.store.grants && s.store.grants[(k.user, k.server)] == k.grant
  }

  predicate ShowsRows(s: State, k: Conn) {
    s.generation == k.generation && k.user in s.store.users && k.server in s.store.servers
  }

  /** A check is passed exactly when what it looks for is there. */
  lemma ChecksDecide(s: State, c: nat, ticket: nat, target: nat)
    requires c < |s.conns|
    ensures var k := s.conns[c];
            && (k.phase.Registered? ==>
                  (Apply(s, Redeem(c, ticket)).conns[c].phase.Redeemed?
                   <==> k.generation == s.generation && ticket in s.tickets && s.tickets[ticket].0 == k.user))
            && (k.phase.Placed? ==>
                  (Apply(s, CheckSession(c)).conns[c].phase.SignedIn?
                   <==> k.token in s.store.sessions && s.store.sessions[k.token] == k.user))
            && (k.phase.SignedIn? ==>
                  (Apply(s, Find(c, target)).conns[c].phase.Found? <==> target in s.store.servers))
            && (k.phase.Found? ==>
                  (Apply(s, CheckAssigned(c)).conns[c].phase.Assigned?
                   <==> k.target == k.server && (k.user, k.server) in s.store.grants))
            && (k.phase.Assigned? ==>
                  (Apply(s, ReadRows(c)).conns[c].phase.Rowed?
                   <==> k.user in s.store.users && k.target in s.store.servers))
            && (k.phase.Redeemed? ==> Apply(s, Place(c)).conns[c].phase.Placed?)
            && (k.phase.Rowed? ==> Apply(s, Admit(c)).conns[c].phase.Admitted?)
  {
  }

  /** A step about another connection, or about none, leaves this one as it is. */
  lemma OthersLeaveIt(s: State, l: Label, c: nat)
    requires Enabled(s, l) && c < |s.conns| && !(IsConnStep(l) && l.c == c)
    ensures c < |Apply(s, l).conns| && Apply(s, l).conns[c] == s.conns[c]
  {
    if IsConnStep(l) { ConnFrame(s, l); }
  }

  /** A step of the connection keeps what it has shown, and shows what its phase says it has. */
  lemma StepShows(s: State, l: Label)
    requires Enabled(s, l) && IsConnStep(l) && ConnOk(s, l.c)
    ensures |ConnStep(s, l).conns| == |s.conns|
    ensures var k, k' := s.conns[l.c], ConnStep(s, l).conns[l.c];
            && k'.user == k.user && k'.token == k.token && k'.generation == k.generation
            && (PastTicket(k'.phase) ==>
                  if PastTicket(k.phase) then k'.server == k.server
                  else l.Redeem? && ShowsTicket(s, k', l.ticket))
            && (AfterSession(k'.phase) && !AfterSession(k.phase) ==> l.CheckSession? && ShowsSession(s, k'))
            && (AfterAssigned(k'.phase) ==>
                  if AfterAssigned(k.phase) then k'.grant == k.grant
                  else l.CheckAssigned? && ShowsAssignment(s, k'))
            && (PastRows(k'.phase) && !PastRows(k.phase) ==> l.ReadRows? && ShowsRows(s, k'))
  {
    if l.Register? || l.Redeem? || l.Place? || l.Close? {
      MovesShow(s, l);
    } else {
      ChecksShow(s, l);
    }
  }

  lemma MovesShow(s: State, l: Label)
    requires Enabled(s, l) && (l.Register? || l.Redeem? || l.Place? || l.Close?)
    ensures |ConnStep(s, l).conns| == |s.conns|
    ensures var k, k' := s.conns[l.c], ConnStep(s, l).conns[l.c];
            && k'.user == k.user && k'.token == k.token && k'.generation == k.generation
            && (PastTicket(k'.phase) ==>
                  if PastTicket(k.phase) then k'.server == k.server
                  else l.Redeem? && ShowsTicket(s, k', l.ticket))
            && !AfterSession(k'.phase)
  {
  }

  lemma ChecksShow(s: State, l: Label)
    requires Enabled(s, l) && ConnOkAt(s, l)
    requires l.CheckSession? || l.Find? || l.CheckAssigned? || l.ReadRows? || l.Admit? || l.Refuse?
    ensures |ConnStep(s, l).conns| == |s.conns|
    ensures var k, k' := s.conns[l.c], ConnStep(s, l).conns[l.c];
            && k'.user == k.user && k'.token == k.token && k'.generation == k.generation && k'.server == k.server
            && (PastTicket(k'.phase) ==> PastTicket(k.phase))
            && (AfterSession(k'.phase) && !AfterSession(k.phase) ==> l.CheckSession? && ShowsSession(s, k'))
            && (AfterAssigned(k'.phase) ==>
                  if AfterAssigned(k.phase) then k'.grant == k.grant
                  else l.CheckAssigned? && ShowsAssignment(s, k'))
            && (PastRows(k'.phase) && !PastRows(k.phase) ==> l.ReadRows? && ShowsRows(s, k'))
  {
  }

  // ---- whole runs ---------------------------------------------------------------------------------

  datatype Check = TicketCheck | SessionCheck | AssignmentCheck | RowsCheck

  predicate Past(check: Check, p: ConnPhase) {
    match check
    case TicketCheck => PastTicket(p)
    case SessionCheck => AfterSession(p)
    case AssignmentCheck => AfterAssigned(p)
    case RowsCheck => PastRows(p)
  }

  /** Step `l` from `s` is this check of connection `c`, and what it looks for is there. */
  predicate Shows(check: Check, s: State, l: Label, c: nat, k: Conn) {
    match check
    case TicketCheck => l.Redeem? && l.c == c && ShowsTicket(s, k, l.ticket)
    case SessionCheck => l == CheckSession(c) && ShowsSession(s, k)
    case AssignmentCheck => l == CheckAssigned(c) && ShowsAssignment(s, k)
    case RowsCheck => l == ReadRows(c) && ShowsRows(s, k)
  }

  /** The connection is the same for what a check has shown. */
  predicate SameFor(check: Check, k: Conn, k': Conn) {
    && k'.user == k.user && k'.token == k.token && k'.generation == k.generation && k'.server == k.server
    && (check.AssignmentCheck? ==> k'.grant == k.grant)
  }

  /** Past a check, a connection was past it before the step, or the step is the check. */
  predicate WasPast(check: Check, s: State, l: Label, c: nat, k': Conn) {
    && c < |s.conns|
    && ((Past(check, s.conns[c].phase) && SameFor(check, s.conns[c], k')) || Shows(check, s, l, c, k'))
  }

  lemma CheckStep(s: State, l: Label, check: Check, c: nat)
    requires Inv(s) && Enabled(s, l) && c < |Apply(s, l).conns| && Past(check, Apply(s, l).conns[c].phase)
    ensures WasPast(check, s, l, c, Apply(s, l).conns[c])
  {
    NotNew(s, l, check, c);
    if IsConnStep(l) && l.c == c {
      OwnCheckStep(s, l, check);
    } else {
      OtherCheckStep(s, l, check, c);
    }
  }

  lemma OtherCheckStep(s: State, l: Label, check: Check, c: nat)
    requires Enabled(s, l) && c < |s.conns| && !(IsConnStep(l) && l.c == c)
    requires c < |Apply(s, l).conns| && Past(check, Apply(s, l).conns[c].phase)
    ensures WasPast(check, s, l, c, Apply(s, l).conns[c])
  {
    OthersLeaveIt(s, l, c);
  }

  lemma OwnCheckStep(s: State, l: Label, check: Check)
    requires Inv(s) && Enabled(s, l) && IsConnStep(l) && l.c < |ConnStep(s, l).conns|
    requires Past(check, ConnStep(s, l).conns[l.c].phase)
    ensures WasPast(check, s, l, l.c, ConnStep(s, l).conns[l.c])
  {
    assert ConnOk(s, l.c);
    StepShows(s, l);
  }

  lemma NotNew(s: State, l: Label, check: Check, c: nat)
    requires Enabled(s, l) && c < |Apply(s, l).conns| && Past(check, Apply(s, l).conns[c].phase)
    ensures c < |s.conns|
  {
    if IsConnStep(l) { ConnFrame(s, l); }
  }

  ghost predicate AllInv(tr: seq<State>) { forall i {:trigger Inv(tr[i])} | 0 <= i < |tr| :: Inv(tr[i]) }

  lemma {:induction false} TraceInv(tr: seq<State>, ls: seq<Label>, n: nat)
    requires IsTrace(tr, ls) && Inv(tr[0]) && n <= |ls|
    ensures forall i | 0 <= i <= n :: Inv(tr[i])
  {
    if n > 0 {
      var m := n - 1;
      TraceInv(tr, ls, m);
      assert Steps(tr[m], ls[m], tr[m + 1]);
      StepKeeps(tr[m], ls[m]);
    }
  }

  /** A connection past a check passed it at some step of the run. */
  lemma {:induction false} CheckWasPassed(tr: seq<State>, ls: seq<Label>, check: Check, c: nat, n: nat) returns (i: nat)
    requires IsTrace(tr, ls) && AllInv(tr) && tr[0].conns == []
    requires n <= |ls| && c < |tr[n].conns| && Past(check, tr[n].conns[c].phase)
    ensures i < n && Shows(check, tr[i], ls[i], c, tr[n].conns[c])
    ensures c < |tr[i].conns|
  {
    var m := n - 1;
    CheckAt(tr, ls, check, c, m);
    if Shows(check, tr[m], ls[m], c, tr[n].conns[c]) {
      i := m;
    } else {
      i := CheckWasPassed(tr, ls, check, c, m);
      StillShows(check, tr[i], ls[i], c, tr[m].conns[c], tr[n].conns[c]);
    }
  }

  lemma StillShows(check: Check, s: State, l: Label, c: nat, k: Conn, k': Conn)
    requires Shows(check, s, l, c, k) && SameFor(check, k, k')
    ensures Shows(check, s, l, c, k')
  {
  }

  lemma CheckAt(tr: seq<State>, ls: seq<Label>, check: Check, c: nat, m: nat)
    requires IsTrace(tr, ls) && AllInv(tr) && m < |ls| && c < |tr[m + 1].conns|
    requires Past(check, tr[m + 1].conns[c].phase)
    ensures WasPast(check, tr[m], ls[m], c, tr[m + 1].conns[c])
  {
    assert Steps(tr[m], ls[m], tr[m + 1]) && Inv(tr[m]);
    CheckStep(tr[m], ls[m], check, c);
  }

  /** A ticket in the table was issued, for the user and the server it is for. */
  lemma {:induction false} TicketWasIssued(tr: seq<State>, ls: seq<Label>, t: nat, n: nat) returns (i: nat)
    requires IsTrace(tr, ls) && tr[0].tickets == map[] && n <= |ls| && t in tr[n].tickets
    ensures i < n && ls[i] == Issue(t, tr[n].tickets[t].0, tr[n].tickets[t].1)
  {
    var m := n - 1;
    TicketAt(tr, ls, t, m);
    if ls[m].Issue? && ls[m].ticket == t {
      i := m;
    } else {
      i := TicketWasIssued(tr, ls, t, m);
    }
  }

  lemma TicketAt(tr: seq<State>, ls: seq<Label>, t: nat, m: nat)
    requires IsTrace(tr, ls) && m < |ls| && t in tr[m + 1].tickets
    ensures if ls[m].Issue? && ls[m].ticket == t then tr[m + 1].tickets[t] == (ls[m].user, ls[m].server)
            else t in tr[m].tickets && tr[m + 1].tickets[t] == tr[m].tickets[t]
  {
    assert Steps(tr[m], ls[m], tr[m + 1]);
    TicketComes(tr[m], ls[m], t);
  }

  lemma TicketComes(s: State, l: Label, t: nat)
    requires Enabled(s, l) && t in Apply(s, l).tickets
    ensures if l.Issue? && l.ticket == t then Apply(s, l).tickets[t] == (l.user, l.server)
            else t in s.tickets && Apply(s, l).tickets[t] == s.tickets[t]
  {
  }

  /** How far a connection is; it never goes back. */
  function Rank(p: ConnPhase): nat {
    match p
    case Upgrading => 0 case Registered => 1 case Redeemed => 2 case Placed => 3 case SignedIn => 4 case Found => 5
    case Assigned => 6 case Rowed => 7 case Admitted => 8 case Refused => 9 case Closed => 10
  }

  lemma RankStep(s: State, l: Label, c: nat)
    requires Enabled(s, l) && c < |s.conns|
    ensures c < |Apply(s, l).conns| && Rank(s.conns[c].phase) <= Rank(Apply(s, l).conns[c].phase)
  {
    if !(IsConnStep(l) && l.c == c) { OthersLeaveIt(s, l, c); }
  }

  lemma {:induction false} RankGrows(tr: seq<State>, ls: seq<Label>, c: nat, i: nat, j: nat)
    requires IsTrace(tr, ls) && i <= j <= |ls| && c < |tr[i].conns|
    ensures c < |tr[j].conns| && Rank(tr[i].conns[c].phase) <= Rank(tr[j].conns[c].phase)
    decreases j
  {
    if i < j {
      RankGrows(tr, ls, c, i, j - 1);
      RankAt(tr, ls, c, j - 1);
    }
  }

  lemma RankAt(tr: seq<State>, ls: seq<Label>, c: nat, m: nat)
    requires IsTrace(tr, ls) && m < |ls| && c < |tr[m].conns|
    ensures c < |tr[m + 1].conns| && Rank(tr[m].conns[c].phase) <= Rank(tr[m + 1].conns[c].phase)
  {
    assert Steps(tr[m], ls[m], tr[m + 1]);
    RankStep(tr[m], ls[m], c);
  }

  /** The phase a connection is in when a check of it is made. */
  lemma PhaseAt(tr: seq<State>, ls: seq<Label>, check: Check, c: nat, m: nat, k: Conn)
    requires IsTrace(tr, ls) && m < |ls| && c < |tr[m].conns| && Shows(check, tr[m], ls[m], c, k)
    ensures tr[m].conns[c].phase
            == match check case TicketCheck => Registered case SessionCheck => ConnPhase.Placed
                           case AssignmentCheck => Found case RowsCheck => ConnPhase.Assigned
  {
    assert Steps(tr[m], ls[m], tr[m + 1]);
  }

  lemma InOrder(tr: seq<State>, ls: seq<Label>, c: nat, i: nat, j: nat)
    requires IsTrace(tr, ls) && i < |ls| && j < |ls| && c < |tr[i].conns| && c < |tr[j].conns|
    requires Rank(tr[i].conns[c].phase) < Rank(tr[j].conns[c].phase)
    ensures i < j
  {
    if j <= i { RankGrows(tr, ls, c, j, i); }
  }

  /** The moments of a run at which a connection showed each thing, in order. */
  ghost predicate ShowedEverything(tr: seq<State>, ls: seq<Label>, c: nat, k: Conn, issued: nat, spent: nat,
                                   session: nat, granted: nat, rows: nat)
    requires |tr| == |ls| + 1
  {
    && issued < spent < session < granted < rows < |ls|
    && Shows(TicketCheck, tr[spent], ls[spent], c, k) && ls[issued] == Issue(ls[spent].ticket, k.user, k.server)
    && Shows(SessionCheck, tr[session], ls[session], c, k)
    && Shows(AssignmentCheck, tr[granted], ls[granted], c, k)
    && Shows(RowsCheck, tr[rows], ls[rows], c, k)
  }

  lemma AdmittedOnTrace(tr: seq<State>, ls: seq<Label>, c: nat)
    returns (issued: nat, spent: nat, session: nat, granted: nat, rows: nat)
    requires IsTrace(tr, ls) && AllInv(tr) && tr[0].conns == [] && tr[0].tickets == map[]
    requires c < |tr[|ls|].conns| && tr[|ls|].conns[c].phase.Admitted?
    ensures ShowedEverything(tr, ls, c, tr[|ls|].conns[c], issued, spent, session, granted, rows)
  {
    var k := tr[|ls|].conns[c];
    rows := CheckWasPassed(tr, ls, RowsCheck, c, |ls|);
    granted := CheckWasPassed(tr, ls, AssignmentCheck, c, |ls|);
    session := CheckWasPassed(tr, ls, SessionCheck, c, |ls|);
    spent := CheckWasPassed(tr, ls, TicketCheck, c, |ls|);
    PhaseAt(tr, ls, RowsCheck, c, rows, k);
    PhaseAt(tr, ls, AssignmentCheck, c, granted, k);
    PhaseAt(tr, ls, SessionCheck, c, session, k);
    PhaseAt(tr, ls, TicketCheck, c, spent, k);
    InOrder(tr, ls, c, granted, rows);
    InOrder(tr, ls, c, session, granted);
    InOrder(tr, ls, c, spent, session);
    issued := TicketWasIssued(tr, ls, ls[spent].ticket, spent);
  }

  /** Every admitted connection, over every run: a ticket was issued to its user for its server; the connection spent
      it; then its session was one of its user; then its server was assigned to its user, by the very assignment it
      is under; then both rows were there. All of it in the database it was upgraded in. */
  lemma AdmittedShowedEverything(s0: State, ls: seq<Label>, c: nat)
    returns (tr: seq<State>, issued: nat, spent: nat, session: nat, granted: nat, rows: nat)
    requires Init(s0) && ValidRun(s0, ls) && c < |After(s0, ls).conns| && After(s0, ls).conns[c].phase.Admitted?
    ensures IsTrace(tr, ls) && tr[0] == s0 && tr[|ls|] == After(s0, ls)
    ensures ShowedEverything(tr, ls, c, After(s0, ls).conns[c], issued, spent, session, granted, rows)
  {
    tr := TraceOf(s0, ls);
    assert Inv(s0);
    TraceInv(tr, ls, |ls|);
    issued, spent, session, granted, rows := AdmittedOnTrace(tr, ls, c);
  }

  // ---- who is admitted ----------------------------------------------------------------------------

  /** A step that refuses connection `c`: one of its checks does not find what it looks for, or the environment fails
      it. */
  predicate Lacks(s: State, l: Label, c: nat)
    requires c < |s.conns|
  {
    var k := s.conns[c];
    match l
    case Redeem(i, t) => i == c && !(k.generation == s.generation && t in s.tickets && s.tickets[t].0 == k.user)
    case CheckSession(i) => i == c && !(k.token in s.store.sessions && s.store.sessions[k.token] == k.user)
    case Find(i, target) => i == c && target !in s.store.servers
    case CheckAssigned(i) => i == c && !(k.target == k.server && (k.user, k.server) in s.store.grants)
    case ReadRows(i) => i == c && !(k.user in s.store.users && k.target in s.store.servers)
    case Refuse(i) => i == c
    case _ => false
  }

  lemma LackStep(s: State, l: Label, c: nat)
    requires Enabled(s, l) && c < |s.conns| && !s.conns[c].phase.Closed?
    ensures c < |Apply(s, l).conns|
    ensures Apply(s, l).conns[c].phase.Refused? <==>
              l != Close(c) && (s.conns[c].phase.Refused? || Lacks(s, l, c))
    ensures Apply(s, l).conns[c].phase.Closed? <==> l == Close(c)
  {
    if IsConnStep(l) && l.c == c { OwnLack(s, l); } else { OthersLeaveIt(s, l, c); }
  }

  lemma OwnLack(s: State, l: Label)
    requires Enabled(s, l) && IsConnStep(l) && !s.conns[l.c].phase.Closed?
    ensures l.c < |ConnStep(s, l).conns|
    ensures ConnStep(s, l).conns[l.c].phase.Refused? <==> !l.Close? && (s.conns[l.c].phase.Refused? || Lacks(s, l, l.c))
    ensures ConnStep(s, l).conns[l.c].phase.Closed? <==> l.Close?
  {
  }

  ghost predicate SomethingLacks(s: State, ls: seq<Label>, c: nat)
    requires ValidRun(s, ls)
    decreases |ls|
  {
    c < |s.conns| && ls != [] && (Lacks(s, ls[0], c) || SomethingLacks(Apply(s, ls[0]), ls[1..], c))
  }

  /** Over any run a connection that is not closed is refused if and only if a check of it did not find what it looked
      for, or the environment failed it. */
  lemma {:induction false} RefusedExactlyIfLacking(s: State, ls: seq<Label>, c: nat)
    requires ValidRun(s, ls) && c < |s.conns| && !s.conns[c].phase.Closed? && Close(c) !in ls
    ensures c < |After(s, ls).conns|
    ensures After(s, ls).conns[c].phase.Refused? <==> s.conns[c].phase.Refused? || SomethingLacks(s, ls, c)
    decreases |ls|
  {
    if ls != [] {
      LackStep(s, ls[0], c);
      RefusedExactlyIfLacking(Apply(s, ls[0]), ls[1..], c);
    }
  }

  /** The steps of an admission, from the ticket on. */
  function Way(c: nat, ticket: nat, target: nat): seq<Label> { [Redeem(c, ticket), Place(c)] + Checks(c, target) }

  function Checks(c: nat, target: nat): seq<Label> {
    [CheckSession(c), Find(c, target), CheckAssigned(c), ReadRows(c), Admit(c)]
  }

  /** A registered connection has what admission asks for, with a ticket for server `target`. */
  predicate Entitled(s: State, c: nat, ticket: nat, target: nat)
    requires c < |s.conns|
  {
    var k := s.conns[c];
    && k.generation == s.generation && ticket in s.tickets && s.tickets[ticket] == (k.user, target)
    && k.token in s.store.sessions && s.store.sessions[k.token] == k.user
    && (k.user, target) in s.store.grants
  }

  /** A connection that has all of it gets in, and spends its ticket. */
  lemma EntitledIsAdmitted(s: State, c: nat, ticket: nat, target: nat)
    requires Reachable(s) && AtPhase(s, c, Registered) && Entitled(s, c, ticket, target)
    ensures ValidRun(s, Way(c, ticket, target))
    ensures var s', k := After(s, Way(c, ticket, target)), s.conns[c];
            && c < |s'.conns| && ticket !in s'.tickets && s'.store == s.store
            && s'.conns[c] == k.(phase := Admitted, server := target, target := target,
                                 grant := s.store.grants[(k.user, target)])
  {
    ReachableInv(s);
    var s1, s2 := TicketIsSpent(s, c, ticket, target);
    ChecksPass(s2, c, target);
    OneStep(s1, Place(c), Checks(c, target), s2);
    OneStep(s, Redeem(c, ticket), [Place(c)] + Checks(c, target), s1);
    assert Way(c, ticket, target) == [Redeem(c, ticket)] + ([Place(c)] + Checks(c, target));
  }

  lemma TicketIsSpent(s: State, c: nat, ticket: nat, target: nat) returns (s1: State, s2: State)
    requires AtPhase(s, c, Registered) && Entitled(s, c, ticket, target)
    ensures Steps(s, Redeem(c, ticket), s1) && Steps(s1, Place(c), s2)
    ensures s2.store == s.store && ticket !in s2.tickets
    ensures s2.conns == s.conns[c := s.conns[c].(phase := ConnPhase.Placed, server := target)]
  {
    s1 := Apply(s, Redeem(c, ticket));
    s2 := Apply(s1, Place(c));
  }

  lemma ChecksPass(s: State, c: nat, target: nat)
    requires Whole(s.store) && AtPhase(s, c, ConnPhase.Placed) && s.conns[c].server == target
    requires var k := s.conns[c];
             k.token in s.store.sessions && s.store.sessions[k.token] == k.user && (k.user, target) in s.store.grants
    ensures ValidRun(s, Checks(c, target))
    ensures var s', k := After(s, Checks(c, target)), s.conns[c];
            s' == s.(conns := s.conns[c := k.(phase := Admitted, target := target,
                                              grant := s.store.grants[(k.user, target)])])
  {
    var k := s.conns[c];
    var s1 := s.(conns := s.conns[c := k.(phase := SignedIn)]);
    var s2 := s.(conns := s.conns[c := k.(phase := Found, target := target)]);
    var rest := [CheckAssigned(c), ReadRows(c), Admit(c)];
    LastChecksPass(s2, c, target, rest);
    OneStep(s1, Find(c, target), rest, s2);
    OneStep(s, CheckSession(c), [Find(c, target)] + rest, s1);
    assert Checks(c, target) == [CheckSession(c)] + ([Find(c, target)] + rest);
  }

  lemma LastChecksPass(s: State, c: nat, target: nat, ls: seq<Label>)
    requires ls == [CheckAssigned(c), ReadRows(c), Admit(c)] && Whole(s.store) && AtPhase(s, c, Found)
    requires var k := s.conns[c]; k.server == k.target == target && (k.user, target) in s.store.grants
    ensures ValidRun(s, ls)
    ensures var s', k := After(s, ls), s.conns[c];
            s' == s.(conns := s.conns[c := k.(phase := Admitted, grant := s.store.grants[(k.user, target)])])
  {
    var k, g := s.conns[c], s.store.grants[(s.conns[c].user, target)];
    var s1 := s.(conns := s.conns[c := k.(phase := ConnPhase.Assigned, grant := g)]);
    RowsPass(s1, c, [ReadRows(c), Admit(c)]);
    OneStep(s, CheckAssigned(c), [ReadRows(c), Admit(c)], s1);
  }

  lemma RowsPass(s: State, c: nat, ls: seq<Label>)
    requires ls == [ReadRows(c), Admit(c)] && AtPhase(s, c, ConnPhase.Assigned)
    requires s.conns[c].user in s.store.users && s.conns[c].target in s.store.servers
    ensures ValidRun(s, ls) && After(s, ls) == s.(conns := s.conns[c := s.conns[c].(phase := Admitted)])
  {
    var s1 := s.(conns := s.conns[c := s.conns[c].(phase := Rowed)]);
    var s2 := s.(conns := s.conns[c := s.conns[c].(phase := Admitted)]);
    OneStep(s1, Admit(c), [], s2);
    OneStep(s, ReadRows(c), [Admit(c)], s1);
  }

  lemma OneStep(s: State, l: Label, ls: seq<Label>, s': State)
    requires Steps(s, l, s') && ValidRun(s', ls)
    ensures ValidRun(s, [l] + ls) && After(s, [l] + ls) == After(s', ls)
  {
    assert ([l] + ls)[1..] == ls;
  }

  // ---- what the store calls do --------------------------------------------------------------------

  /** The store call of a removal takes away exactly what its kind says, and fails exactly when its row, or a server it
      is to assign, is not there. */
  lemma RemovalTakesExactly(st: Store, op: Op, edit: nat)
    requires Whole(st) && (op.phase.BeforeRead? || (op.phase.Begun? && !op.kind.SetServers?))
    ensures var (r, op') := Removal(st, op, edit);
            && (op'.phase.Failed? || op'.phase.Deleted?) && (op'.phase.Failed? ==> r == st)
            && (match op.kind
                case SignOut(t) =>
                  && op'.phase.Deleted? && r.users == st.users && r.servers == st.servers && r.grants == st.grants
                  && (forall x :: x in r.sessions <==> x in st.sessions && x != t)
                case DropSessions(u) =>
                  && op'.phase.Deleted? && r.users == st.users && r.servers == st.servers && r.grants == st.grants
                  && (forall x :: x in r.sessions <==> x in st.sessions && st.sessions[x] != u)
                  && (forall x :: x in op'.tokens <==> x in st.sessions && st.sessions[x] == u)
                case RemoveUser(u) =>
                  && (op'.phase.Failed? <==> u !in st.users)
                  && (op'.phase.Deleted? ==> forall x :: x in op'.tokens <==> x in st.sessions && st.sessions[x] == u)
                case RemoveServer(x) => op'.phase.Failed? <==> x !in st.servers
                case SetServers(u, wanted) =>
                  && (op'.phase.Failed? <==> u !in st.users || !(wanted <= st.servers))
                  && r.users == st.users && r.servers == st.servers && r.sessions == st.sessions)
            && (forall x | x in r.sessions :: x in st.sessions && r.sessions[x] == st.sessions[x])
  {
  }

  /** `copy_assignments` gives one user every server of the other, keeps what was there and changes nobody else's. */
  lemma CopyGivesExactly(st: Store, from: nat, to: nat, edit: nat)
    ensures var g := Copied(st, from, to, edit);
            && (forall k :: k in g <==> k in st.grants || (k.0 == to && (from, k.1) in st.grants))
            && (forall k | k in g :: g[k] == if k in st.grants then st.grants[k] else edit)
  {
    ServersOfIs(st, from);
    var g := Copied(st, from, to, edit);
    forall k: (nat, nat)
      ensures k in g <==> k in st.grants || (k.0 == to && (from, k.1) in st.grants)
    {
      assert k == (k.0, k.1);
    }
  }

  // ---- sessions that are gone ---------------------------------------------------------------------

  /** The session was there in this database and is gone. */
  predicate Gone(s: State, generation: nat, t: nat) {
    s.generation == generation ==> t in s.owners && t !in s.store.sessions
  }

  lemma GoneStep(s: State, l: Label, generation: nat, t: nat)
    requires Inv(s) && Enabled(s, l) && Gone(s, generation, t) && generation <= s.generation
    ensures Gone(Apply(s, l), generation, t) && generation <= Apply(s, l).generation
  {
    if IsConnStep(l) {
      ConnFrame(s, l);
    } else if l.Step? && !s.ops[l.o].phase.Deleted? {
      RemovalGrows(s, l.o);
    }
  }

  lemma {:induction false} GoneRun(s: State, ls: seq<Label>, generation: nat, t: nat)
    requires Inv(s) && ValidRun(s, ls) && Gone(s, generation, t) && generation <= s.generation
    ensures Gone(After(s, ls), generation, t)
    decreases |ls|
  {
    if ls != [] {
      GoneStep(s, ls[0], generation, t);
      StepKeeps(s, ls[0]);
      GoneRun(Apply(s, ls[0]), ls[1..], generation, t);
    }
  }

  /** Once a sign-out, a revocation, a reset or a user's removal has made its store call, no session of that token or
      that user signed in before is ever there again in this database. */
  lemma EndedSessionsStayEnded(s: State, o: nat, pick: nat, ls: seq<Label>, t: nat)
    requires Reachable(s) && Enabled(s, Step(o, pick)) && s.ops[o].phase.Begun? && t in s.owners
    requires match s.ops[o].kind
             case SignOut(x) => t == x
             case DropSessions(u) => s.owners[t] == u
             case RemoveUser(u) => s.owners[t] == u && u in s.store.users
             case _ => false
    requires ValidRun(Apply(s, Step(o, pick)), ls)
    ensures var end := After(Apply(s, Step(o, pick)), ls);
            end.generation == s.generation ==> t !in end.store.sessions
  {
    ReachableInv(s);
    var s' := Apply(s, Step(o, pick));
    RemovalTakesExactly(s.store, s.ops[o], s.edits);
    if s.ops[o].kind.RemoveUser? { UserDeleted(s.store, s.ops[o].kind.user); DeletedHasNone(s, o, t); }
    StepKeeps(s, Step(o, pick));
    GoneRun(s', ls, s.generation, t);
  }

  lemma DeletedHasNone(s: State, o: nat, t: nat)
    requires StoreOk(s) && o < |s.ops| && s.ops[o].kind.RemoveUser? && s.ops[o].kind.user in s.store.users
    requires t in s.owners && s.owners[t] == s.ops[o].kind.user
    ensures t !in Removal(s.store, s.ops[o], s.edits).0.sessions
  {
    UserDeleted(s.store, s.ops[o].kind.user);
  }

  // ---- who is in the registry ---------------------------------------------------------------------

  predicate IsOpen(s: State, c: nat) {
    c < |s.conns| && !s.conns[c].phase.Upgrading? && !s.conns[c].phase.Closed?
  }

  ghost predicate RegistryIsOpen(s: State) { forall c | c in s.live :: IsOpen(s, c) }

  lemma RegistryStep(s: State, l: Label)
    requires Enabled(s, l) && RegistryIsOpen(s)
    ensures RegistryIsOpen(Apply(s, l))
  {
    if IsConnStep(l) {
      ConnRegistry(s, l);
    }
  }

  lemma ConnRegistry(s: State, l: Label)
    requires Enabled(s, l) && IsConnStep(l) && RegistryIsOpen(s)
    ensures RegistryIsOpen(ConnStep(s, l))
  {
    ConnFrame(s, l);
    forall c | c in ConnStep(s, l).live ensures IsOpen(ConnStep(s, l), c) {
      if c != l.c { assert IsOpen(s, c); }
    }
  }

  lemma {:induction false} RegistryRun(s: State, ls: seq<Label>)
    requires ValidRun(s, ls) && RegistryIsOpen(s)
    ensures RegistryIsOpen(After(s, ls))
    decreases |ls|
  {
    if ls != [] {
      RegistryStep(s, ls[0]);
      RegistryRun(Apply(s, ls[0]), ls[1..]);
    }
  }

  /** The registry holds exactly the connections from their registration to their close, each under its own user,
      session and, once placed, server. */
  lemma RegistryIsTheOpenConnections(s: State, c: nat)
    requires Reachable(s)
    ensures c in s.live <==> IsOpen(s, c)
    ensures c in s.live ==>
              && s.live[c].user == s.conns[c].user && s.live[c].token == s.conns[c].token
              && (HasServer(s.conns[c].phase) ==> s.live[c].server == Some(s.conns[c].server))
  {
    ReachableInv(s);
    var s0, ls :| Init(s0) && ValidRun(s0, ls) && s == After(s0, ls);
    RegistryRun(s0, ls);
    if c in s.live { assert IsOpen(s, c); }
    if c < |s.conns| { assert ConnOk(s, c); }
  }

  // ---- who is signalled ---------------------------------------------------------------------------

  /** A step takes the cancel sender of connection `c`. */
  predicate Fires(s: State, l: Label, c: nat)
    requires Enabled(s, l)
  {
    var s' := Apply(s, l); c in s.live && s.live[c].armed && c in s'.live && !s'.live[c].armed
  }

  /** The connections a removal may end: of its session, its user or its server, and for an edit of assignments those
      to a server it had read and does not want. */
  predicate ItsOwn(op: Op, k: Conn, server: Option<nat>) {
    match op.kind
    case SignOut(t) => k.token == t
    case DropSessions(u) => k.user == u
    case RemoveUser(u) => k.user == u
    case RemoveServer(x) => server == Some(x)
    case SetServers(u, wanted) =>
      k.user == u && server.Some? && server.value in op.before && server.value !in wanted
  }

  /** Nobody else is ended: a step signals a connection only as an import, or as the registry call of a removal the
      connection is a matter of, made after its store call. */
  lemma EndsOnlyItsOwn(s: State, l: Label, c: nat)
    requires Reachable(s) && Enabled(s, l) && Fires(s, l, c)
    ensures l.Import? || (l.Step? && s.ops[l.o].phase.Deleted?)
    ensures l.Step? ==> c < |s.conns| && ItsOwn(s.ops[l.o], s.conns[c], s.live[c].server)
  {
    ReachableInv(s);
    ReachableTodo(s);
    RegistryIsTheOpenConnections(s, c);
    assert ConnOk(s, c);
    if l.Step? {
      assert TodoRead(s.ops[l.o]);
      StepFires(s, l.o, l.pick, c);
    } else if IsConnStep(l) {
      ConnFiresNobody(s, l, c);
    }
  }

  lemma StepFires(s: State, o: nat, pick: nat, c: nat)
    requires Enabled(s, Step(o, pick)) && Fires(s, Step(o, pick), c) && IsOpen(s, c) && ConnOk(s, c)
    requires TodoRead(s.ops[o])
    ensures s.ops[o].phase.Deleted? && ItsOwn(s.ops[o], s.conns[c], s.live[c].server)
  {
  }

  lemma ConnFiresNobody(s: State, l: Label, c: nat)
    requires Enabled(s, l) && IsConnStep(l) && c < |s.conns| && ConnOk(s, c)
    ensures !Fires(s, l, c)
  {
    ConnFrame(s, l);
  }

  /** What the other steps of the store are for. */
  lemma StoreStepsTakeEffect(s: State, l: Label)
    requires Enabled(s, l) && StoreOk(s)
    ensures var st, st' := s.store, Apply(s, l).store;
            match l
            case AddUser => s.nextUser !in st.users && st' == st.(users := st.users + {s.nextUser})
            case AddServer => s.nextServer !in st.servers && st' == st.(servers := st.servers + {s.nextServer})
            case SignIn(u, t) => st' == st.(sessions := st.sessions[t := u]) && t !in st.sessions
            case Purge(t) => t !in st'.sessions && forall x | x in st.sessions && x != t :: x in st'.sessions
            case Import(imported, _, _) => st' == imported && Apply(s, l).generation == s.generation + 1
            case _ => true
  {
  }
}
