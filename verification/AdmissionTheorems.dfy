/** What a completed removal guarantees, over every interleaving; and where one route's guarantee ends. */
module AdmissionTheorems {
  import opened Common
  import opened Live
  import opened Admission
  import opened AdmissionInvariant

  ghost predicate Reachable(s: State) {
    exists s0, ls :: Init(s0) && ValidRun(s0, ls) && s == After(s0, ls)
  }

  lemma ReachableInv(s: State)
    requires Reachable(s)
    ensures Inv(s)
  {
    var s0, ls :| Init(s0) && ValidRun(s0, ls) && s == After(s0, ls);
    assert Inv(s0);
    RunKeeps(s0, ls);
  }

  /** The connections a removal is about: those under a session it deleted, of the user or to the server
      it deleted, or to a server `set_user_servers` had read and took away, under that assignment. */
  ghost predicate Concerns(op: Op, k: Conn) {
    k.generation == op.generation &&
    match op.kind
    case SignOut(_) => k.token in op.tokens
    case DropSessions(_) => k.token in op.tokens
    case RemoveUser(u) => k.user == u
    case RemoveServer(x) => k.server == x
    case SetServers(u, wanted) =>
      && k.user == u && k.server in op.before && k.server !in wanted
      && k.server in op.lost && op.lost[k.server] == k.grant
  }

  /** Once a removal completes, every admitted connection it concerns has been signalled: those that
      passed before it, and, in every later state, any that would have passed after it. */
  lemma RemovalReachesAdmitted(s: State, o: nat, c: nat)
    requires Reachable(s) && o < |s.ops| && c < |s.conns|
    requires s.ops[o].phase.Done? && s.conns[c].phase.Admitted? && Concerns(s.ops[o], s.conns[c])
    ensures Signalled(s, c)
  {
    ReachableInv(s);
    assert OpOk(s, o) && ConnOk(s, c);
    if s.ops[o].generation == s.generation {
      assert Struck(s.ops[o], s.conns[c]);
    }
  }

  /** The connections a removal's own signal is for, whatever session they were opened under; an edit of
      assignments is `EditReachesExactlyItsRead`'s. */
  predicate Aimed(op: Op, k: Conn) {
    match op.kind
    case SignOut(t) => k.token == t
    case DropSessions(u) => k.user == u
    case RemoveUser(u) => k.user == u
    case RemoveServer(x) => k.server == x
    case SetServers(_, _) => false
  }

  /** A removal that has not completed will reach connection `c`, and one that has did: the entry keeps what
      the signal goes by, unless the connection closes. */
  ghost predicate Due(s: State, o: nat, c: nat) {
    && o < |s.ops| && !s.ops[o].kind.SetServers? && c < |s.conns|
    && !s.conns[c].phase.Upgrading?
    && (s.ops[o].kind.RemoveServer? ==> !s.conns[c].phase.Registered? && !s.conns[c].phase.Redeemed?)
    && (c in s.live ==> Names(Target(s.ops[o], 0), s.live[c]))
    && (s.ops[o].phase.Done? ==> Signalled(s, c))
  }

  lemma DueStep(s: State, l: Label, o: nat, c: nat)
    requires Enabled(s, l) && Due(s, o, c)
    ensures Due(Apply(s, l), o, c)
  {
    if IsConnStep(l) {
      if l.c == c { OwnStepDue(s, l, o); } else { OtherStepDue(s, l, o, c); }
    } else if l.Step? {
      OpStepDue(s, l.o, l.pick, o, c);
    } else {
      StoreStepDue(s, l, o, c);
    }
  }

  lemma OwnStepDue(s: State, l: Label, o: nat)
    requires Enabled(s, l) && IsConnStep(l) && Due(s, o, l.c)
    ensures Due(ConnStep(s, l), o, l.c)
  {
    if l.Redeem? || l.Place? || l.Close? { MoveDue(s, l, o); } else { CheckDue(s, l, o); }
  }

  lemma MoveDue(s: State, l: Label, o: nat)
    requires Enabled(s, l) && (l.Redeem? || l.Place? || l.Close?) && Due(s, o, l.c)
    ensures Due(ConnStep(s, l), o, l.c)
  {
  }

  lemma CheckDue(s: State, l: Label, o: nat)
    requires Enabled(s, l) && IsConnStep(l) && !l.Redeem? && !l.Place? && !l.Close? && Due(s, o, l.c)
    ensures Due(ConnStep(s, l), o, l.c)
  {
  }

  lemma OtherStepDue(s: State, l: Label, o: nat, c: nat)
    requires Enabled(s, l) && IsConnStep(l) && l.c != c && Due(s, o, c)
    ensures Due(ConnStep(s, l), o, c)
  {
    ConnFrame(s, l);
  }

  lemma StoreStepDue(s: State, l: Label, o: nat, c: nat)
    requires Enabled(s, l) && !IsConnStep(l) && !l.Step? && Due(s, o, c)
    ensures Due(Apply(s, l), o, c)
  {
  }

  lemma OpStepDue(s: State, p: nat, pick: nat, o: nat, c: nat)
    requires Enabled(s, Step(p, pick)) && Due(s, o, c)
    ensures Due(Apply(s, Step(p, pick)), o, c)
  {
  }

  lemma {:induction false} DueRun(s: State, ls: seq<Label>, o: nat, c: nat)
    requires ValidRun(s, ls) && Due(s, o, c)
    ensures Due(After(s, ls), o, c)
    decreases |ls|
  {
    if ls != [] {
      DueStep(s, ls[0], o, c);
      DueRun(Apply(s, ls[0]), ls[1..], o, c);
    }
  }

  /** Every connection registered before a removal signalled is signalled once the removal completes, admitted or
      still setting up, even one whose session was gone before the removal's store call; for a server's removal,
      every connection placed there. */
  lemma RemovalReachesEarlier(s: State, ls: seq<Label>, o: nat, c: nat)
    requires Reachable(s) && ValidRun(s, ls) && o < |s.ops| && !s.ops[o].phase.Done?
    requires c < |s.conns| && !s.conns[c].phase.Upgrading? && !s.conns[c].phase.Closed?
    requires Aimed(s.ops[o], s.conns[c]) && (s.ops[o].kind.RemoveServer? ==> HasServer(s.conns[c].phase))
    ensures var s' := After(s, ls);
            o < |s'.ops| && (s'.ops[o].phase.Done? ==> Signalled(s', c))
  {
    ReachableInv(s);
    assert ConnOk(s, c);
    DueRun(s, ls, o, c);
  }

  /** Connection `c` is admitted under an assignment the completed edit `o` took away. */
  predicate UnderTaken(s: State, o: nat, c: nat) {
    && o < |s.ops| && s.ops[o].kind.SetServers? && s.ops[o].phase.Done? && s.ops[o].generation == s.generation
    && c < |s.conns| && s.conns[c].phase.Admitted? && s.conns[c].generation == s.generation
    && s.conns[c].user == s.ops[o].kind.user && s.conns[c].server in s.ops[o].lost
    && s.conns[c].grant == s.ops[o].lost[s.conns[c].server]
  }

  /** An edit whose transaction took away only what the edit had read reaches every connection under what it took. */
  lemma EditReachesWhatItRead(s: State, o: nat, c: nat)
    requires Reachable(s) && UnderTaken(s, o, c) && s.ops[o].lost.Keys <= s.ops[o].before
    ensures Signalled(s, c)
  {
    ReachableInv(s);
    assert OpOk(s, o);
    RemovalReachesAdmitted(s, o, c);
  }

  /** From a removal's store call on, before it has signalled anyone, the check it defeats refuses. */
  lemma LaterChecksRefuse(s: State, o: nat, c: nat)
    requires Reachable(s) && o < |s.ops| && c < |s.conns| && s.ops[o].generation == s.generation
    requires s.ops[o].phase.Deleted? || s.ops[o].phase.Done?
    ensures var op, k := s.ops[o], s.conns[c];
            && (k.phase.Placed? && (op.kind.SignOut? || op.kind.DropSessions?) && k.token in op.tokens ==>
                  Apply(s, CheckSession(c)).conns[c].phase.Refused?)
            && (k.phase.Placed? && op.kind.RemoveUser? && k.user == op.kind.user ==>
                  Apply(s, CheckSession(c)).conns[c].phase.Refused?)
            && (k.phase.Found? && op.kind.RemoveServer? && k.server == op.kind.server ==>
                  Apply(s, CheckAssigned(c)).conns[c].phase.Refused?)
            && (k.phase.Found? && op.kind.SetServers? && k.user == op.kind.user && k.server in op.lost ==>
                  var k' := Apply(s, CheckAssigned(c)).conns[c];
                  k'.phase.Refused? || k'.grant != op.lost[k.server])
  {
    ReachableInv(s);
    assert OpOk(s, o) && ConnOk(s, c);
  }

  /** An import signals every connection there is; one from an older database is never admitted. */
  lemma OlderGenerationEnds(s: State, c: nat, ticket: nat)
    requires Reachable(s) && c < |s.conns| && s.conns[c].generation < s.generation
    ensures Signalled(s, c) && !InAdmission(s.conns[c].phase)
    ensures s.conns[c].phase.Registered? ==> Apply(s, Redeem(c, ticket)).conns[c].phase.Refused?
  {
    ReachableInv(s);
    assert ConnOk(s, c);
  }

  /** A ticket that has been spent, or that an import cleared, never redeems again. */
  lemma {:induction false} DeadTicketStaysDead(s: State, ls: seq<Label>, t: nat)
    requires ValidRun(s, ls) && t in s.ticketsIssued && t !in s.tickets
    ensures t in After(s, ls).ticketsIssued && t !in After(s, ls).tickets
    decreases |ls|
  {
    if ls != [] {
      TicketStep(s, ls[0], t);
      DeadTicketStaysDead(Apply(s, ls[0]), ls[1..], t);
    }
  }

  lemma TicketStep(s: State, l: Label, t: nat)
    requires Enabled(s, l) && t in s.ticketsIssued && t !in s.tickets
    ensures t in Apply(s, l).ticketsIssued && t !in Apply(s, l).tickets
  {
  }

  lemma ImportKillsTickets(s: State, l: Label, ls: seq<Label>, t: nat)
    requires Enabled(s, l) && l.Import? && t in s.ticketsIssued && ValidRun(Apply(s, l), ls)
    ensures t !in After(Apply(s, l), ls).tickets
  {
    DeadTicketStaysDead(Apply(s, l), ls, t);
  }

  // ---- what an edit reaches, exactly --------------------------------------------------------------------

  /** What an edit has still to signal is from its read, and not wanted. */
  ghost predicate TodoRead(op: Op) {
    op.kind.SetServers? && op.phase.Deleted? ==> op.todo <= op.before - op.kind.wanted
  }

  ghost predicate AllTodoRead(s: State) { forall o | 0 <= o < |s.ops| :: TodoRead(s.ops[o]) }

  lemma TodoStep(s: State, l: Label)
    requires Enabled(s, l) && AllTodoRead(s)
    ensures AllTodoRead(Apply(s, l))
  {
    if IsConnStep(l) { ConnFrame(s, l); }
  }

  lemma {:induction false} TodoRun(s: State, ls: seq<Label>)
    requires ValidRun(s, ls) && AllTodoRead(s)
    ensures AllTodoRead(After(s, ls))
    decreases |ls|
  {
    if ls != [] {
      TodoStep(s, ls[0]);
      TodoRun(Apply(s, ls[0]), ls[1..]);
    }
  }

  lemma ReachableTodo(s: State)
    requires Reachable(s)
    ensures AllTodoRead(s)
  {
    var s0, ls :| Init(s0) && ValidRun(s0, ls) && s == After(s0, ls);
    TodoRun(s0, ls);
  }

  /** The other half: a step of an edit signals an admitted connection only if it is the user's, to a server the
      edit had read and does not want. So a connection under an assignment made after the read is not this edit's
      to end. */
  lemma EditSignalsOnlyWhatItRead(s: State, o: nat, pick: nat, c: nat)
    requires Reachable(s) && Enabled(s, Step(o, pick)) && s.ops[o].kind.SetServers?
    requires c < |s.conns| && s.conns[c].phase.Admitted?
    requires !Signalled(s, c) && Signalled(Apply(s, Step(o, pick)), c)
    ensures s.conns[c].user == s.ops[o].kind.user
    ensures s.conns[c].server in s.ops[o].before && s.conns[c].server !in s.ops[o].kind.wanted
  {
    ReachableInv(s);
    ReachableTodo(s);
    assert ConnOk(s, c) && TodoRead(s.ops[o]);
  }

  /** Steps of one operation alone. */
  predicate OnlyStepsOf(ls: seq<Label>, o: nat) { forall i | 0 <= i < |ls| :: ls[i].Step? && ls[i].o == o }

  /** Its own steps touch no connection's record and keep what an edit read. */
  lemma OwnStep(s: State, o: nat, pick: nat)
    requires Enabled(s, Step(o, pick)) && s.ops[o].kind.SetServers? && !s.ops[o].phase.Begun?
    ensures var s' := Apply(s, Step(o, pick));
            && s'.conns == s.conns && o < |s'.ops| && s'.ops[o].kind == s.ops[o].kind
            && s'.ops[o].before == s.ops[o].before && !s'.ops[o].phase.Begun?
  {
  }

  lemma {:induction false} NeverSignals(s: State, ls: seq<Label>, o: nat, c: nat)
    requires Reachable(s) && ValidRun(s, ls) && OnlyStepsOf(ls, o)
    requires o < |s.ops| && s.ops[o].kind.SetServers? && !s.ops[o].phase.Begun?
    requires c < |s.conns| && s.conns[c].phase.Admitted? && s.conns[c].server !in s.ops[o].before
    requires !Signalled(s, c)
    ensures !Signalled(After(s, ls), c)
    decreases |ls|
  {
    if ls != [] {
      var s' := Apply(s, ls[0]);
      OwnStep(s, o, ls[0].pick);
      if Signalled(s', c) { EditSignalsOnlyWhatItRead(s, o, ls[0].pick, c); }
      ReachableNext(s, ls[0]);
      NeverSignals(s', ls[1..], o, c);
    }
  }

  lemma {:induction false} OwnRun(s: State, ls: seq<Label>, o: nat)
    requires ValidRun(s, ls) && OnlyStepsOf(ls, o)
    requires o < |s.ops| && s.ops[o].kind.SetServers? && !s.ops[o].phase.Begun?
    ensures var s' := After(s, ls);
            && s'.conns == s.conns && o < |s'.ops| && s'.ops[o].kind == s.ops[o].kind
            && s'.ops[o].before == s.ops[o].before
    decreases |ls|
  {
    if ls != [] {
      OwnStep(s, o, ls[0].pick);
      OwnRun(Apply(s, ls[0]), ls[1..], o);
    }
  }

  /** Exactly: take an edit that has read and is about to write, and an admitted connection, not signalled yet,
      under an assignment the edit does not want. Left to finish by itself, the edit signals the connection if and
      only if the assignment was in its read. */
  lemma EditReachesExactlyItsRead(s: State, ls: seq<Label>, o: nat, c: nat)
    requires Reachable(s) && ValidRun(s, ls) && OnlyStepsOf(ls, o) && o < |s.ops|
    requires s.ops[o].kind.SetServers? && s.ops[o].phase.BeforeRead?
    requires o < |After(s, ls).ops| && After(s, ls).ops[o].phase.Done?
    requires c < |s.conns| && s.conns[c].phase.Admitted? && !Signalled(s, c)
    requires var k, user := s.conns[c], s.ops[o].kind.user;
             && k.generation == s.generation && k.user == user && k.server !in s.ops[o].kind.wanted
             && (user, k.server) in s.store.grants && s.store.grants[(user, k.server)] == k.grant
    ensures Signalled(After(s, ls), c) <==> s.conns[c].server in s.ops[o].before
  {
    OwnRun(s, ls, o);
    ReachableAfter(s, ls);
    if s.conns[c].server in s.ops[o].before {
      TransactionTakes(s, ls, o, c);
      RemovalReachesAdmitted(After(s, ls), o, c);
    } else {
      NeverSignals(s, ls, o, c);
    }
  }

  /** The first step is the transaction, and it takes the assignment away. */
  lemma TransactionTakes(s: State, ls: seq<Label>, o: nat, c: nat)
    requires Reachable(s) && ValidRun(s, ls) && OnlyStepsOf(ls, o) && o < |s.ops|
    requires s.ops[o].kind.SetServers? && s.ops[o].phase.BeforeRead?
    requires o < |After(s, ls).ops| && After(s, ls).ops[o].phase.Done?
    requires c < |s.conns|
    requires var k, user := s.conns[c], s.ops[o].kind.user;
             && k.server !in s.ops[o].kind.wanted
             && (user, k.server) in s.store.grants && s.store.grants[(user, k.server)] == k.grant
    ensures var op := After(s, ls).ops[o];
            && op.generation == s.generation && s.conns[c].server in op.lost
            && op.lost[s.conns[c].server] == s.conns[c].grant
  {
    ReachableInv(s);
    assert OpOk(s, o);
    assert ls != [];
    var taken := Apply(s, ls[0]);
    ServersOfIs(s.store, s.ops[o].kind.user);
    if taken.ops[o].phase.Failed? {
      FailedStops(taken, ls[1..], o);
    } else {
      SettledRun(taken, ls[1..], o);
    }
  }

  lemma FailedStops(s: State, ls: seq<Label>, o: nat)
    requires ValidRun(s, ls) && OnlyStepsOf(ls, o) && o < |s.ops| && s.ops[o].phase.Failed?
    ensures ls == []
  {
  }

  /** A step that can give a user a server: a copy to the user, or the transaction of an edit of the user. */
  predicate Grants(s: State, l: Label, user: nat) {
    match l
    case Copy(_, to) => to == user
    case Step(o, _) =>
      o < |s.ops| && s.ops[o].kind.SetServers? && s.ops[o].kind.user == user && s.ops[o].phase.BeforeRead?
    case _ => false
  }

  ghost predicate NothingGrants(s: State, ls: seq<Label>, user: nat)
    requires ValidRun(s, ls)
    decreases |ls|
  {
    ls != [] ==> !Grants(s, ls[0], user) && NothingGrants(Apply(s, ls[0]), ls[1..], user)
  }

  /** Edit `o` of `user` has read, and has read every server the user has. */
  ghost predicate ReadAll(s: State, o: nat, user: nat) {
    && o < |s.ops| && s.ops[o].kind.SetServers? && s.ops[o].kind.user == user && s.ops[o].phase.BeforeRead?
    && forall x | (user, x) in s.store.grants :: x in s.ops[o].before
  }

  lemma QuietStep(s: State, l: Label, o: nat, user: nat)
    requires Enabled(s, l) && ReadAll(s, o, user) && !Grants(s, l, user)
    ensures var s' := Apply(s, l); ReadAll(s', o, user) && s'.ops[o] == s.ops[o]
  {
    if IsConnStep(l) {
      ConnFrame(s, l);
    } else if l.Step? {
      QuietRemoval(s, l.o, l.pick, o, user);
    }
  }

  lemma QuietRemoval(s: State, o': nat, pick: nat, o: nat, user: nat)
    requires Enabled(s, Step(o', pick)) && ReadAll(s, o, user) && !Grants(s, Step(o', pick), user)
    ensures var s' := Apply(s, Step(o', pick)); ReadAll(s', o, user) && s'.ops[o] == s.ops[o]
  {
    if !s.ops[o'].phase.Deleted? && s.ops[o'].kind.SetServers? {
      ReassignedIs(s.store, s.ops[o'].kind.user, s.ops[o'].kind.wanted, s.edits);
    }
  }

  lemma {:induction false} QuietRun(s: State, ls: seq<Label>, o: nat, user: nat)
    requires ValidRun(s, ls) && ReadAll(s, o, user) && NothingGrants(s, ls, user)
    ensures var s' := After(s, ls); ReadAll(s', o, user) && s'.ops[o] == s.ops[o]
    decreases |ls|
  {
    if ls != [] {
      QuietStep(s, ls[0], o, user);
      QuietRun(Apply(s, ls[0]), ls[1..], o, user);
    }
  }

  /** What an edit read and took away does not change afterwards. */
  ghost predicate Settled(op: Op, op': Op) {
    && (op.phase.Deleted? || op.phase.Done?) && (op'.phase.Deleted? || op'.phase.Done?)
    && op'.kind == op.kind && op'.before == op.before && op'.lost == op.lost && op'.generation == op.generation
  }

  lemma SettledStep(s: State, l: Label, o: nat)
    requires Enabled(s, l) && o < |s.ops| && (s.ops[o].phase.Deleted? || s.ops[o].phase.Done?)
    ensures var s' := Apply(s, l); o < |s'.ops| && Settled(s.ops[o], s'.ops[o])
  {
    if IsConnStep(l) { ConnFrame(s, l); }
  }

  lemma {:induction false} SettledRun(s: State, ls: seq<Label>, o: nat)
    requires ValidRun(s, ls) && o < |s.ops| && (s.ops[o].phase.Deleted? || s.ops[o].phase.Done?)
    ensures var s' := After(s, ls); o < |s'.ops| && Settled(s.ops[o], s'.ops[o])
    decreases |ls|
  {
    if ls != [] {
      SettledStep(s, ls[0], o);
      SettledRun(Apply(s, ls[0]), ls[1..], o);
    }
  }

  lemma {:induction false} ReachableAfter(s: State, ls: seq<Label>)
    requires Reachable(s) && ValidRun(s, ls)
    ensures Reachable(After(s, ls))
    decreases |ls|
  {
    if ls != [] {
      ReachableNext(s, ls[0]);
      ReachableAfter(Apply(s, ls[0]), ls[1..]);
    }
  }

  lemma ReachableNext(s: State, l: Label)
    requires Reachable(s) && Enabled(s, l)
    ensures Reachable(Apply(s, l))
  {
    var s0, ls :| Init(s0) && ValidRun(s0, ls) && s == After(s0, ls);
    Extend(s0, ls, l);
  }

  /** Edit `o` reads, and in a run up to its next step nothing grants its user a server. */
  ghost predicate Undisturbed(s: State, o: nat, p: nat, ls: seq<Label>, q: nat) {
    && Enabled(s, Step(o, p)) && s.ops[o].kind.SetServers? && s.ops[o].phase.Begun?
    && var read := Apply(s, Step(o, p));
       && ValidRun(read, ls) && NothingGrants(read, ls, s.ops[o].kind.user)
       && Enabled(After(read, ls), Step(o, q))
  }

  /** That step is the transaction. */
  ghost function Written(s: State, o: nat, p: nat, ls: seq<Label>, q: nat): State
    requires Undisturbed(s, o, p, ls, q)
  {
    Apply(After(Apply(s, Step(o, p)), ls), Step(o, q))
  }

  /** Then the edit takes away only what it read. */
  lemma UndisturbedEditTookWhatItRead(s: State, o: nat, p: nat, ls: seq<Label>, q: nat)
    requires Undisturbed(s, o, p, ls, q)
    ensures var w := Written(s, o, p, ls, q);
            && o < |w.ops| && w.ops[o].kind == s.ops[o].kind
            && (w.ops[o].phase.Deleted? || w.ops[o].phase.Failed?)
            && (w.ops[o].phase.Deleted? ==> w.ops[o].lost.Keys <= w.ops[o].before)
  {
    var read, user := Apply(s, Step(o, p)), s.ops[o].kind.user;
    ServersOfIs(s.store, user);
    QuietRun(read, ls, o, user);
    ServersOfIs(After(read, ls).store, user);
  }

  /** `set_user_servers` keeps the whole promise when nothing grants its user a server between its read and its
      transaction: once it is done, in every later state every admitted connection under an assignment it took away
      has been signalled. */
  lemma UndisturbedEditReachesAll(s: State, o: nat, p: nat, ls: seq<Label>, q: nat, later: seq<Label>, c: nat)
    requires Reachable(s) && Undisturbed(s, o, p, ls, q) && ValidRun(Written(s, o, p, ls, q), later)
    ensures var end := After(Written(s, o, p, ls, q), later); UnderTaken(end, o, c) ==> Signalled(end, c)
  {
    var read, written := Apply(s, Step(o, p)), Written(s, o, p, ls, q);
    UndisturbedEditTookWhatItRead(s, o, p, ls, q);
    ReachableNext(s, Step(o, p));
    ReachableAfter(read, ls);
    ReachableNext(After(read, ls), Step(o, q));
    ReachableAfter(written, later);
    if UnderTaken(After(written, later), o, c) {
      if written.ops[o].phase.Failed? {
        FailedStays(written, later, o);
      } else {
        SettledRun(written, later, o);
        EditReachesWhatItRead(After(written, later), o, c);
      }
    }
  }

  lemma {:induction false} FailedStays(s: State, ls: seq<Label>, o: nat)
    requires ValidRun(s, ls) && o < |s.ops| && s.ops[o].phase.Failed?
    ensures o < |After(s, ls).ops| && After(s, ls).ops[o].phase.Failed?
    decreases |ls|
  {
    if ls != [] {
      if IsConnStep(ls[0]) { ConnFrame(s, ls[0]); }
      FailedStays(Apply(s, ls[0]), ls[1..], o);
    }
  }

  // ---- two racing edits -----------------------------------------------------------------------------

  lemma {:induction false} Extend(s: State, ls: seq<Label>, l: Label)
    requires ValidRun(s, ls) && Enabled(After(s, ls), l)
    ensures ValidRun(s, ls + [l]) && After(s, ls + [l]) == Apply(After(s, ls), l)
    decreases |ls|
  {
    if ls == [] {
      assert [l][1..] == [];
    } else {
      Extend(Apply(s, ls[0]), ls[1..], l);
      assert (ls + [l])[1..] == ls[1..] + [l];
    }
  }

  /** A set of states that every step stays inside. */
  ghost predicate Closed(P: State -> bool) {
    forall s, l {:trigger P(s), Enabled(s, l)} :: P(s) && Enabled(s, l) ==> P(Apply(s, l))
  }

  lemma ReachableClosed()
    ensures Closed(x => Reachable(x)) && Reachable(FRESH)
  {
    forall s, l | Reachable(s) && Enabled(s, l) ensures Reachable(Apply(s, l)) { ReachableNext(s, l); }
    assert ValidRun(FRESH, []) && After(FRESH, []) == FRESH;
  }

  const ALONE := Store({1}, {2}, map[7 := 1], map[])
  const ASSIGNED := ALONE.(grants := map[(1, 2) := 2])
  const FRESH := State(0, ALONE, map[], [], [], map[], {}, map[7 := 1], 2, 3, 0)
  const FIRST_EDIT := Op(SetServers(1, {}), 0, Begun, {}, {}, map[], {})
  const SECOND_EDIT := Op(SetServers(1, {2}), 0, Begun, {}, {}, map[], {})
  const CONNECTION := Conn(1, 7, 0, Upgrading, 0, 0, 0)
  const ENTRY := Entry(1, 7, None, false, 0, None, true)

  lemma Next(P: State -> bool, s: State, l: Label, s': State)
    requires Closed(P) && P(s) && Enabled(s, l) && Apply(s, l) == s'
    ensures P(s')
  {
  }

  /** One edit has read the user's empty list. */
  lemma FirstEditReads(P: State -> bool) returns (s: State)
    requires Closed(P) && P(FRESH)
    ensures s == FRESH.(ops := [FIRST_EDIT.(phase := BeforeRead)], edits := 1) && P(s)
  {
    ServersOfIs(ALONE, 1);
    assert ServersOf(ALONE, 1) == {};
    s := FRESH.(ops := [FIRST_EDIT]);
    Next(P, FRESH, Start(SetServers(1, {})), s);
    Next(P, s, Step(0, 0), FRESH.(ops := [FIRST_EDIT.(phase := BeforeRead)], edits := 1));
    s := FRESH.(ops := [FIRST_EDIT.(phase := BeforeRead)], edits := 1);
  }

  /** Another reads it too. */
  lemma SecondEditReads(P: State -> bool, s: State) returns (s': State)
    requires Closed(P) && P(s) && s.store == ALONE && s.generation == 0 && |s.ops| == 1
    ensures s' == s.(ops := s.ops + [SECOND_EDIT.(phase := BeforeRead)], edits := s.edits + 1) && P(s')
  {
    ServersOfIs(ALONE, 1);
    assert ServersOf(ALONE, 1) == {};
    var s1 := s.(ops := s.ops + [SECOND_EDIT]);
    Next(P, s, Start(SetServers(1, {2})), s1);
    s' := s.(ops := s.ops + [SECOND_EDIT.(phase := BeforeRead)], edits := s.edits + 1);
    Next(P, s1, Step(1, 0), s');
  }

  /** It assigns server 2 and completes, with no one to signal. */
  lemma SecondEditAssigns(P: State -> bool, s: State) returns (s': State)
    requires Closed(P) && P(s) && s.store == ALONE && s.edits == 2 && |s.ops| == 2
    requires s.ops[1] == SECOND_EDIT.(phase := BeforeRead)
    ensures s' == s.(store := ASSIGNED, ops := [s.ops[0], SECOND_EDIT.(phase := Done)], edits := 3) && P(s')
  {
    SecondTransaction();
    var s1 := s.(store := ASSIGNED, ops := [s.ops[0], SECOND_EDIT.(phase := Deleted)], edits := 3);
    Next(P, s, Step(1, 0), s1);
    s' := s1.(ops := [s.ops[0], SECOND_EDIT.(phase := Done)]);
    Next(P, s1, Step(1, 0), s');
  }

  lemma SecondGrants()
    ensures Reassigned(ALONE, 1, {2}, 2) == ASSIGNED.grants
  {
    ReassignedIs(ALONE, 1, {2}, 2);
    var g := Reassigned(ALONE, 1, {2}, 2);
    assert forall k | k in g :: k == (1, 2) by {
      forall k | k in g ensures k == (1, 2) { assert k == (k.0, k.1); }
    }
    assert (1, 2) in g;
  }

  lemma TransactionIs(st: Store, op: Op, edit: nat)
    requires Whole(st) && op.kind.SetServers? && op.phase.BeforeRead?
    requires op.kind.user in st.users && op.kind.wanted <= st.servers
    ensures var r := Removal(st, op, edit);
            && r.0 == st.(grants := Reassigned(st, op.kind.user, op.kind.wanted, edit))
            && r.1 == op.(phase := Deleted, todo := op.before - op.kind.wanted, lost := r.1.lost)
            && r.1.lost.Keys == ServersOf(st, op.kind.user) - op.kind.wanted
            && (forall x | x in r.1.lost ::
                  (op.kind.user, x) in st.grants && r.1.lost[x] == st.grants[(op.kind.user, x)])
  {
    ServersOfIs(st, op.kind.user);
  }

  lemma SecondTransaction()
    ensures Removal(ALONE, SECOND_EDIT.(phase := BeforeRead), 2) == (ASSIGNED, SECOND_EDIT.(phase := Deleted))
  {
    var r := Removal(ALONE, SECOND_EDIT.(phase := BeforeRead), 2);
    TransactionIs(ALONE, SECOND_EDIT.(phase := BeforeRead), 2);
    SecondGrants();
    NoServers();
    assert {} - {2} == {};
    NothingLost(r.1);
  }

  lemma NoServers()
    ensures ServersOf(ALONE, 1) == {}
  {
    ServersOfIs(ALONE, 1);
  }

  lemma NothingLost(op: Op)
    requires op == SECOND_EDIT.(phase := Deleted, todo := {}, lost := op.lost) && op.lost.Keys == {}
    ensures op == SECOND_EDIT.(phase := Deleted)
  {
    assert op.lost == map[];
  }

  /** A connection to server 2 gets its ticket and its entry in the registry. */
  lemma ConnectionRegistered(P: State -> bool, s: State) returns (s': State)
    requires Closed(P) && P(s) && s.conns == [] && s.live == map[] && s.tickets == map[]
    requires s.ticketsIssued == {} && s.store == ASSIGNED && s.generation == 0
    ensures s' == s.(conns := [CONNECTION.(phase := Registered)], live := map[0 := ENTRY], ticketsIssued := {5},
                     tickets := map[5 := (1, 2)]) && P(s')
  {
    var s1 := s.(tickets := map[5 := (1, 2)], ticketsIssued := {5});
    Next(P, s, Issue(5, 1, 2), s1);
    var s2 := s1.(conns := [CONNECTION]);
    Next(P, s1, Upgrade(7), s2);
    s' := s2.(conns := [CONNECTION.(phase := Registered)], live := map[0 := ENTRY]);
    Next(P, s2, Register(0), s');
  }

  /** It spends the ticket and is placed. */
  lemma ConnectionPlaced(P: State -> bool, s: State) returns (s': State)
    requires Closed(P) && P(s) && s.conns == [CONNECTION.(phase := Registered)] && s.live == map[0 := ENTRY]
    requires s.tickets == map[5 := (1, 2)] && s.generation == 0
    ensures s' == s.(conns := [CONNECTION.(phase := Placed, server := 2)], live := map[0 := ENTRY.(server := Some(2))],
                     tickets := map[]) && P(s')
  {
    var s1 := s.(conns := [CONNECTION.(phase := Redeemed, server := 2)], tickets := map[]);
    Next(P, s, Redeem(0, 5), s1);
    s' := s1.(conns := [CONNECTION.(phase := Placed, server := 2)], live := map[0 := ENTRY.(server := Some(2))]);
    Next(P, s1, Place(0), s');
  }

  /** Every check finds what it looks for. */
  lemma ConnectionAdmitted(P: State -> bool, s: State) returns (s': State)
    requires Closed(P) && P(s) && s.conns == [CONNECTION.(phase := Placed, server := 2)] && s.store == ASSIGNED
    ensures s' == s.(conns := [Conn(1, 7, 0, Admitted, 2, 2, 2)]) && P(s')
  {
    var k := CONNECTION.(phase := SignedIn, server := 2);
    var s1 := s.(conns := [k]);
    Next(P, s, CheckSession(0), s1);
    var s2 := s.(conns := [k.(phase := Found, target := 2)]);
    Next(P, s1, Find(0, 2), s2);
    var s3 := s.(conns := [k.(phase := Assigned, target := 2, grant := 2)]);
    Next(P, s2, CheckAssigned(0), s3);
    var s4 := s.(conns := [k.(phase := Rowed, target := 2, grant := 2)]);
    Next(P, s3, ReadRows(0), s4);
    s' := s.(conns := [k.(phase := Admitted, target := 2, grant := 2)]);
    Next(P, s4, Admit(0), s');
  }

  const LOST := FIRST_EDIT.(phase := Deleted, lost := map[2 := 2])

  lemma FirstGrants()
    ensures Reassigned(ASSIGNED, 1, {}, 3) == map[]
  {
    ReassignedIs(ASSIGNED, 1, {}, 3);
  }

  lemma OneServer()
    ensures ServersOf(ASSIGNED, 1) == {2}
  {
    ServersOfIs(ASSIGNED, 1);
    assert forall x | x in ServersOf(ASSIGNED, 1) :: x == 2;
  }

  lemma TookServerTwo(op: Op)
    requires op == FIRST_EDIT.(phase := Deleted, todo := {}, lost := op.lost)
    requires op.lost.Keys == {2} && op.lost[2] == 2
    ensures op == LOST
  {
    assert op.lost == map[2 := 2];
  }

  lemma FirstTransaction()
    ensures Removal(ASSIGNED, FIRST_EDIT.(phase := BeforeRead), 3) == (ALONE, LOST)
  {
    var r := Removal(ASSIGNED, FIRST_EDIT.(phase := BeforeRead), 3);
    TransactionIs(ASSIGNED, FIRST_EDIT.(phase := BeforeRead), 3);
    FirstGrants();
    OneServer();
    assert {2} - {} == {2} && FIRST_EDIT.before - {} == {};
    assert 2 in r.1.lost;
    TookServerTwo(r.1);
  }

  /** The first edit takes server 2 away and completes: it had not read it, so it signals no one. */
  lemma FirstEditCompletes(P: State -> bool, s: State) returns (s': State)
    requires Closed(P) && P(s) && s.store == ASSIGNED && s.edits == 3 && |s.ops| == 2
    requires s.ops[0] == FIRST_EDIT.(phase := BeforeRead)
    ensures s' == s.(store := ALONE, ops := [LOST.(phase := Done), s.ops[1]], edits := 4) && P(s')
  {
    FirstTransaction();
    var s1 := s.(store := ALONE, ops := [LOST, s.ops[1]], edits := 4);
    Next(P, s, Step(0, 0), s1);
    s' := s1.(ops := [LOST.(phase := Done), s.ops[1]]);
    Next(P, s1, Step(0, 0), s');
  }

  lemma RacingRun(P: State -> bool) returns (s: State)
    requires Closed(P) && P(FRESH)
    ensures P(s) && s.ops == [LOST.(phase := Done), SECOND_EDIT.(phase := Done)]
    ensures s.conns == [Conn(1, 7, 0, Admitted, 2, 2, 2)] && s.live == map[0 := ENTRY.(server := Some(2))]
  {
    s := FirstEditReads(P);
    s := SecondEditReads(P, s);
    s := SecondEditAssigns(P, s);
    s := ConnectionRegistered(P, s);
    s := ConnectionPlaced(P, s);
    s := ConnectionAdmitted(P, s);
    s := FirstEditCompletes(P, s);
  }

  /** Every assignment `set_user_servers` takes away would be too much to promise, because `before` is
      read outside the transaction: here an edit completes, having taken away an assignment another made
      after its read, and the connection admitted under it is not signalled. */
  lemma RacingEditsEscape() returns (s: State)
    ensures Reachable(s)
    ensures |s.ops| == 2 && s.ops[0].kind == SetServers(1, {}) && s.ops[0].phase.Done?
    ensures |s.conns| == 1 && s.conns[0].phase.Admitted? && s.conns[0].user == 1
    ensures s.conns[0].server in s.ops[0].lost && s.ops[0].lost[s.conns[0].server] == s.conns[0].grant
    ensures s.conns[0].server !in s.ops[0].before
    ensures !Signalled(s, 0)
  {
    ReachableClosed();
    s := RacingRun(x => Reachable(x));
  }
}
