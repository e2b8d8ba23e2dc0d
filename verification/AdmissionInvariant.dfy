/** What every interleaving of admissions and removals keeps. */
module AdmissionInvariant {
  import opened Common
  import opened Live
  import opened Admission

  ghost predicate StoreOk(s: State) {
    && Whole(s.store)
    && (forall u | u in s.store.users :: u < s.nextUser)
    && (forall x | x in s.store.servers :: x < s.nextServer)
    && (forall k | k in s.store.grants :: s.store.grants[k] < s.edits)
    && (forall t | t in s.store.sessions :: t in s.owners && s.owners[t] == s.store.sessions[t])
    && (forall c | c in s.live :: c < |s.conns|)
  }

  predicate HasServer(p: ConnPhase) {
    p.Placed? || p.SignedIn? || p.Found? || AfterAssigned(p)
  }

  predicate AfterSession(p: ConnPhase) { p.SignedIn? || p.Found? || AfterAssigned(p) }

  predicate AfterAssigned(p: ConnPhase) { p.Assigned? || p.Rowed? || p.Admitted? }

  /** A connection is in the registry, as itself, from before its first check until it closes. */
  ghost predicate ConnOk(s: State, c: nat)
    requires c < |s.conns|
  {
    var k := s.conns[c];
    && k.generation <= s.generation
    && (!k.phase.Upgrading? && !k.phase.Closed? ==>
          c in s.live && s.live[c].user == k.user && s.live[c].token == k.token)
    && (HasServer(k.phase) ==> s.live[c].server == Some(k.server))
    && (AfterAssigned(k.phase) ==> k.target == k.server && k.grant < s.edits)
    && (k.generation == s.generation ==> k.token in s.owners && s.owners[k.token] == k.user)
    && (InAdmission(k.phase) || k.phase.Upgrading? ==> k.generation == s.generation)
    && (k.generation < s.generation && c in s.live ==> !s.live[c].armed)
  }

  /** What a removal took away stays away. */
  ghost predicate Removed(s: State, op: Op) {
    match op.kind
    case SignOut(t) => op.tokens == {t} && t !in s.store.sessions && t in s.owners
    case DropSessions(u) => TokensGone(s, op.tokens, u)
    case RemoveUser(u) => u !in s.store.users && u < s.nextUser && TokensGone(s, op.tokens, u)
    case RemoveServer(x) => x !in s.store.servers && x < s.nextServer
    case SetServers(u, wanted) =>
      forall g | g in op.lost ::
        g !in wanted && op.lost[g] < s.edits && ((u, g) in s.store.grants ==> s.store.grants[(u, g)] != op.lost[g])
  }

  ghost predicate TokensGone(s: State, tokens: set<nat>, user: nat) {
    forall t | t in tokens :: t !in s.store.sessions && t in s.owners && s.owners[t] == user
  }

  ghost predicate OpOk(s: State, o: nat)
    requires o < |s.ops|
  {
    var op := s.ops[o];
    && op.generation <= s.generation
    && (!op.phase.Done? && !op.phase.Failed? ==> op.generation == s.generation)
    && (op.kind.SignOut? && op.generation == s.generation ==> op.kind.token in s.owners)
    && (op.generation == s.generation && (op.phase.Deleted? || op.phase.Done?) ==> Removed(s, op))
    && (op.phase.Done? || !op.kind.SetServers? ==> op.todo == {})
  }

  /** Connection `k` passed its check on what `op` removed, and `op` has since signalled for it. */
  ghost predicate Struck(op: Op, k: Conn) {
    k.generation == op.generation &&
    match op.kind
    case SignOut(_) => op.phase.Done? && k.token in op.tokens && AfterSession(k.phase)
    case DropSessions(_) => op.phase.Done? && k.token in op.tokens && AfterSession(k.phase)
    case RemoveUser(u) => op.phase.Done? && k.user == u && AfterSession(k.phase)
    case RemoveServer(x) => op.phase.Done? && k.server == x && AfterAssigned(k.phase)
    case SetServers(u, wanted) =>
      && (op.phase.Deleted? || op.phase.Done?) && k.user == u && AfterAssigned(k.phase)
      && k.server in op.before && k.server !in wanted && k.server !in op.todo
      && k.server in op.lost && op.lost[k.server] == k.grant
  }

  ghost predicate Signalled(s: State, c: nat) { c in s.live ==> !s.live[c].armed }

  ghost predicate Conns(s: State) { forall c | 0 <= c < |s.conns| :: ConnOk(s, c) }
  ghost predicate Ops(s: State) { forall o | 0 <= o < |s.ops| :: OpOk(s, o) }

  ghost predicate Strikes(s: State) {
    forall o, c | 0 <= o < |s.ops| && 0 <= c < |s.conns| ::
      s.ops[o].generation == s.generation && Struck(s.ops[o], s.conns[c]) ==> Signalled(s, c)
  }

  ghost predicate Inv(s: State) { StoreOk(s) && Conns(s) && Ops(s) && Strikes(s) }

  // ---- connections ------------------------------------------------------------------------------

  predicate IsConnStep(l: Label) {
    l.Register? || l.Redeem? || l.Place? || l.CheckSession? || l.Find? || l.CheckAssigned? || l.ReadRows?
    || l.Admit? || l.Refuse? || l.Close?
  }

  /** One connection's step leaves the store, the operations and every other connection alone. */
  lemma ConnFrame(s: State, l: Label)
    requires Enabled(s, l) && IsConnStep(l)
    ensures var s' := ConnStep(s, l);
            && s' == s.(conns := s.conns[l.c := s'.conns[l.c]], live := s'.live, tickets := s'.tickets)
            && (forall c | c != l.c :: (c in s'.live <==> c in s.live) && (c in s.live ==> s'.live[c] == s.live[c]))
  {
  }

  lemma ConnSelf(s: State, l: Label)
    requires StoreOk(s) && Enabled(s, l) && IsConnStep(l) && ConnOk(s, l.c)
    ensures |ConnStep(s, l).conns| == |s.conns| && ConnOk(ConnStep(s, l), l.c)
  {
    if l.Register? || l.Place? || l.Redeem? || l.Close? {
      ConnMoves(s, l);
    } else if l.CheckSession? || l.Find? {
      ConnChecks(s, l);
    } else {
      ConnSettles(s, l);
    }
  }

  lemma ConnMoves(s: State, l: Label)
    requires StoreOk(s) && Enabled(s, l) && ConnOkAt(s, l)
    requires l.Register? || l.Place? || l.Redeem? || l.Close?
    ensures |ConnStep(s, l).conns| == |s.conns| && ConnOk(ConnStep(s, l), l.c)
  {
  }

  lemma ConnChecks(s: State, l: Label)
    requires StoreOk(s) && Enabled(s, l) && ConnOkAt(s, l)
    requires l.CheckSession? || l.Find?
    ensures |ConnStep(s, l).conns| == |s.conns| && ConnOk(ConnStep(s, l), l.c)
  {
  }

  lemma ConnSettles(s: State, l: Label)
    requires StoreOk(s) && Enabled(s, l) && ConnOkAt(s, l)
    requires l.CheckAssigned? || l.ReadRows? || l.Admit? || l.Refuse?
    ensures |ConnStep(s, l).conns| == |s.conns| && ConnOk(ConnStep(s, l), l.c)
  {
  }

  ghost predicate ConnOkAt(s: State, l: Label) { IsConnStep(l) && l.c < |s.conns| && ConnOk(s, l.c) }

  lemma ConnConns(s: State, l: Label)
    requires StoreOk(s) && Conns(s) && Enabled(s, l) && IsConnStep(l)
    ensures StoreOk(ConnStep(s, l)) && Conns(ConnStep(s, l)) && |ConnStep(s, l).conns| == |s.conns|
  {
    ConnFrame(s, l);
    var s' := ConnStep(s, l);
    ConnSelf(s, l);
    forall c | 0 <= c < |s.conns| && c != l.c ensures ConnOk(s', c) {
      assert ConnOk(s, c);
    }
  }

  /** The check that matters fails once the removal's store call is made: a connection struck by a
      completed removal was struck before this step. */
  lemma NewlyStruck(s: State, l: Label, o: nat)
    requires StoreOk(s) && Enabled(s, l) && IsConnStep(l) && ConnOk(s, l.c)
    requires o < |s.ops| && OpOk(s, o) && s.ops[o].generation == s.generation
    requires |ConnStep(s, l).conns| == |s.conns| && Struck(s.ops[o], ConnStep(s, l).conns[l.c])
    ensures Struck(s.ops[o], s.conns[l.c])
  {
    if l.CheckSession? {
      SessionNotStruck(s, l.c, o);
    } else if l.CheckAssigned? {
      AssignedStruck(s, l.c, o);
    } else {
      OtherStruck(s, l, o);
    }
  }

  lemma SessionNotStruck(s: State, c: nat, o: nat)
    requires StoreOk(s) && Enabled(s, CheckSession(c)) && ConnOk(s, c)
    requires o < |s.ops| && OpOk(s, o) && s.ops[o].generation == s.generation
    ensures !Struck(s.ops[o], ConnStep(s, CheckSession(c)).conns[c])
  {
  }

  lemma AssignedStruck(s: State, c: nat, o: nat)
    requires StoreOk(s) && Enabled(s, CheckAssigned(c)) && ConnOk(s, c)
    requires o < |s.ops| && OpOk(s, o) && s.ops[o].generation == s.generation
    requires Struck(s.ops[o], ConnStep(s, CheckAssigned(c)).conns[c])
    ensures Struck(s.ops[o], s.conns[c])
  {
  }

  lemma OtherStruck(s: State, l: Label, o: nat)
    requires Enabled(s, l) && IsConnStep(l) && !l.CheckSession? && !l.CheckAssigned? && o < |s.ops|
    requires |ConnStep(s, l).conns| == |s.conns| && Struck(s.ops[o], ConnStep(s, l).conns[l.c])
    ensures Struck(s.ops[o], s.conns[l.c])
  {
  }

  lemma ConnStaysSignalled(s: State, l: Label)
    requires Enabled(s, l) && IsConnStep(l) && ConnOk(s, l.c) && Signalled(s, l.c)
    requires AfterSession(s.conns[l.c].phase)
    ensures Signalled(ConnStep(s, l), l.c)
  {
  }

  lemma ConnKeeps(s: State, l: Label)
    requires Inv(s) && Enabled(s, l) && IsConnStep(l)
    ensures Inv(ConnStep(s, l))
  {
    ConnConns(s, l);
    ConnOps(s, l);
    ConnStrikes(s, l);
  }

  lemma ConnOps(s: State, l: Label)
    requires Ops(s) && Enabled(s, l) && IsConnStep(l)
    ensures Ops(ConnStep(s, l))
  {
    ConnFrame(s, l);
    var s' := ConnStep(s, l);
    forall o | 0 <= o < |s.ops| ensures OpOk(s', o) { assert OpOk(s, o); }
  }

  lemma ConnStrikes(s: State, l: Label)
    requires Inv(s) && Enabled(s, l) && IsConnStep(l) && |ConnStep(s, l).conns| == |s.conns|
    ensures Strikes(ConnStep(s, l))
  {
    ConnFrame(s, l);
    var s' := ConnStep(s, l);
    assert ConnOk(s, l.c);
    forall o | 0 <= o < |s.ops| && s.ops[o].generation == s.generation && Struck(s.ops[o], s'.conns[l.c])
      ensures Signalled(s', l.c)
    {
      assert OpOk(s, o);
      NewlyStruck(s, l, o);
      ConnStaysSignalled(s, l);
    }
  }

  // ---- everything else --------------------------------------------------------------------------

  /** A change that revives nothing: what was removed stays removed. */
  ghost predicate Grows(s: State, s': State) {
    && s'.generation == s.generation && s.nextUser <= s'.nextUser && s.nextServer <= s'.nextServer
    && s.edits <= s'.edits && (forall t | t in s.owners :: t in s'.owners && s'.owners[t] == s.owners[t])
    && (forall t | t in s'.store.sessions :: t in s.store.sessions || t !in s.owners)
    && (forall u | u in s'.store.users :: u in s.store.users || s.nextUser <= u)
    && (forall x | x in s'.store.servers :: x in s.store.servers || s.nextServer <= x)
    && (forall k | k in s'.store.grants ::
          (k in s.store.grants && s.store.grants[k] == s'.store.grants[k]) || s.edits <= s'.store.grants[k])
  }

  lemma RemovedStays(s: State, s': State, op: Op)
    requires Grows(s, s') && Removed(s, op)
    ensures Removed(s', op)
  {
    match op.kind
    case SetServers(u, _) =>
      forall g | g in op.lost && (u, g) in s'.store.grants ensures s'.store.grants[(u, g)] != op.lost[g] {
        assert (u, g) in s.store.grants ==> s.store.grants[(u, g)] != op.lost[g];
      }
    case _ =>
  }

  /** A step of the store alone. */
  lemma StoreKeeps(s: State, s': State)
    requires Inv(s) && Grows(s, s') && StoreOk(s')
    requires s'.conns == s.conns && s'.ops == s.ops && s'.live == s.live
    ensures Inv(s')
  {
    forall c | 0 <= c < |s.conns| ensures ConnOk(s', c) { assert ConnOk(s, c); }
    forall o | 0 <= o < |s.ops| ensures OpOk(s', o) {
      assert OpOk(s, o);
      if Removed(s, s.ops[o]) { RemovedStays(s, s', s.ops[o]); }
    }
  }

  predicate IsStoreStep(l: Label) {
    l.AddUser? || l.AddServer? || l.SignIn? || l.Purge? || l.Copy? || l.Issue?
  }

  lemma StoreStepKeeps(s: State, l: Label)
    requires Inv(s) && Enabled(s, l) && IsStoreStep(l)
    ensures Inv(Apply(s, l))
  {
    StoreStepGrows(s, l);
    StoreKeeps(s, Apply(s, l));
  }

  lemma StoreStepGrows(s: State, l: Label)
    requires StoreOk(s) && Enabled(s, l) && IsStoreStep(l)
    ensures var s' := Apply(s, l);
            Grows(s, s') && StoreOk(s') && s'.conns == s.conns && s'.ops == s.ops && s'.live == s.live
  {
    if l.Copy? { CopyGrows(s, l.from, l.to); }
  }

  lemma CopyGrows(s: State, from: nat, to: nat)
    requires StoreOk(s) && to in s.store.users
    ensures var s' := Apply(s, Copy(from, to)); Grows(s, s') && StoreOk(s')
  {
    ServersOfIs(s.store, from);
  }

  lemma AppendKeeps(s: State, l: Label)
    requires Inv(s) && Enabled(s, l) && (l.Upgrade? || l.Start?)
    ensures Inv(Apply(s, l))
  {
    var s' := Apply(s, l);
    forall c | 0 <= c < |s'.conns| ensures ConnOk(s', c) {
      if c < |s.conns| { assert ConnOk(s, c); }
    }
    forall o | 0 <= o < |s'.ops| ensures OpOk(s', o) {
      if o < |s.ops| { assert OpOk(s, o); }
    }
    forall o, c | 0 <= o < |s'.ops| && 0 <= c < |s'.conns| && s'.ops[o].generation == s'.generation
                  && Struck(s'.ops[o], s'.conns[c])
      ensures Signalled(s', c)
    {
      assert o < |s.ops| && c < |s.conns|;
    }
  }

  lemma ServersOfIs(st: Store, user: nat)
    ensures forall x :: x in ServersOf(st, user) <==> (user, x) in st.grants
  {
    forall x | (user, x) in st.grants ensures x in ServersOf(st, user) {
      assert (user, x).1 in ServersOf(st, user);
    }
  }

  lemma ReassignedIs(st: Store, user: nat, wanted: set<nat>, edit: nat)
    ensures var g := Reassigned(st, user, wanted, edit);
            && (forall k :: k in g <==> if k.0 == user then k.1 in wanted else k in st.grants)
            && (forall k | k in g :: g[k] == if k in st.grants then st.grants[k] else edit)
  {
    var g := Reassigned(st, user, wanted, edit);
    forall k: (nat, nat) ensures k in g <==> if k.0 == user then k.1 in wanted else k in st.grants {
      assert k == (k.0, k.1);
    }
  }

  /** The store call of a removal revives nothing, and takes its own target away. */
  lemma RemovalGrows(s: State, o: nat)
    requires StoreOk(s) && o < |s.ops| && (s.ops[o].phase.Begun? || s.ops[o].phase.BeforeRead?)
    ensures Grows(s, Remove(s, o)) && StoreOk(Remove(s, o))
  {
    var st := Removal(s.store, s.ops[o], s.edits).0;
    if s.ops[o].kind.SetServers? {
      ReassignedIs(s.store, s.ops[o].kind.user, s.ops[o].kind.wanted, s.edits);
    } else {
      if s.ops[o].kind.RemoveUser? { UserDeleted(s.store, s.ops[o].kind.user); }
      if s.ops[o].kind.RemoveServer? { ServerDeleted(s.store, s.ops[o].kind.server); }
      assert Within(st, s.store) && Whole(st);
    }
  }

  lemma RemovalRemoves(s: State, o: nat)
    requires StoreOk(s) && o < |s.ops| && OpOk(s, o) && (s.ops[o].phase.Begun? || s.ops[o].phase.BeforeRead?)
    ensures var r := Removal(s.store, s.ops[o], s.edits);
            r.1.phase.Deleted? ==> Removed(Remove(s, o), r.1)
  {
    var r := Removal(s.store, s.ops[o], s.edits);
    if s.ops[o].kind.SetServers? {
      var u := s.ops[o].kind.user;
      ServersOfIs(s.store, u);
      ReassignedIs(s.store, u, s.ops[o].kind.wanted, s.edits);
    } else if s.ops[o].kind.RemoveUser? {
      var u := s.ops[o].kind.user;
      assert forall t | t in SessionsOf(s.store, u) :: t !in r.0.sessions by {
        assert forall t | t in r.0.sessions && t in SessionsOf(s.store, u) :: t in SessionsOf(r.0, u);
      }
    }
  }

  lemma NotYetStruck(st: Store, op: Op, edit: nat, k: Conn)
    requires Whole(st) && (op.phase.Begun? || op.phase.BeforeRead?)
    ensures !Struck(Removal(st, op, edit).1, k)
  {
  }

  lemma RemoveKeeps(s: State, o: nat)
    requires Inv(s) && o < |s.ops| && (s.ops[o].phase.Begun? || s.ops[o].phase.BeforeRead?)
    ensures Inv(Remove(s, o))
  {
    var s' := Remove(s, o);
    assert OpOk(s, o);
    RemovalGrows(s, o);
    RemovalRemoves(s, o);
    forall c | 0 <= c < |s.conns| ensures ConnOk(s', c) { assert ConnOk(s, c); }
    forall p | 0 <= p < |s.ops| ensures OpOk(s', p) {
      assert OpOk(s, p);
      if p != o && Removed(s, s.ops[p]) { RemovedStays(s, s', s.ops[p]); }
    }
    forall c | 0 <= c < |s.conns| ensures !Struck(s'.ops[o], s.conns[c]) {
      NotYetStruck(s.store, s.ops[o], s.edits, s.conns[c]);
    }
  }

  /** The registry call reaches every connection that got past the check before the store call. */
  lemma SignalReaches(s: State, o: nat, pick: nat, c: nat)
    requires Inv(s) && Enabled(s, Step(o, pick)) && s.ops[o].phase.Deleted? && c < |s.conns|
    requires |Signal(s, o, pick).ops| == |s.ops| && Struck(Signal(s, o, pick).ops[o], s.conns[c])
    ensures Signalled(Signal(s, o, pick), c)
  {
    assert ConnOk(s, c) && OpOk(s, o);
  }

  lemma EndedConns(s: State, s': State, w: Which)
    requires Conns(s) && s'.live == Ended(s.live, w) && s' == s.(live := s'.live, ops := s'.ops)
    ensures Conns(s') && forall c | Signalled(s, c) :: Signalled(s', c)
  {
    forall c | 0 <= c < |s.conns| ensures ConnOk(s', c) { assert ConnOk(s, c); }
  }

  lemma SignalOps(s: State, o: nat, pick: nat)
    requires StoreOk(s) && Ops(s) && o < |s.ops| && s.ops[o].phase.Deleted?
    ensures StoreOk(Signal(s, o, pick)) && Ops(Signal(s, o, pick))
  {
    var s' := Signal(s, o, pick);
    assert Grows(s, s');
    forall p | 0 <= p < |s.ops| ensures OpOk(s', p) {
      assert OpOk(s, p);
      if p != o && Removed(s, s.ops[p]) { RemovedStays(s, s', s.ops[p]); }
      if p == o {
        assert Removed(s, s'.ops[o]);
        RemovedStays(s, s', s'.ops[o]);
      }
    }
  }

  lemma SignalKeeps(s: State, o: nat, pick: nat)
    requires Inv(s) && Enabled(s, Step(o, pick)) && s.ops[o].phase.Deleted?
    ensures Inv(Signal(s, o, pick))
  {
    var s' := Signal(s, o, pick);
    SignalOps(s, o, pick);
    if s'.live != s.live {
      EndedConns(s, s', Target(s.ops[o], pick));
    } else {
      forall c | 0 <= c < |s.conns| ensures ConnOk(s', c) { assert ConnOk(s, c); }
    }
    forall p, c | 0 <= p < |s.ops| && 0 <= c < |s.conns| && s'.ops[p].generation == s'.generation
                  && Struck(s'.ops[p], s'.conns[c])
      ensures Signalled(s', c)
    {
      if p == o { SignalReaches(s, o, pick, c); } else { assert Signalled(s, c); }
    }
  }

  lemma ImportKeeps(s: State, l: Label)
    requires Inv(s) && Enabled(s, l) && l.Import?
    ensures Inv(Apply(s, l))
  {
    var s' := Apply(s, l);
    forall c | 0 <= c < |s.conns| ensures ConnOk(s', c) { assert ConnOk(s, c); }
    forall o | 0 <= o < |s.ops| ensures OpOk(s', o) { assert OpOk(s, o); }
  }

  lemma StepKeeps(s: State, l: Label)
    requires Inv(s) && Enabled(s, l)
    ensures Inv(Apply(s, l))
  {
    if IsConnStep(l) {
      ConnKeeps(s, l);
    } else if IsStoreStep(l) {
      StoreStepKeeps(s, l);
    } else if l.Upgrade? || l.Start? {
      AppendKeeps(s, l);
    } else if l.Import? {
      ImportKeeps(s, l);
    } else if s.ops[l.o].phase.Deleted? {
      SignalKeeps(s, l.o, l.pick);
    } else {
      RemoveKeeps(s, l.o);
    }
  }

  lemma {:induction false} RunKeeps(s: State, ls: seq<Label>)
    requires Inv(s) && ValidRun(s, ls)
    ensures Inv(After(s, ls))
    decreases |ls|
  {
    if ls != [] {
      StepKeeps(s, ls[0]);
      RunKeeps(Apply(s, ls[0]), ls[1..]);
    }
  }
}
