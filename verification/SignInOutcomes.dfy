/** How sign-ins end: over any interleaving an attempt ends without a session exactly when a row it relies on was not,
    or was no longer, what it needs; and who gets in when nothing comes between. */
module SignInOutcomes {
  import opened Common
  import opened Accounts
  import opened SignIn

  // ---- one step -----------------------------------------------------------------------------------

  /** The row is still there as the attempt read it. */
  predicate StillThere(t: Tables, id: nat, row: User) { id in t.users && t.users[id].incarnation == row.incarnation }

  predicate BoundElsewhere(u: User, sid: string) { u.sid.Some? && u.sid.value != sid }

  /** The attempt's next store call ends it with nothing to show. */
  predicate GivesUp(w: World, a: nat)
    requires a < |w.attempts|
  {
    var p, t := w.attempts[a], w.t;
    match p.phase
    case Rename(id, row) =>
      !(&& StillThere(t, id, row) && t.users[id].sid == Some(p.account.sid) && t.users[id].hash.None?
        && forall other | other in t.users :: t.users[other].name != p.account.name)
    case Reread(id, row) => !StillThere(t, id, row)
    case Create => exists other | other in t.users :: t.users[other].name == p.account.name
    case Read(id, row) =>
      || (row.hash.Some? && !p.local) || (row.hash.None? && p.local) || BoundElsewhere(row, p.account.sid)
      || !StillThere(t, id, row) || BoundElsewhere(t.users[id], p.account.sid)
    case Bound(id, row, _) => !StillThere(t, id, row)
    case _ => false
  }

  /** A store call ends an attempt exactly when it gives up or its session is made. Otherwise the row it read takes the
      sign-in, or it goes on to the next call. */
  lemma ActOutcome(w: World, a: nat, found: nat, draw: int)
    requires a < |w.attempts| && Enabled(w, Act(a, found, draw))
    ensures var p, w' := w.attempts[a], ActStep(w, a, found, draw);
            && |w'.attempts| == |w.attempts| && w'.attempts[a].account == p.account
            && (w'.attempts[a].phase.Over? <==> GivesUp(w, a) || p.phase.Bound?)
            && (GivesUp(w, a) ==> w'.t == w.t && w'.log == w.log && w'.origins == w.origins)
            && (p.phase.Read? && !GivesUp(w, a) ==>
                  && w'.attempts[a].phase == Bound(p.phase.id, p.phase.row, Epoch(w, p.phase.id))
                  && w'.t.users == w.t.users[p.phase.id := w.t.users[p.phase.id].(sid := Some(p.account.sid))]
                  && w'.log == w.log + [Login(p.phase.id, p.phase.row.incarnation, p.account.sid,
                                              Epoch(w, p.phase.id), a)])
            && (p.phase.Bound? && !GivesUp(w, a) ==>
                  && draw >= 0 && w'.t.sessions == w.t.sessions[draw := p.phase.id] && w'.t.users == w.t.users)
  {
    var p := w.attempts[a];
    if p.phase.Rename? || p.phase.Create? {
      assert NameTaken(w.t, p.account.name) <==>
             exists other | other in w.t.users :: w.t.users[other].name == p.account.name;
    }
  }

  /** No other step touches the attempt. */
  lemma OthersLeaveAttempt(w: World, l: Label, a: nat)
    requires a < |w.attempts| && !(l.Act? && l.a == a)
    ensures a < |Apply(w, l).attempts| && Apply(w, l).attempts[a] == w.attempts[a]
  {
  }

  // ---- whole runs ---------------------------------------------------------------------------------

  /** Some step of the run ended the attempt with nothing to show. */
  ghost predicate GaveUp(w: World, ls: seq<Label>, a: nat)
    decreases |ls|
  {
    ls != [] && ((a < |w.attempts| && ls[0].Act? && ls[0].a == a && GivesUp(w, a))
                 || GaveUp(Apply(w, ls[0]), ls[1..], a))
  }

  /** Some step of the run made the attempt's session, on the row it had recorded. */
  ghost predicate GotSession(w: World, ls: seq<Label>, a: nat)
    decreases |ls|
  {
    ls != [] && (MakesSession(w, ls[0], a) || GotSession(Apply(w, ls[0]), ls[1..], a))
  }

  predicate MakesSession(w: World, l: Label, a: nat) {
    && a < |w.attempts| && l.Act? && l.a == a && w.attempts[a].phase.Bound? && l.draw >= 0
    && StillThere(w.t, w.attempts[a].phase.id, w.attempts[a].phase.row)
    && var w' := Apply(w, l); l.draw in w'.t.sessions && w'.t.sessions[l.draw] == w.attempts[a].phase.id
  }

  lemma {:induction false} OverIsOver(w: World, ls: seq<Label>, a: nat)
    requires ValidRun(w, ls) && a < |w.attempts| && w.attempts[a].phase.Over?
    ensures a < |After(w, ls).attempts| && After(w, ls).attempts[a].phase.Over?
    ensures !GaveUp(w, ls, a) && !GotSession(w, ls, a)
    decreases |ls|
  {
    if ls != [] {
      OthersLeaveAttempt(w, ls[0], a);
      OverIsOver(Apply(w, ls[0]), ls[1..], a);
    }
  }

  /** Over any run an attempt that is over got its session or gave up, never both, and one that did neither is on its
      way still. */
  lemma {:induction false} EndsExactlyIf(w: World, ls: seq<Label>, a: nat)
    requires ValidRun(w, ls) && a < |w.attempts| && !w.attempts[a].phase.Over?
    ensures a < |After(w, ls).attempts|
    ensures After(w, ls).attempts[a].phase.Over? <==> GotSession(w, ls, a) || GaveUp(w, ls, a)
    ensures !(GotSession(w, ls, a) && GaveUp(w, ls, a))
    decreases |ls|
  {
    if ls != [] {
      var l, w' := ls[0], Apply(w, ls[0]);
      if l.Act? && l.a == a {
        ActOutcome(w, a, l.found, l.draw);
        assert w'.attempts[a].phase.Over? <==> GivesUp(w, a) || MakesSession(w, l, a);
      } else {
        OthersLeaveAttempt(w, l, a);
      }
      if w'.attempts[a].phase.Over? { OverIsOver(w', ls[1..], a); } else { EndsExactlyIf(w', ls[1..], a); }
    }
  }

  lemma {:induction false} Lowest(ids: set<nat>) returns (low: nat)
    requires ids != {}
    ensures low in ids && forall id | id in ids :: low <= id
    decreases |ids|
  {
    var one :| one in ids;
    var rest := ids - {one};
    low := one;
    if rest != {} {
      var other := Lowest(rest);
      if other < one { low := other; }
    }
    forall id | id in ids ensures low <= id {
      if id != one { assert id in rest; }
    }
  }

  /** An attempt that is not over can always make its next store call. */
  lemma NeverStuck(w: World, a: nat) returns (found: nat, draw: int)
    requires a < |w.attempts| && !w.attempts[a].phase.Over?
    ensures Enabled(w, Act(a, found, draw))
  {
    var p := w.attempts[a];
    found := 0;
    draw := Above(w.origins.Keys);
    if p.phase.FindName? && NameTaken(w.t, p.account.name) {
      found :| found in w.t.users && w.t.users[found].name == p.account.name;
    }
    if p.phase.FindSid? && AnyBound(w.t, p.account.sid) {
      var bound := set id | id in w.t.users && w.t.users[id].sid == Some(p.account.sid) && w.t.users[id].hash.None?;
      var one :| one in w.t.users && w.t.users[one].sid == Some(p.account.sid) && w.t.users[one].hash.None?;
      assert one in bound;
      found := Lowest(bound);
      forall other | other in w.t.users && w.t.users[other].sid == Some(p.account.sid) && w.t.users[other].hash.None?
        ensures found <= other
      {
        assert other in bound;
      }
    }
  }

  lemma {:induction false} Above(ids: set<nat>) returns (top: nat)
    ensures forall id | id in ids :: id < top
    decreases |ids|
  {
    top := 0;
    if ids != {} {
      var one :| one in ids;
      var rest := ids - {one};
      top := Above(rest);
      if top <= one { top := one + 1; }
      forall id | id in ids ensures id < top {
        if id != one { assert id in rest; }
      }
    }
  }

  // ---- with nothing in between --------------------------------------------------------------------

  /** Signed in: the row is bound to the SID, the sign-in is recorded and the session is the row's. */
  predicate SignedIn(w: World, w': World, a: nat, id: nat, sid: string, token: int) {
    && id in w'.t.users && w'.t.users[id].sid == Some(sid)
    && |w'.log| == |w.log| + 1 && w'.log[..|w.log|] == w.log
    && w'.log[|w.log|].id == id && w'.log[|w.log|].sid == sid && w'.log[|w.log|].attempt == a
    && token >= 0 && token in w'.t.sessions && w'.t.sessions[token] == id
  }

  /** From the row it read, an attempt is signed in exactly when the row is of its kind and bound to nobody else. */
  lemma ReadRowSignsIn(w: World, a: nat, token: nat)
    requires a < |w.attempts| && w.attempts[a].phase.Read? && token !in w.origins
    requires var p := w.attempts[a].phase; p.id in w.t.users && w.t.users[p.id] == p.row
    ensures var p := w.attempts[a];
            var w2 := ActStep(ActStep(w, a, 0, 0), a, 0, token);
            if p.local == p.phase.row.hash.Some? && !BoundElsewhere(p.phase.row, p.account.sid)
            then SignedIn(w, w2, a, p.phase.id, p.account.sid, token)
            else w2.t == w.t && w2.log == w.log && w2.attempts[a].phase.Over?
  {
    var p, w1 := w.attempts[a], ActStep(w, a, 0, 0);
    ActOutcome(w, a, 0, 0);
    if !GivesUp(w, a) { ActOutcome(w1, a, 0, token); }
  }

  /** The directory's account of a name that is taken: the row of that name, if it is the directory's and free or its
      own. */
  lemma KnownAccount(w: World, a: nat, id: nat, token: nat)
    requires a < |w.attempts| && w.attempts[a].phase == FindName && !w.attempts[a].local && token !in w.origins
    requires id in w.t.users && w.t.users[id].name == w.attempts[a].account.name
    ensures var p, u := w.attempts[a], w.t.users[id];
            var w3 := ActStep(ActStep(ActStep(w, a, id, 0), a, 0, 0), a, 0, token);
            if u.hash.None? && !BoundElsewhere(u, p.account.sid) then SignedIn(w, w3, a, id, p.account.sid, token)
            else w3.t == w.t && w3.log == w.log
  {
    assert NameTaken(w.t, w.attempts[a].account.name);
    ReadRowSignsIn(ActStep(w, a, id, 0), a, token);
  }

  /** An account nobody knows: a new row of its name, bound to it. */
  lemma NewAccount(w: World, a: nat, draw: int, token: nat)
    requires a < |w.attempts| && w.attempts[a].phase == FindName && !w.attempts[a].local && token !in w.origins
    requires forall other | other in w.t.users ::
               && w.t.users[other].name != w.attempts[a].account.name
               && !(w.t.users[other].sid == Some(w.attempts[a].account.sid) && w.t.users[other].hash.None?)
    ensures var p, id := w.attempts[a], w.t.nextId;
            var made := ActStep(ActStep(ActStep(w, a, 0, 0), a, 0, 0), a, 0, draw);
            var w5 := ActStep(ActStep(made, a, 0, 0), a, 0, token);
            && SignedIn(w, w5, a, id, p.account.sid, token)
            && w5.t.users[id].name == p.account.name && w5.t.users[id].hash.None?
            && id in w5.t.assignments && w5.t.assignments[id] == {}
  {
    var p, id := w.attempts[a], w.t.nextId;
    var w1 := ActStep(w, a, 0, 0);
    assert w1 == Moved(w, a, FindSid);
    var w2 := ActStep(w1, a, 0, 0);
    assert w2 == Moved(w, a, Create);
    var made := ActStep(w2, a, 0, draw);
    assert made.attempts[a] == p.(phase := Read(id, User(p.account.name, None, None, draw)));
    assert made.t == Inserted(w.t, User(p.account.name, None, None, draw));
    ReadRowSignsIn(made, a, token);
    KeepsOthers(made, a, token, id);
  }

  lemma KeepsOthers(w: World, a: nat, token: nat, id: nat)
    requires a < |w.attempts| && w.attempts[a].phase.Read? && id in w.t.users
    ensures var w2 := ActStep(ActStep(w, a, 0, 0), a, 0, token);
            && w2.t.assignments == w.t.assignments && id in w2.t.users
            && w2.t.users[id].name == w.t.users[id].name && w2.t.users[id].hash == w.t.users[id].hash
  {
    LastStepsKeep(w, a, 0, id);
    LastStepsKeep(ActStep(w, a, 0, 0), a, token, id);
  }

  lemma LastStepsKeep(w: World, a: nat, draw: int, id: nat)
    requires a < |w.attempts| && id in w.t.users
    requires var p := w.attempts[a].phase; p.Read? || p.Bound? || p.Over?
    ensures var w' := ActStep(w, a, 0, draw);
            && a < |w'.attempts| && (w'.attempts[a].phase.Bound? || w'.attempts[a].phase.Over?)
            && w'.t.assignments == w.t.assignments && id in w'.t.users
            && w'.t.users[id].name == w.t.users[id].name && w'.t.users[id].hash == w.t.users[id].hash
  {
  }

  /** A local account whose password was checked gets in, under the SID it has or a new one of its own. */
  lemma LocalAccount(w: World, id: nat, synthetic: string, token: nat)
    requires Enabled(w, ArriveLocal(id, synthetic)) && token !in w.origins
    ensures var a, u := |w.attempts|, w.t.users[id];
            var came := Apply(w, ArriveLocal(id, synthetic));
            SignedIn(w, ActStep(ActStep(came, a, 0, 0), a, 0, token), a, id,
                     if u.sid.Some? then u.sid.value else synthetic, token)
  {
    ReadRowSignsIn(Apply(w, ArriveLocal(id, synthetic)), |w.attempts|, token);
  }

  // ---- administrators' steps ----------------------------------------------------------------------

  /** Each edit does what it is for. */
  lemma EditsTakeEffect(w: World, l: Label)
    requires IdsBelow(w) && !l.Act? && !l.Arrive? && !l.ArriveLocal?
    ensures var t, t' := w.t, Apply(w, l).t;
            match l
            case AddUser(name, draw) =>
              if NameTaken(t, name) then t' == t
              else t'.users == t.users[t.nextId := User(name, None, None, draw)] && t.nextId !in t.users
            case AddLocal(name, hash, sid, draw) =>
              if NameTaken(t, name) then t' == t
              else t'.users == t.users[t.nextId := User(name, Some(sid), Some(hash), draw)] && t.nextId !in t.users
            case SetPassword(id, hash) =>
              id in t.users && t.users[id].hash.Some? ==>
                id in t'.users && t'.users[id] == t.users[id].(hash := Some(hash))
            case Reset(id) =>
              id in t.users ==>
                && id in t'.users && t'.users[id] == t.users[id].(sid := None)
                && (forall c | c in t'.saved :: c.0 != id) && (forall s | s in t'.sessions :: t'.sessions[s] != id)
                && Epoch(Apply(w, l), id) == Epoch(w, id) + 1
            case Remove(id) => Forgotten(t', id)
            case Assign(id, servers) =>
              id in t.users ==>
                && id in t'.assignments && t'.assignments[id] == servers
                && (id in t.assignments ==>
                      forall x | x in t.assignments[id] && x !in servers :: (id, x) !in t'.saved)
            case Save(id, server) => id in t.users ==> (id, server) in t'.saved
            case Forget(id, server) => (id, server) !in t'.saved
  {
  }

  /** And nothing to any other row. */
  lemma EditsKeepOthers(w: World, l: Label, id: nat)
    requires IdsBelow(w) && !l.Act? && id in w.t.users
    requires !(l.SetPassword? && l.id == id) && !(l.Reset? && l.id == id) && !(l.Remove? && l.id == id)
    ensures var t, t' := w.t, Apply(w, l).t;
            && id in t'.users && t'.users[id] == t.users[id]
            && (!(l.Assign? && l.id == id) ==>
                  && (id in t.assignments <==> id in t'.assignments)
                  && (id in t.assignments ==> t'.assignments[id] == t.assignments[id]))
            && (forall s | s in t.sessions && t.sessions[s] == id :: s in t'.sessions && t'.sessions[s] == id)
            && (!(l.Assign? && l.id == id) && !(l.Save? && l.id == id) && !(l.Forget? && l.id == id) ==>
                  forall x: nat :: (id, x) in t.saved <==> (id, x) in t'.saved)
  {
  }
}
