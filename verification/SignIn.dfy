/** Sign-ins over whole runs (`finish_directory`, `finish_local` and `start_session` in `web.rs`): each store call
    is one step, so sign-ins, renames, resets, deletions and administrators' edits interleave. */
module SignIn {
  import opened Common
  import opened Accounts

  /** What the directory answered. */
  datatype Account = Account(name: string, sid: string)

  /** Where a sign-in stands; `id` and `row` are what it read. */
  datatype Phase =
    | FindName
    | FindSid
    | Rename(id: nat, row: User)
    | Reread(id: nat, row: User)
    | Create
    | Read(id: nat, row: User)
    | Bound(id: nat, row: User, epoch: nat)
    | Over

  /** A local sign-in starts at `Read` with the row whose password was checked. */
  datatype Attempt = Attempt(account: Account, local: bool, phase: Phase)

  /** A recorded sign-in, and by which attempt. `epoch` counts the resets of the row before it. */
  datatype Login = Login(id: nat, incarnation: int, sid: string, epoch: nat, attempt: nat)

  /** A session's history: the SID its sign-in recorded, and when. */
  datatype Origin = Origin(id: nat, sid: string, epoch: nat)

  /** `epochs`, `log` and `origins` are history. */
  datatype World = World(t: Tables, attempts: seq<Attempt>, epochs: map<nat, nat>, log: seq<Login>,
                         origins: map<nat, Origin>)

  datatype Label =
    | Arrive(account: Account)
    | ArriveLocal(id: nat, synthetic: string)
    | Act(a: nat, found: nat, draw: int)
    | AddUser(name: string, draw: int)
    | AddLocal(name: string, hash: string, sid: string, draw: int)
    | SetPassword(id: nat, hash: string)
    | Reset(id: nat)
    | Remove(id: nat)
    | Assign(id: nat, servers: set<nat>)
    | Save(id: nat, server: nat)
    | Forget(id: nat, server: nat)

  function Epoch(w: World, id: nat): nat { if id in w.epochs then w.epochs[id] else 0 }

  predicate LowestBound(t: Tables, sid: string, id: nat) {
    && id in t.users && t.users[id].sid == Some(sid) && t.users[id].hash.None?
    && forall other | other in t.users && t.users[other].sid == Some(sid) && t.users[other].hash.None? :: id <= other
  }

  predicate AnyBound(t: Tables, sid: string) {
    exists id | id in t.users :: t.users[id].sid == Some(sid) && t.users[id].hash.None?
  }

  /** `found` is the row a read returns, `draw` a new row's incarnation or a session's token. */
  ghost predicate Enabled(w: World, l: Label) {
    match l
    case Arrive(_) => true
    case ArriveLocal(id, _) => id in w.t.users && w.t.users[id].hash.Some?
    case Act(a, found, draw) =>
      a < |w.attempts| && var p := w.attempts[a];
      (match p.phase
       case FindName =>
         NameTaken(w.t, p.account.name) ==> found in w.t.users && w.t.users[found].name == p.account.name
       case FindSid => AnyBound(w.t, p.account.sid) ==> LowestBound(w.t, p.account.sid, found)
       case Bound(_, _, _) => draw >= 0 && draw !in w.origins
       case Over => false
       case _ => true)
    case _ => true
  }

  function Moved(w: World, a: nat, phase: Phase): World
    requires a < |w.attempts|
  {
    w.(attempts := w.attempts[a := w.attempts[a].(phase := phase)])
  }

  /** One store call of a sign-in. */
  function ActStep(w: World, a: nat, found: nat, draw: int): World
    requires a < |w.attempts|
  {
    var p, t := w.attempts[a], w.t;
    match p.phase
    case FindName =>
      if NameTaken(t, p.account.name) && found in t.users then Moved(w, a, Read(found, t.users[found]))
      else Moved(w, a, FindSid)
    case FindSid =>
      if AnyBound(t, p.account.sid) && found in t.users then Moved(w, a, Rename(found, t.users[found]))
      else Moved(w, a, Create)
    case Rename(id, row) =>
      if Renames(t, id, row.incarnation, p.account.sid, p.account.name)
      then Moved(w.(t := Renamed(t, id, p.account.name)), a, Reread(id, row))
      else Moved(w, a, Over)
    case Reread(id, row) =>
      if Same(t, id, row.incarnation) then Moved(w, a, Read(id, t.users[id])) else Moved(w, a, Over)
    case Create =>
      if NameTaken(t, p.account.name) then Moved(w, a, Over)
      else
        var u := User(p.account.name, None, None, draw);
        Moved(w.(t := Inserted(t, u)), a, Read(t.nextId, u))
    case Read(id, row) => RecordStep(w, a, id, row)
    case Bound(id, row, epoch) =>
      if Same(t, id, row.incarnation) && draw >= 0
      then Moved(w.(t := t.(sessions := t.sessions[draw := id]),
                    origins := w.origins[draw := Origin(id, p.account.sid, epoch)]), a, Over)
      else Moved(w, a, Over)
    case Over => w
  }

  /** A local row is refused to the directory and the other way round; a row bound to another SID to both. */
  predicate Refuses(p: Attempt, row: User) {
    row.hash.Some? != p.local || (row.sid.Some? && row.sid != Some(p.account.sid))
  }

  function RecordStep(w: World, a: nat, id: nat, row: User): World
    requires a < |w.attempts|
  {
    var p := w.attempts[a];
    if !Refuses(p, row) && Records(w.t, id, row.incarnation, p.account.sid) then
      Moved(w.(t := Recorded(w.t, id, p.account.sid),
               log := w.log + [Login(id, row.incarnation, p.account.sid, Epoch(w, id), a)]),
            a, Bound(id, row, Epoch(w, id)))
    else Moved(w, a, Over)
  }

  function LocalSid(u: User, synthetic: string): string { if u.sid.Some? then u.sid.value else synthetic }

  function Apply(w: World, l: Label): World {
    match l
    case Arrive(account) => w.(attempts := w.attempts + [Attempt(account, false, FindName)])
    case ArriveLocal(id, synthetic) =>
      if id !in w.t.users then w
      else
        var u := w.t.users[id];
        w.(attempts := w.attempts + [Attempt(Account(u.name, LocalSid(u, synthetic)), true, Read(id, u))])
    case Act(a, found, draw) => if a < |w.attempts| then ActStep(w, a, found, draw) else w
    case AddUser(name, draw) => if NameTaken(w.t, name) then w else w.(t := Inserted(w.t, User(name, None, None, draw)))
    case AddLocal(name, hash, sid, draw) =>
      if NameTaken(w.t, name) then w else w.(t := Inserted(w.t, User(name, Some(sid), Some(hash), draw)))
    case SetPassword(id, hash) =>
      if id in w.t.users && w.t.users[id].hash.Some?
      then w.(t := w.t.(users := w.t.users[id := w.t.users[id].(hash := Some(hash))]))
      else w
    case Reset(id) =>
      if id in w.t.users then w.(t := Cleared(w.t, id), epochs := w.epochs[id := Epoch(w, id) + 1]) else w
    case Remove(id) => w.(t := Deleted(w.t, id))
    case Assign(id, servers) =>
      if id in w.t.users then w.(t := Assigned(w.t, id, servers)) else w
    case Save(id, server) => if id in w.t.users then w.(t := w.t.(saved := w.t.saved + {(id, server)})) else w
    case Forget(id, server) => w.(t := w.t.(saved := w.t.saved - {(id, server)}))
  }

  ghost predicate ValidRun(w: World, ls: seq<Label>)
    decreases |ls|
  {
    ls != [] ==> Enabled(w, ls[0]) && ValidRun(Apply(w, ls[0]), ls[1..])
  }

  function After(w: World, ls: seq<Label>): World
    decreases |ls|
  {
    if ls == [] then w else After(Apply(w, ls[0]), ls[1..])
  }

  const EMPTY := World(Tables(map[], 0, map[], {}, map[]), [], map[], [], map[])

  // ---- the invariant ------------------------------------------------------------------------------

  predicate IdsBelow(w: World) {
    && (forall id | id in w.t.users :: id < w.t.nextId)
    && (forall id | id in w.epochs :: id < w.t.nextId)
    && (forall i | 0 <= i < |w.log| :: w.log[i].id < w.t.nextId)
  }

  predicate UniqueNames(t: Tables) {
    forall i, j | i in t.users && j in t.users && i != j :: t.users[i].name != t.users[j].name
  }

  /** A sign-in recorded since the last reset of a row that is still there is by the SID it is bound to. */
  predicate LogMatches(w: World) {
    forall i | 0 <= i < |w.log| :: LoginMatches(w, w.log[i])
  }

  predicate LoginMatches(w: World, e: Login) {
    Same(w.t, e.id, e.incarnation) && e.epoch == Epoch(w, e.id) ==> w.t.users[e.id].sid == Some(e.sid)
  }

  /** Between resets a row takes sign-ins by one SID. */
  predicate OneSid(log: seq<Login>) {
    forall i, j | 0 <= i < j < |log| && log[i].id == log[j].id && log[i].incarnation == log[j].incarnation
                  && log[i].epoch == log[j].epoch :: log[i].sid == log[j].sid
  }

  predicate EpochsPast(w: World) {
    forall i | 0 <= i < |w.log| :: w.log[i].epoch <= Epoch(w, w.log[i].id)
  }

  predicate Inv(w: World) {
    IdsBelow(w) && UniqueNames(w.t) && LogMatches(w) && OneSid(w.log) && EpochsPast(w)
  }

  // ---- every step keeps it ------------------------------------------------------------------------

  lemma InsertKeeps(w: World, u: User, attempts: seq<Attempt>)
    requires Inv(w) && !NameTaken(w.t, u.name)
    ensures Inv(w.(t := Inserted(w.t, u), attempts := attempts))
  {
  }

  lemma RenameKeeps(w: World, id: nat, name: string, attempts: seq<Attempt>)
    requires Inv(w) && id in w.t.users && !NameTaken(w.t, name)
    ensures Inv(w.(t := Renamed(w.t, id, name), attempts := attempts))
  {
  }

  lemma RecordKeeps(w: World, a: nat, id: nat, row: User)
    requires Inv(w) && a < |w.attempts|
    ensures Inv(RecordStep(w, a, id, row))
  {
    var w' := RecordStep(w, a, id, row);
    var sid := w.attempts[a].account.sid;
    if |w'.log| > |w.log| {
      forall i | 0 <= i < |w.log|
        ensures LoginMatches(w', w.log[i])
        ensures w.log[i].id == id && w.log[i].incarnation == row.incarnation && w.log[i].epoch == Epoch(w, id)
                ==> w.log[i].sid == sid
      {
        assert LoginMatches(w, w.log[i]);
      }
    }
  }

  lemma ClearKeeps(w: World, id: nat)
    requires Inv(w) && id in w.t.users
    ensures Inv(w.(t := Cleared(w.t, id), epochs := w.epochs[id := Epoch(w, id) + 1]))
  {
    var w' := w.(t := Cleared(w.t, id), epochs := w.epochs[id := Epoch(w, id) + 1]);
    forall i | 0 <= i < |w.log| ensures LoginMatches(w', w.log[i]) { assert LoginMatches(w, w.log[i]); }
  }

  lemma ActKeeps(w: World, a: nat, found: nat, draw: int)
    requires Inv(w) && a < |w.attempts|
    ensures Inv(ActStep(w, a, found, draw))
  {
    var p, w' := w.attempts[a], ActStep(w, a, found, draw);
    if p.phase.Read? {
      RecordKeeps(w, a, p.phase.id, p.phase.row);
    } else if w'.t.users == w.t.users && w'.t.nextId == w.t.nextId {
      SameRowsKeep(w, w');
    } else if p.phase.Rename? {
      RenameKeeps(w, p.phase.id, p.account.name, w'.attempts);
    } else {
      InsertKeeps(w, User(p.account.name, None, None, draw), w'.attempts);
    }
  }

  lemma SameRowsKeep(w: World, w': World)
    requires Inv(w) && w'.t.users == w.t.users && w'.t.nextId == w.t.nextId
    requires w'.epochs == w.epochs && w'.log == w.log
    ensures Inv(w')
  {
    forall i | 0 <= i < |w.log| ensures LoginMatches(w', w.log[i]) { assert LoginMatches(w, w.log[i]); }
  }

  lemma StepKeeps(w: World, l: Label)
    requires Inv(w)
    ensures Inv(Apply(w, l))
  {
    match l
    case Act(a, found, draw) => if a < |w.attempts| { ActKeeps(w, a, found, draw); }
    case AddUser(name, draw) => if !NameTaken(w.t, name) { InsertKeeps(w, User(name, None, None, draw), w.attempts); }
    case AddLocal(name, hash, sid, draw) =>
      if !NameTaken(w.t, name) { InsertKeeps(w, User(name, Some(sid), Some(hash), draw), w.attempts); }
    case Reset(id) => if id in w.t.users { ClearKeeps(w, id); }
    case _ =>
  }

  lemma {:induction false} RunKeeps(w: World, ls: seq<Label>)
    requires Inv(w)
    ensures Inv(After(w, ls))
    decreases |ls|
  {
    if ls != [] {
      StepKeeps(w, ls[0]);
      RunKeeps(Apply(w, ls[0]), ls[1..]);
    }
  }

  /** Over any interleaving usernames stay unique, between resets one row takes sign-ins by one SID, and every
      sign-in since the last reset of a row that is still there is by the SID the row is bound to. */
  lemma NamesStayUniqueAndRowsBound(ls: seq<Label>)
    requires ValidRun(EMPTY, ls)
    ensures var w := After(EMPTY, ls); UniqueNames(w.t) && OneSid(w.log) && LogMatches(w)
  {
    RunKeeps(EMPTY, ls);
  }

  // ---- renames ------------------------------------------------------------------------------------

  /** What a step may change of a row that survives it. */
  ghost predicate RowKept(w: World, w': World, l: Label, id: nat)
    requires id in w.t.users && id in w'.t.users
  {
    var u, u' := w.t.users[id], w'.t.users[id];
    && u'.incarnation == u.incarnation
    && (u'.name != u.name ==>
          && l.Act? && l.a < |w.attempts| && w.attempts[l.a].phase.Rename? && w.attempts[l.a].phase.id == id
          && u'.name == w.attempts[l.a].account.name && u.sid == Some(w.attempts[l.a].account.sid))
    && (u'.sid != u.sid ==> u.sid.None? || (l == Reset(id) && u'.sid.None?))
    && (id in w.t.assignments && !(l.Assign? && l.id == id) ==>
          id in w'.t.assignments && w'.t.assignments[id] == w.t.assignments[id])
    && (l != Reset(id) && !(l.Assign? && l.id == id) && !(l.Forget? && l.id == id) ==>
          forall c: (nat, nat) | c in w.t.saved && c.0 == id :: c in w'.t.saved)
  }

  /** A row keeps its identity, its servers and its saved credentials through every step but an administrator's or
      its user's own on them; its name changes only to the one the directory gives the SID it is bound to, and its
      SID only by a first sign-in or a reset. */
  lemma RowsAreKept(w: World, l: Label, id: nat)
    requires Inv(w) && id in w.t.users && id in Apply(w, l).t.users
    ensures RowKept(w, Apply(w, l), l, id)
  {
    if !l.Act? {
      EditRowKept(w, l, id);
    } else if l.a < |w.attempts| {
      ActRowKept(w, l, id);
    }
  }

  lemma EditRowKept(w: World, l: Label, id: nat)
    requires IdsBelow(w) && !l.Act? && id in w.t.users && id in Apply(w, l).t.users
    ensures RowKept(w, Apply(w, l), l, id)
  {
  }

  lemma ActRowKept(w: World, l: Label, id: nat)
    requires IdsBelow(w) && l.Act? && l.a < |w.attempts|
    requires id in w.t.users && id in ActStep(w, l.a, l.found, l.draw).t.users
    ensures RowKept(w, ActStep(w, l.a, l.found, l.draw), l, id)
  {
    var p, w' := w.attempts[l.a], ActStep(w, l.a, l.found, l.draw);
    if p.phase.Rename? {
      RenameRowKept(w, l, id);
    } else if p.phase.Read? {
      RecordRowKept(w, l, id);
    } else {
      assert w'.t.users == w.t.users || w'.t == Inserted(w.t, User(p.account.name, None, None, l.draw));
    }
  }

  lemma RenameRowKept(w: World, l: Label, id: nat)
    requires l.Act? && l.a < |w.attempts| && w.attempts[l.a].phase.Rename? && id in w.t.users
    ensures RowKept(w, ActStep(w, l.a, l.found, l.draw), l, id)
  {
  }

  lemma RecordRowKept(w: World, l: Label, id: nat)
    requires l.Act? && l.a < |w.attempts| && w.attempts[l.a].phase.Read? && id in w.t.users
    ensures RowKept(w, ActStep(w, l.a, l.found, l.draw), l, id)
  {
  }

  /** Attempt `a` is on a row from its rename on: it has yet to record there, has, or gave up. */
  predicate OnRow(w: World, a: nat, id: nat, incarnation: int, account: Account) {
    && a < |w.attempts| && w.attempts[a].account == account
    && match w.attempts[a].phase
       case Reread(i, row) => i == id && row.incarnation == incarnation
       case Read(i, row) => i == id && row.incarnation == incarnation
       case Bound(i, row, _) => i == id && row.incarnation == incarnation
       case Over => true
       case _ => false
  }

  /** What `a` has recorded from some point on is on that row, by its account. */
  predicate RecordsOnRow(w: World, from: nat, a: nat, id: nat, incarnation: int, account: Account) {
    forall i | from <= i < |w.log| && w.log[i].attempt == a ::
      w.log[i].id == id && w.log[i].incarnation == incarnation && w.log[i].sid == account.sid
  }

  lemma OnRowStep(w: World, l: Label, from: nat, a: nat, id: nat, incarnation: int, account: Account)
    requires OnRow(w, a, id, incarnation, account) && RecordsOnRow(w, from, a, id, incarnation, account)
    ensures var w' := Apply(w, l);
            OnRow(w', a, id, incarnation, account) && RecordsOnRow(w', from, a, id, incarnation, account)
            && w.log <= w'.log
  {
    if l.Act? && l.a < |w.attempts| {
      ActOnRow(w, l.a, l.found, l.draw, a, id, incarnation, account);
    }
  }

  lemma ActOnRow(w: World, b: nat, found: nat, draw: int, a: nat, id: nat, incarnation: int, account: Account)
    requires OnRow(w, a, id, incarnation, account) && b < |w.attempts|
    ensures var w' := ActStep(w, b, found, draw);
            && OnRow(w', a, id, incarnation, account) && w.log <= w'.log
            && (forall i | |w.log| <= i < |w'.log| && w'.log[i].attempt == a ::
                  w'.log[i].id == id && w'.log[i].incarnation == incarnation && w'.log[i].sid == account.sid)
  {
    var w' := ActStep(w, b, found, draw);
    assert forall c | 0 <= c < |w.attempts| && c != b :: w'.attempts[c] == w.attempts[c];
  }

  lemma {:induction false} OnRowRun(w: World, ls: seq<Label>, from: nat, a: nat, id: nat, incarnation: int,
                                    account: Account)
    requires OnRow(w, a, id, incarnation, account) && RecordsOnRow(w, from, a, id, incarnation, account)
    ensures var w' := After(w, ls);
            && OnRow(w', a, id, incarnation, account) && RecordsOnRow(w', from, a, id, incarnation, account)
            && w.log <= w'.log
    decreases |ls|
  {
    if ls != [] {
      OnRowStep(w, ls[0], from, a, id, incarnation, account);
      OnRowRun(Apply(w, ls[0]), ls[1..], from, a, id, incarnation, account);
    }
  }

  /** Nothing in the run edits the row's servers or credentials, resets it or removes it. */
  predicate LeavesRow(ls: seq<Label>, id: nat) {
    forall i | 0 <= i < |ls| ::
      match ls[i]
      case Assign(x, _) => x != id
      case Forget(x, _) => x != id
      case Reset(x) => x != id
      case Remove(x) => x != id
      case _ => true
  }

  lemma RowSurvives(w: World, l: Label, id: nat)
    requires Inv(w) && id in w.t.users && l != Remove(id)
    ensures id in Apply(w, l).t.users
  {
    if l.Act? && l.a < |w.attempts| { ActSurvives(w, l.a, l.found, l.draw, id); }
  }

  lemma ActSurvives(w: World, a: nat, found: nat, draw: int, id: nat)
    requires a < |w.attempts| && id in w.t.users
    ensures id in ActStep(w, a, found, draw).t.users
  {
  }

  lemma {:induction false} RowRun(w: World, ls: seq<Label>, id: nat)
    requires Inv(w) && id in w.t.users && LeavesRow(ls, id)
    ensures var w' := After(w, ls);
            && id in w'.t.users && w'.t.users[id].incarnation == w.t.users[id].incarnation
            && (id in w.t.assignments ==> id in w'.t.assignments && w'.t.assignments[id] == w.t.assignments[id])
            && (forall c: (nat, nat) | c in w.t.saved && c.0 == id :: c in w'.t.saved)
    decreases |ls|
  {
    if ls != [] {
      RowSurvives(w, ls[0], id);
      RowsAreKept(w, ls[0], id);
      StepKeeps(w, ls[0]);
      RowRun(Apply(w, ls[0]), ls[1..], id);
    }
  }

  /** A sign-in that renames the row its SID is bound to makes no other row, and through whatever interleaves with
      it afterwards it records on that row and nowhere else, while the row keeps its servers and its saved
      credentials unless a step is about these. */
  lemma RenamedAccountKeepsItsRow(w: World, a: nat, id: nat, row: User, found: nat, draw: int, ls: seq<Label>)
    requires Inv(w) && a < |w.attempts| && w.attempts[a].phase == Rename(id, row)
    requires Renames(w.t, id, row.incarnation, w.attempts[a].account.sid, w.attempts[a].account.name)
    ensures var account := w.attempts[a].account;
            var renamed := ActStep(w, a, found, draw);
            var w' := After(renamed, ls);
            && renamed.t == w.t.(users := w.t.users[id := w.t.users[id].(name := account.name)])
            && renamed.log == w.log && w.log <= w'.log
            && RecordsOnRow(w', |w.log|, a, id, row.incarnation, account)
            && (LeavesRow(ls, id) ==>
                  && id in w'.t.users && w'.t.users[id].incarnation == row.incarnation
                  && (id in w.t.assignments ==>
                        id in w'.t.assignments && w'.t.assignments[id] == w.t.assignments[id])
                  && (forall c: (nat, nat) | c in w.t.saved && c.0 == id :: c in w'.t.saved))
  {
    var renamed := ActStep(w, a, found, draw);
    ActKeeps(w, a, found, draw);
    OnRowRun(renamed, ls, |w.log|, a, id, row.incarnation, w.attempts[a].account);
    if LeavesRow(ls, id) { RowRun(renamed, ls, id); }
  }

  /** And when nothing interleaves it does record there. */
  lemma RenamedAccountSignsIn(w: World, a: nat, id: nat)
    requires Inv(w) && a < |w.attempts| && !w.attempts[a].local && w.attempts[a].phase == FindSid
    requires !NameTaken(w.t, w.attempts[a].account.name) && LowestBound(w.t, w.attempts[a].account.sid, id)
    ensures var p := w.attempts[a];
            var w1 := ActStep(w, a, id, 0);
            var w2 := ActStep(w1, a, 0, 0);
            var w3 := ActStep(w2, a, 0, 0);
            var w4 := ActStep(w3, a, 0, 0);
            && w4.t == w.t.(users := w.t.users[id := w.t.users[id].(name := p.account.name)])
            && w4.attempts[a].phase.Bound? && w4.attempts[a].phase.id == id
            && w4.log == w.log + [Login(id, w.t.users[id].incarnation, p.account.sid, Epoch(w, id), a)]
  {
    var p := w.attempts[a];
    var w1 := ActStep(w, a, id, 0);
    assert AnyBound(w.t, p.account.sid);
    assert w1 == Moved(w, a, Rename(id, w.t.users[id]));
    var w2 := ActStep(w1, a, 0, 0);
    assert w2.t == Renamed(w.t, id, p.account.name);
    var w3 := ActStep(w2, a, 0, 0);
    assert w3.attempts[a] == p.(phase := Read(id, w2.t.users[id]));
    var w4 := ActStep(w3, a, 0, 0);
    assert w4.t.users == w2.t.users;
  }

  // ---- sessions -----------------------------------------------------------------------------------

  /** A sign-in recorded since the last reset is by the row's SID. */
  predicate BoundMatches(w: World, p: Attempt) {
    p.phase.Bound? ==>
      && p.phase.id < w.t.nextId && p.phase.epoch <= Epoch(w, p.phase.id)
      && (Same(w.t, p.phase.id, p.phase.row.incarnation) && p.phase.epoch == Epoch(w, p.phase.id) ==>
            w.t.users[p.phase.id].sid == Some(p.account.sid))
  }

  predicate SessionMatches(w: World, s: nat)
    requires s in w.t.sessions
  {
    && s in w.origins && w.origins[s].id == w.t.sessions[s] && w.t.sessions[s] in w.t.users
    && w.origins[s].epoch <= Epoch(w, w.t.sessions[s])
    && (w.origins[s].epoch == Epoch(w, w.t.sessions[s]) ==>
          w.t.users[w.t.sessions[s]].sid == Some(w.origins[s].sid))
  }

  predicate SessionInv(w: World) {
    && IdsBelow(w)
    && (forall a | 0 <= a < |w.attempts| :: BoundMatches(w, w.attempts[a]))
    && (forall s | s in w.t.sessions :: SessionMatches(w, s))
  }

  /** A step that changes no row's SID and makes no session. */
  lemma BindingsKeep(w: World, w': World, a: nat)
    requires SessionInv(w) && IdsBelow(w') && w.t.nextId <= w'.t.nextId
    requires w'.epochs == w.epochs && w'.t.sessions == w.t.sessions && w'.origins == w.origins
    requires a < |w.attempts| == |w'.attempts| && !w'.attempts[a].phase.Bound?
    requires forall b | 0 <= b < |w.attempts| && b != a :: w'.attempts[b] == w.attempts[b]
    requires forall id | id in w.t.users ::
               && id in w'.t.users && w'.t.users[id].sid == w.t.users[id].sid
               && w'.t.users[id].incarnation == w.t.users[id].incarnation
    requires forall id | id in w'.t.users && id < w.t.nextId :: id in w.t.users
    ensures SessionInv(w')
  {
    forall b | 0 <= b < |w'.attempts| ensures BoundMatches(w', w'.attempts[b]) {
      if b != a { assert BoundMatches(w, w.attempts[b]); }
    }
    forall s | s in w'.t.sessions ensures SessionMatches(w', s) { assert SessionMatches(w, s); }
  }

  lemma RecordSessions(w: World, a: nat, id: nat, row: User)
    requires SessionInv(w) && a < |w.attempts|
    requires !Refuses(w.attempts[a], row) && Records(w.t, id, row.incarnation, w.attempts[a].account.sid)
    ensures SessionInv(RecordStep(w, a, id, row))
  {
    var w' := RecordStep(w, a, id, row);
    forall b | 0 <= b < |w'.attempts| ensures BoundMatches(w', w'.attempts[b]) {
      if b != a { assert BoundMatches(w, w.attempts[b]); }
    }
    forall s | s in w'.t.sessions ensures SessionMatches(w', s) { assert SessionMatches(w, s); }
  }

  lemma SessionMade(w: World, a: nat, found: nat, draw: int)
    requires SessionInv(w) && a < |w.attempts| && w.attempts[a].phase.Bound? && draw >= 0
    requires Same(w.t, w.attempts[a].phase.id, w.attempts[a].phase.row.incarnation)
    ensures SessionInv(ActStep(w, a, found, draw))
  {
    var w' := ActStep(w, a, found, draw);
    assert BoundMatches(w, w.attempts[a]);
    forall b | 0 <= b < |w'.attempts| ensures BoundMatches(w', w'.attempts[b]) {
      assert BoundMatches(w, w.attempts[b]);
    }
    forall s | s in w'.t.sessions ensures SessionMatches(w', s) {
      if s != draw { assert SessionMatches(w, s); }
    }
  }

  lemma ActSessions(w: World, a: nat, found: nat, draw: int)
    requires SessionInv(w) && a < |w.attempts| && Enabled(w, Act(a, found, draw))
    ensures SessionInv(ActStep(w, a, found, draw))
  {
    var p, w' := w.attempts[a], ActStep(w, a, found, draw);
    if p.phase.Read? && w'.attempts[a].phase.Bound? {
      RecordSessions(w, a, p.phase.id, p.phase.row);
    } else if p.phase.Bound? && Same(w.t, p.phase.id, p.phase.row.incarnation) {
      SessionMade(w, a, found, draw);
    } else {
      BindingsKeep(w, w', a);
    }
  }

  lemma StepSessions(w: World, l: Label)
    requires SessionInv(w) && Enabled(w, l)
    ensures SessionInv(Apply(w, l))
  {
    if l.Act? {
      ActSessions(w, l.a, l.found, l.draw);
    } else if l.Reset? {
      ResetSessions(w, l.id);
    } else {
      var w' := Apply(w, l);
      forall b | 0 <= b < |w'.attempts| ensures BoundMatches(w', w'.attempts[b]) {
        if b < |w.attempts| { assert BoundMatches(w, w.attempts[b]); }
      }
      forall s | s in w'.t.sessions ensures SessionMatches(w', s) { assert SessionMatches(w, s); }
    }
  }

  lemma ResetSessions(w: World, id: nat)
    requires SessionInv(w)
    ensures SessionInv(Apply(w, Reset(id)))
  {
    var w' := Apply(w, Reset(id));
    forall b | 0 <= b < |w'.attempts| ensures BoundMatches(w', w'.attempts[b]) {
      assert BoundMatches(w, w.attempts[b]);
    }
    forall s | s in w'.t.sessions ensures SessionMatches(w', s) { assert SessionMatches(w, s); }
  }

  lemma {:induction false} SessionRun(w: World, ls: seq<Label>)
    requires SessionInv(w) && ValidRun(w, ls)
    ensures SessionInv(After(w, ls))
    decreases |ls|
  {
    if ls != [] {
      StepSessions(w, ls[0]);
      SessionRun(Apply(w, ls[0]), ls[1..]);
    }
  }

  /** The row's SID was recorded by a sign-in since its last reset. */
  ghost predicate RecordedSince(w: World, id: nat, sid: string)
    requires id in w.t.users
  {
    exists i :: 0 <= i < |w.log| && IsRecordOf(w, w.log[i], id, sid)
  }

  predicate IsRecordOf(w: World, e: Login, id: nat, sid: string)
    requires id in w.t.users
  {
    e.id == id && e.incarnation == w.t.users[id].incarnation && e.epoch == Epoch(w, id) && e.sid == sid
  }

  /** A row that was ever reset is bound only by a sign-in recorded since. */
  ghost predicate BoundByRecord(w: World) {
    forall id | id in w.t.users && Epoch(w, id) > 0 && w.t.users[id].sid.Some? ::
      RecordedSince(w, id, w.t.users[id].sid.value)
  }

  /** A step that keeps a row's SID, its incarnation and its resets keeps the record. */
  lemma RecordStays(w: World, w': World, id: nat, sid: string)
    requires id in w.t.users && id in w'.t.users && RecordedSince(w, id, sid) && w.log <= w'.log
    requires w'.t.users[id].incarnation == w.t.users[id].incarnation && Epoch(w', id) == Epoch(w, id)
    ensures RecordedSince(w', id, sid)
  {
    var i :| 0 <= i < |w.log| && IsRecordOf(w, w.log[i], id, sid);
    assert w'.log[i] == w.log[i];
  }

  lemma BoundStep(w: World, l: Label)
    requires Inv(w) && BoundByRecord(w)
    ensures BoundByRecord(Apply(w, l))
  {
    var w' := Apply(w, l);
    forall id | id in w'.t.users && Epoch(w', id) > 0 && w'.t.users[id].sid.Some?
      ensures RecordedSince(w', id, w'.t.users[id].sid.value)
    {
      NewRowsAreFresh(w, l, id);
      RowsAreKept(w, l, id);
      LogGrows(w, l);
      var sid := w'.t.users[id].sid.value;
      if w'.t.users[id].sid == w.t.users[id].sid {
        RecordStays(w, w', id, sid);
      } else {
        BindingIsRecorded(w, l, id);
      }
    }
  }

  /** A row with a reset behind it is not a new one, and keeps its count unless it is reset again. */
  lemma NewRowsAreFresh(w: World, l: Label, id: nat)
    requires IdsBelow(w) && id in Apply(w, l).t.users && Epoch(Apply(w, l), id) > 0
    ensures id in w.t.users
    ensures Apply(w, l).t.users[id].sid.Some? ==> Epoch(Apply(w, l), id) == Epoch(w, id)
  {
  }

  lemma LogGrows(w: World, l: Label)
    ensures w.log <= Apply(w, l).log
  {
  }

  /** The step that binds a row is the one that records the sign-in. */
  lemma BindingIsRecorded(w: World, l: Label, id: nat)
    requires id in w.t.users && id in Apply(w, l).t.users
    requires Apply(w, l).t.users[id].sid.Some? && Apply(w, l).t.users[id].sid != w.t.users[id].sid && IdsBelow(w)
    ensures RecordedSince(Apply(w, l), id, Apply(w, l).t.users[id].sid.value)
  {
    var w' := Apply(w, l);
    assert l.Act? && l.a < |w.attempts| && w.attempts[l.a].phase.Read? && w.attempts[l.a].phase.id == id;
    assert IsRecordOf(w', w'.log[|w.log|], id, w'.t.users[id].sid.value);
  }

  lemma {:induction false} BoundRun(w: World, ls: seq<Label>)
    requires Inv(w) && BoundByRecord(w)
    ensures BoundByRecord(After(w, ls))
    decreases |ls|
  {
    if ls != [] {
      BoundStep(w, ls[0]);
      StepKeeps(w, ls[0]);
      BoundRun(Apply(w, ls[0]), ls[1..]);
    }
  }

  /** A session is on a row that is still there, the one its sign-in recorded. The row is bound to the SID recorded
      then exactly when it was not reset between the record and the session, or the same SID has signed in again
      since the reset. */
  lemma SessionsMatchUnlessReset(ls: seq<Label>, s: nat)
    requires ValidRun(EMPTY, ls) && s in After(EMPTY, ls).t.sessions
    ensures var w := After(EMPTY, ls);
            && s in w.origins && w.origins[s].id == w.t.sessions[s] && w.t.sessions[s] in w.t.users
            && var id, o := w.t.sessions[s], w.origins[s];
               w.t.users[id].sid == Some(o.sid) <==> o.epoch == Epoch(w, id) || RecordedSince(w, id, o.sid)
  {
    SessionRun(EMPTY, ls);
    RunKeeps(EMPTY, ls);
    BoundRun(EMPTY, ls);
    SessionMatchesIff(After(EMPTY, ls), s);
  }

  lemma SessionMatchesIff(w: World, s: nat)
    requires SessionInv(w) && Inv(w) && BoundByRecord(w) && s in w.t.sessions
    ensures SessionMatches(w, s)
    ensures var id, o := w.t.sessions[s], w.origins[s];
            w.t.users[id].sid == Some(o.sid) <==> o.epoch == Epoch(w, id) || RecordedSince(w, id, o.sid)
  {
    assert SessionMatches(w, s);
    var id, o := w.t.sessions[s], w.origins[s];
    if RecordedSince(w, id, o.sid) {
      var i :| 0 <= i < |w.log| && IsRecordOf(w, w.log[i], id, o.sid);
      assert LoginMatches(w, w.log[i]);
    }
  }

  // ---- the exception happens ----------------------------------------------------------------------

  lemma Chain(w: World, l: Label, ls: seq<Label>)
    requires Enabled(w, l) && ValidRun(Apply(w, l), ls)
    ensures ValidRun(w, [l] + ls) && After(w, [l] + ls) == After(Apply(w, l), ls)
  {
    assert ([l] + ls)[1..] == ls;
  }

  lemma {:induction false} RunAppend(w: World, a: seq<Label>, b: seq<Label>)
    requires ValidRun(w, a) && ValidRun(After(w, a), b)
    ensures ValidRun(w, a + b) && After(w, a + b) == After(After(w, a), b)
    decreases |a|
  {
    if a == [] {
      assert a + b == b;
    } else {
      RunAppend(Apply(w, a[0]), a[1..], b);
      assert (a + b)[1..] == a[1..] + b;
    }
  }

  const ROW := User("a", None, None, 0)

  /** One user, whose sign-in by one SID is recorded and has no session yet. */
  function Halfway(): World {
    World(Tables(map[0 := ROW.(sid := Some("s"))], 1, map[0 := {}], {}, map[]),
          [Attempt(Account("a", "s"), false, Bound(0, ROW, 0))], map[], [Login(0, 0, "s", 0, 0)], map[])
  }

  /** The row was reset, then the session made. */
  function Straddled(): World {
    World(Tables(map[0 := ROW], 1, map[0 := {}], {}, map[7 := 0]),
          [Attempt(Account("a", "s"), false, Over)], map[0 := 1], [Login(0, 0, "s", 0, 0)], map[7 := Origin(0, "s", 0)])
  }

  lemma FirstHalf()
    ensures var ls := [AddUser("a", 0), Arrive(Account("a", "s")), Act(0, 0, 0), Act(0, 0, 0)];
            ValidRun(EMPTY, ls) && After(EMPTY, ls) == Halfway()
  {
    var w1 := Apply(EMPTY, AddUser("a", 0));
    var w2 := Apply(w1, Arrive(Account("a", "s")));
    assert NameTaken(w2.t, "a") by { assert w2.t.users[0].name == "a"; }
    var w3 := Apply(w2, Act(0, 0, 0));
    var w4 := Apply(w3, Act(0, 0, 0));
    assert w4 == Halfway();
    Chain(w3, Act(0, 0, 0), []);
    Chain(w2, Act(0, 0, 0), [Act(0, 0, 0)]);
    Chain(w1, Arrive(Account("a", "s")), [Act(0, 0, 0), Act(0, 0, 0)]);
    Chain(EMPTY, AddUser("a", 0), [Arrive(Account("a", "s")), Act(0, 0, 0), Act(0, 0, 0)]);
  }

  lemma SecondHalf()
    ensures var ls := [Reset(0), Act(0, 0, 7)];
            ValidRun(Halfway(), ls) && After(Halfway(), ls) == Straddled()
  {
    var w := Halfway();
    var w1 := Apply(w, Reset(0));
    var w2 := Apply(w1, Act(0, 0, 7));
    assert w2 == Straddled();
    Chain(w1, Act(0, 0, 7), []);
    Chain(w, Reset(0), [Act(0, 0, 7)]);
  }

  lemma OtherSignIn()
    ensures var ls := [Arrive(Account("a", "t")), Act(1, 0, 0), Act(1, 0, 0)];
            var w := After(Straddled(), ls);
            && ValidRun(Straddled(), ls) && w.t.sessions == map[7 := 0] && w.origins == map[7 := Origin(0, "s", 0)]
            && 0 in w.t.users && w.t.users[0].sid == Some("t")
  {
    var w := Straddled();
    var w1 := Apply(w, Arrive(Account("a", "t")));
    assert NameTaken(w1.t, "a") by { assert w1.t.users[0].name == "a"; }
    var w2 := Apply(w1, Act(1, 0, 0));
    var w3 := Apply(w2, Act(1, 0, 0));
    Chain(w2, Act(1, 0, 0), []);
    Chain(w1, Act(1, 0, 0), [Act(1, 0, 0)]);
    Chain(w, Arrive(Account("a", "t")), [Act(1, 0, 0), Act(1, 0, 0)]);
  }

  /** A sign-in that is recorded before a reset and gets its session after it keeps the session while another SID
      binds the row. */
  lemma SessionStraddlesReset() returns (ls: seq<Label>)
    ensures ValidRun(EMPTY, ls)
    ensures var w := After(EMPTY, ls);
            && 7 in w.t.sessions && 7 in w.origins && w.t.sessions[7] in w.t.users
            && w.t.users[w.t.sessions[7]].sid.Some? && w.t.users[w.t.sessions[7]].sid != Some(w.origins[7].sid)
  {
    var a := [AddUser("a", 0), Arrive(Account("a", "s")), Act(0, 0, 0), Act(0, 0, 0)];
    var b := [Reset(0), Act(0, 0, 7)];
    var c := [Arrive(Account("a", "t")), Act(1, 0, 0), Act(1, 0, 0)];
    FirstHalf();
    SecondHalf();
    OtherSignIn();
    RunAppend(Halfway(), b, c);
    RunAppend(EMPTY, a, b + c);
    ls := a + (b + c);
  }
}
