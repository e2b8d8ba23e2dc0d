/** Admission against removal. Connections and removals run under shared holds of the gate, so they
    interleave at every store call and every registry call; each is one step here. An import holds the
    gate exclusively, so it finds no admission and no removal in the middle.

    Ids of users, servers, sessions and tickets are never reused within a database. Each assignment
    carries the number of the edit that made it, so that one made again is told apart. */
module Admission {
  import opened Common
  import opened Live

  datatype Store = Store(
    users: set<nat>,
    servers: set<nat>,
    sessions: map<nat, nat>,          // token -> user
    grants: map<(nat, nat), nat>)     // (user, server) -> the edit that assigned it

  datatype ConnPhase =
    | Upgrading                       // the sign-in was read, nothing registered yet
    | Registered                      // in the live registry, no request read
    | Redeemed                        // admission under way: the ticket spent
    | Placed                          // its server set in the registry
    | SignedIn                        // the sign-in found again
    | Found                           // the server row found
    | Assigned                        // the assignment found, for the ticket's server
    | Rowed                           // both rows' incarnations read
    | Admitted
    | Refused
    | Closed

  datatype Conn = Conn(user: nat, token: nat, generation: nat, phase: ConnPhase, server: nat, target: nat,
                       grant: nat)

  datatype Kind =
    | SignOut(token: nat)
    | DropSessions(user: nat)                     // a revocation, or a SID reset
    | RemoveUser(user: nat)
    | RemoveServer(server: nat)
    | SetServers(user: nat, wanted: set<nat>)

  datatype OpPhase = Begun | BeforeRead | Deleted | Done | Failed

  /** A removing route. `tokens` and `lost` are what its store call took away; `before` is what
      `set_user_servers` read first, and `todo` the servers it has still to signal. */
  datatype Op = Op(kind: Kind, generation: nat, phase: OpPhase, tokens: set<nat>, before: set<nat>,
                   lost: map<nat, nat>, todo: set<nat>)

  datatype State = State(
    generation: nat,
    store: Store,
    live: Registry,
    conns: seq<Conn>,                 // a connection's index is its id in the registry
    ops: seq<Op>,
    tickets: map<nat, (nat, nat)>,
    ticketsIssued: set<nat>,
    owners: map<nat, nat>,            // every sign-in session this database has had
    nextUser: nat,
    nextServer: nat,
    edits: nat)

  datatype Label =
    | AddUser
    | AddServer
    | SignIn(user: nat, token: nat)
    | Purge(token: nat)
    | Copy(from: nat, to: nat)
    | Issue(ticket: nat, user: nat, server: nat)
    | Upgrade(token: nat)
    | Register(c: nat)
    | Redeem(c: nat, ticket: nat)
    | Place(c: nat)
    | CheckSession(c: nat)
    | Find(c: nat, target: nat)
    | CheckAssigned(c: nat)
    | ReadRows(c: nat)
    | Admit(c: nat)
    | Refuse(c: nat)                  // any check may fail: an expired session, a store error
    | Close(c: nat)
    | Start(kind: Kind)
    | Step(o: nat, pick: nat)
    | Import(imported: Store, users: nat, servers: nat)

  predicate InAdmission(p: ConnPhase) {
    p.Redeemed? || p.Placed? || p.SignedIn? || p.Found? || p.Assigned? || p.Rowed?
  }

  predicate AtPhase(s: State, c: nat, p: ConnPhase) { c < |s.conns| && s.conns[c].phase == p }

  predicate Whole(st: Store) {
    && (forall t | t in st.sessions :: st.sessions[t] in st.users)
    && (forall k | k in st.grants :: k.0 in st.users && k.1 in st.servers)
  }

  predicate Enabled(s: State, l: Label) {
    match l
    case AddUser | AddServer => true
    case SignIn(u, t) => u in s.store.users && t !in s.owners
    case Purge(t) => t in s.store.sessions
    case Copy(_, to) => to in s.store.users
    case Issue(t, _, _) => t !in s.ticketsIssued
    case Upgrade(t) => t in s.store.sessions
    case Register(c) => AtPhase(s, c, Upgrading)
    case Redeem(c, _) => AtPhase(s, c, Registered)
    case Place(c) => AtPhase(s, c, Redeemed)
    case CheckSession(c) => AtPhase(s, c, Placed)
    case Find(c, _) => AtPhase(s, c, SignedIn)
    case CheckAssigned(c) => AtPhase(s, c, Found)
    case ReadRows(c) => AtPhase(s, c, Assigned)
    case Admit(c) => AtPhase(s, c, Rowed)
    case Refuse(c) => c < |s.conns| && InAdmission(s.conns[c].phase)
    case Close(c) => c < |s.conns| && !s.conns[c].phase.Upgrading? && !s.conns[c].phase.Closed?
                     && !InAdmission(s.conns[c].phase)
    case Start(kind) => kind.SignOut? ==> kind.token in s.owners
    case Step(o, pick) =>
      o < |s.ops| && Whole(s.store) && !s.ops[o].phase.Done? && !s.ops[o].phase.Failed?
      && (s.ops[o].phase.Deleted? && s.ops[o].kind.SetServers? && s.ops[o].todo != {} ==> pick in s.ops[o].todo)
    case Import(st, users, servers) =>
      && Whole(st) && (forall u | u in st.users :: u < users) && (forall x | x in st.servers :: x < servers)
      && (forall k | k in st.grants :: st.grants[k] < s.edits)
      && (forall i | 0 <= i < |s.conns| :: !s.conns[i].phase.Upgrading? && !InAdmission(s.conns[i].phase))
      && (forall i | 0 <= i < |s.ops| :: s.ops[i].phase.Done? || s.ops[i].phase.Failed?)
  }

  function SetPhase(s: State, c: nat, p: ConnPhase): State
    requires c < |s.conns|
  {
    s.(conns := s.conns[c := s.conns[c].(phase := p)])
  }

  // ---- the store calls --------------------------------------------------------------------------

  function SessionsOf(st: Store, user: nat): set<nat> {
    set t | t in st.sessions && st.sessions[t] == user
  }

  /** Every row of one store is a row of the other. */
  ghost predicate Within(st: Store, of: Store) {
    && st.users <= of.users && st.servers <= of.servers
    && (forall t | t in st.sessions :: t in of.sessions && of.sessions[t] == st.sessions[t])
    && (forall k | k in st.grants :: k in of.grants && of.grants[k] == st.grants[k])
  }

  /** `DELETE FROM users`, with its cascades. */
  function DeleteUser(st: Store, user: nat): Store {
    st.(users := st.users - {user}, sessions := st.sessions - SessionsOf(st, user),
        grants := map k | k in st.grants && k.0 != user :: st.grants[k])
  }

  /** No session and no assignment of the user is left, and everything else is. */
  lemma UserDeleted(st: Store, user: nat)
    ensures var r := DeleteUser(st, user);
            && (Whole(st) ==> Whole(r)) && Within(r, st) && user !in r.users && SessionsOf(r, user) == {}
            && r.servers == st.servers && (forall x :: (user, x) !in r.grants)
    ensures var r := DeleteUser(st, user);
            && (forall u | u in st.users && u != user :: u in r.users)
            && (forall t | t in st.sessions && st.sessions[t] != user :: t in r.sessions)
            && (forall k | k in st.grants && k.0 != user :: k in r.grants)
  {
  }

  function DeleteServer(st: Store, server: nat): Store {
    st.(servers := st.servers - {server}, grants := map k | k in st.grants && k.1 != server :: st.grants[k])
  }

  /** No assignment to the server is left, and everything else is. */
  lemma ServerDeleted(st: Store, server: nat)
    ensures var r := DeleteServer(st, server);
            && (Whole(st) ==> Whole(r)) && Within(r, st) && server !in r.servers && r.users == st.users
            && (forall u :: (u, server) !in r.grants)
    ensures var r := DeleteServer(st, server);
            && r.sessions == st.sessions && (forall x | x in st.servers && x != server :: x in r.servers)
            && (forall k | k in st.grants && k.1 != server :: k in r.grants)
  {
  }

  function ServersOf(st: Store, user: nat): set<nat> {
    set k | k in st.grants && k.0 == user :: k.1
  }

  /** The grants after `set_assignments`: exactly `wanted` for this user, kept where already there. */
  function Reassigned(st: Store, user: nat, wanted: set<nat>, edit: nat): map<(nat, nat), nat> {
    (map k | k in st.grants && k.0 != user :: st.grants[k])
    + (map x | x in wanted :: (user, x) := if (user, x) in st.grants then st.grants[(user, x)] else edit)
  }

  function Copied(st: Store, from: nat, to: nat, edit: nat): map<(nat, nat), nat> {
    st.grants + (map x | x in ServersOf(st, from) && (to, x) !in st.grants :: (to, x) := edit)
  }

  // ---- the steps --------------------------------------------------------------------------------

  function ConnStep(s: State, l: Label): State
    requires Enabled(s, l)
    requires l.Register? || l.Redeem? || l.Place? || l.CheckSession? || l.Find? || l.CheckAssigned?
             || l.ReadRows? || l.Admit? || l.Refuse? || l.Close?
  {
    var c := l.c;
    var k := s.conns[c];
    match l
    case Register(_) =>
      SetPhase(s, c, Registered).(live := s.live[c := Entry(k.user, k.token, None, false, k.generation, None, true)])
    case Redeem(_, ticket) =>
      if k.generation != s.generation then SetPhase(s, c, Refused)
      else if ticket !in s.tickets then SetPhase(s, c, Refused)
      else
        var (user, server) := s.tickets[ticket];
        var spent := s.(tickets := s.tickets - {ticket});
        if user != k.user then SetPhase(spent, c, Refused)
        else spent.(conns := s.conns[c := k.(phase := Redeemed, server := server)])
    case Place(_) =>
      SetPhase(s, c, ConnPhase.Placed).(live := Live.Placed(s.live, c, k.server))
    case CheckSession(_) =>
      SetPhase(s, c, if k.token in s.store.sessions && s.store.sessions[k.token] == k.user then SignedIn
                     else Refused)
    case Find(_, target) =>
      if target in s.store.servers then s.(conns := s.conns[c := k.(phase := Found, target := target)])
      else SetPhase(s, c, Refused)
    case CheckAssigned(_) =>
      if (k.user, k.target) in s.store.grants && k.target == k.server then
        s.(conns := s.conns[c := k.(phase := Assigned, grant := s.store.grants[(k.user, k.target)])])
      else SetPhase(s, c, Refused)
    case ReadRows(_) =>
      SetPhase(s, c, if k.user in s.store.users && k.target in s.store.servers then Rowed else Refused)
    case Admit(_) => SetPhase(s, c, Admitted)
    case Refuse(_) => SetPhase(s, c, Refused)
    case Close(_) => SetPhase(s, c, Closed).(live := s.live - {c})
  }

  /** The store call of a removing route: the new store, and what the route remembers of it. */
  function Removal(st: Store, op: Op, edit: nat): (r: (Store, Op))
    requires Whole(st)
  {
    match op.kind
    case SignOut(t) => (st.(sessions := st.sessions - {t}), op.(phase := Deleted, tokens := {t}))
    case DropSessions(u) =>
      (st.(sessions := st.sessions - SessionsOf(st, u)), op.(phase := Deleted, tokens := SessionsOf(st, u)))
    case RemoveUser(u) =>
      if u !in st.users then (st, op.(phase := Failed))
      else (DeleteUser(st, u), op.(phase := Deleted, tokens := SessionsOf(st, u)))
    case RemoveServer(x) =>
      if x !in st.servers then (st, op.(phase := Failed))
      else (DeleteServer(st, x), op.(phase := Deleted))
    case SetServers(u, wanted) =>
      if op.phase.Begun? then (st, op.(phase := BeforeRead, before := ServersOf(st, u)))
      else if u !in st.users || !(wanted <= st.servers) then (st, op.(phase := Failed))
      else
        (st.(grants := Reassigned(st, u, wanted, edit)),
         op.(phase := Deleted, todo := op.before - wanted,
             lost := map x | x in ServersOf(st, u) - wanted :: st.grants[(u, x)]))
  }

  function Remove(s: State, o: nat): State
    requires o < |s.ops| && Whole(s.store)
  {
    var (st, op) := Removal(s.store, s.ops[o], s.edits);
    s.(store := st, ops := s.ops[o := op], edits := s.edits + 1)
  }

  function Target(op: Op, pick: nat): Which {
    match op.kind
    case SignOut(t) => OfSession(t)
    case DropSessions(u) => OfUser(u)
    case RemoveUser(u) => OfUser(u)
    case RemoveServer(x) => OfServer(x)
    case SetServers(u, _) => OfUserServer(u, pick)
  }

  /** The registry call, after the store call: one, or one for each server taken away. */
  function Signal(s: State, o: nat, pick: nat): State
    requires o < |s.ops| && s.ops[o].phase.Deleted?
  {
    var op := s.ops[o];
    if op.kind.SetServers? && op.todo == {} then s.(ops := s.ops[o := op.(phase := Done)])
    else if op.kind.SetServers? then
      s.(live := Ended(s.live, Target(op, pick)), ops := s.ops[o := op.(todo := op.todo - {pick})])
    else s.(live := Ended(s.live, Target(op, pick)), ops := s.ops[o := op.(phase := Done)])
  }

  function Apply(s: State, l: Label): State
    requires Enabled(s, l)
  {
    var st := s.store;
    match l
    case AddUser => s.(store := st.(users := st.users + {s.nextUser}), nextUser := s.nextUser + 1)
    case AddServer => s.(store := st.(servers := st.servers + {s.nextServer}), nextServer := s.nextServer + 1)
    case SignIn(u, t) => s.(store := st.(sessions := st.sessions[t := u]), owners := s.owners[t := u])
    case Purge(t) => s.(store := st.(sessions := st.sessions - {t}))
    case Copy(from, to) => s.(store := st.(grants := Copied(st, from, to, s.edits)), edits := s.edits + 1)
    case Issue(t, u, x) => s.(tickets := s.tickets[t := (u, x)], ticketsIssued := s.ticketsIssued + {t})
    case Upgrade(t) =>
      s.(conns := s.conns + [Conn(st.sessions[t], t, s.generation, Upgrading, 0, 0, 0)])
    case Start(kind) => s.(ops := s.ops + [Op(kind, s.generation, Begun, {}, {}, map[], {})])
    case Step(o, pick) => if s.ops[o].phase.Deleted? then Signal(s, o, pick) else Remove(s, o)
    case Import(imported, users, servers) =>
      s.(generation := s.generation + 1, store := imported, live := Ended(s.live, Everyone), tickets := map[],
         owners := imported.sessions, nextUser := users, nextServer := servers)
    case _ => ConnStep(s, l)
  }

  predicate Init(s: State) {
    && s.generation == 0 && Whole(s.store) && s.owners == s.store.sessions
    && s.live == map[] && s.conns == [] && s.ops == [] && s.tickets == map[] && s.ticketsIssued == {}
    && (forall u | u in s.store.users :: u < s.nextUser) && (forall x | x in s.store.servers :: x < s.nextServer)
    && (forall k | k in s.store.grants :: s.store.grants[k] < s.edits)
  }

  predicate ValidRun(s: State, ls: seq<Label>)
    decreases |ls|
  {
    ls != [] ==> Enabled(s, ls[0]) && ValidRun(Apply(s, ls[0]), ls[1..])
  }

  function After(s: State, ls: seq<Label>): State
    requires ValidRun(s, ls)
    decreases |ls|
  {
    if ls == [] then s else After(Apply(s, ls[0]), ls[1..])
  }
}
