/** The live registry: every WebSocket connection from the moment it is upgraded, so that one still
    setting up can be ended like an established one. `armed` is the cancel sender not yet taken. */
module Live {
  import opened Common

  datatype Entry = Entry(
    user: nat,
    token: nat,
    server: Option<nat>,
    established: bool,
    generation: nat,
    rows: Option<(int, int)>,
    armed: bool)

  type Registry = map<nat, Entry>

  /** Which connections an end names. */
  datatype Which =
    | OfUser(user: nat)
    | OfUserServer(user: nat, server: nat)
    | OfServer(server: nat)
    | OfSession(token: nat)
    | Everyone

  predicate Names(w: Which, e: Entry) {
    match w
    case OfUser(u) => e.user == u
    case OfUserServer(u, s) => e.user == u && e.server == Some(s)
    case OfServer(s) => e.server == Some(s)
    case OfSession(t) => e.token == t
    case Everyone => true
  }

  function Fired(w: Which, e: Entry): Entry {
    if Names(w, e) then e.(armed := false) else e
  }

  /** The registry after every connection `w` names has been signalled. */
  function Ended(r: Registry, w: Which): (r': Registry)
    ensures r'.Keys == r.Keys
  {
    map id | id in r :: Fired(w, r[id])
  }

  /** The connections a signal would reach for the first time. */
  function Reached(r: Registry, w: Which): set<nat> {
    set id | id in r && r[id].armed && Names(w, r[id])
  }

  /** Ending is once for each connection: a second end of the same ones reaches nobody, and no end
      arms a connection again. */
  lemma EndedOnce(r: Registry, w: Which, w': Which)
    ensures Reached(Ended(r, w), w) == {}
    ensures Reached(Ended(r, w), w') == Reached(r, w') - Reached(r, w)
    ensures Ended(Ended(r, w), w) == Ended(r, w)
  {
  }

  /** What `remove` hands back of an entry: all of it but the token and the signal. */
  datatype Gone = Gone(user: nat, server: Option<nat>, established: bool, generation: nat,
                       rows: Option<(int, int)>)

  function GoneOf(e: Entry): Gone { Gone(e.user, e.server, e.established, e.generation, e.rows) }

  /** The registry once a connection's server is known. */
  function Placed(r: Registry, id: nat, server: nat): Registry {
    if id in r then r[id := r[id].(server := Some(server))] else r
  }

  /** From then on an end of that server reaches the connection, one of another server does not, and ends by
      user, session or import reach it as before; no other connection is reached any differently. */
  lemma PlacedIsReached(r: Registry, id: nat, server: nat, w: Which)
    ensures Reached(Placed(r, id, server), w) - {id} == Reached(r, w) - {id}
    ensures id in r && r[id].armed ==>
              (id in Reached(Placed(r, id, server), w)
               <==> match w
                    case OfServer(x) => x == server
                    case OfUserServer(u, x) => u == r[id].user && x == server
                    case _ => Names(w, r[id]))
  {
    var r' := Placed(r, id, server);
    assert forall c | c != id :: c in Reached(r', w) <==> c in Reached(r, w);
  }

  class LiveSessions {
    var inner: Registry
    var next: nat

    ghost predicate Valid()
      reads this
    {
      forall id | id in inner :: id < next
    }

    constructor ()
      ensures Valid() && inner == map[] && next == 0
    {
      inner, next := map[], 0;
    }

    method Register(user: nat, token: nat, generation: nat) returns (id: nat)
      requires Valid()
      modifies this
      ensures Valid() && id !in old(inner) && next == old(next) + 1
      ensures inner == old(inner)[id := Entry(user, token, None, false, generation, None, true)]
    {
      id := next;
      next := next + 1;
      inner := inner[id := Entry(user, token, None, false, generation, None, true)];
    }

    /** Ends by server reach the connection from here on (`PlacedIsReached`); one already gone is not brought
        back. */
    method SetServer(id: nat, server: nat)
      requires Valid()
      modifies this`inner
      ensures Valid() && inner.Keys == old(inner).Keys
      ensures inner == Placed(old(inner), id, server)
      ensures id in inner && inner[id].armed ==>
                id in Reached(inner, OfServer(server)) && id in Reached(inner, OfUserServer(inner[id].user, server))
    {
      if id in inner { inner := inner[id := inner[id].(server := Some(server))]; }
    }

    /** The rows are what `Remove` will hand back with the connection, and no end reaches anyone differently. */
    method SetIncarnations(id: nat, rows: (int, int))
      requires Valid()
      modifies this`inner
      ensures Valid() && inner.Keys == old(inner).Keys
      ensures forall c | c in inner && c != id :: inner[c] == old(inner)[c]
      ensures id in inner ==>
                && inner[id] == old(inner)[id].(rows := Some(rows))
                && GoneOf(inner[id]) == GoneOf(old(inner)[id]).(rows := Some(rows))
      ensures forall w :: Reached(inner, w) == Reached(old(inner), w)
    {
      if id in inner { inner := inner[id := inner[id].(rows := Some(rows))]; }
    }

    method Remove(id: nat) returns (e: Option<Gone>)
      requires Valid()
      modifies this`inner
      ensures Valid() && inner == old(inner) - {id}
      ensures e == if id in old(inner) then Some(GoneOf(old(inner)[id])) else None
      ensures forall w :: Reached(inner, w) == Reached(old(inner), w) - {id}
    {
      if id !in inner {
        return None;
      }
      var l := inner[id];
      inner := inner - {id};
      return Some(Gone(l.user, l.server, l.established, l.generation, l.rows));
    }

    /** Signals every connection `w` names: the sender is taken and fired, once each. */
    method EndWhere(w: Which)
      requires Valid()
      modifies this`inner
      ensures Valid() && inner == Ended(old(inner), w)
    {
      ghost var r := inner;
      var todo := inner.Keys;
      while todo != {}
        invariant todo <= inner.Keys == r.Keys
        invariant forall id | id in r && id !in todo :: inner[id] == Fired(w, r[id])
        invariant forall id | id in todo :: inner[id] == r[id]
      {
        var id :| id in todo;
        if Names(w, inner[id]) && inner[id].armed {
          inner := inner[id := inner[id].(armed := false)];
        }
        todo := todo - {id};
      }
    }
  }
}
