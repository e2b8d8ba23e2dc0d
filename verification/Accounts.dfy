/** User rows, their SIDs and their sessions (`store.rs`). Identifiers are never reused; an incarnation is drawn
    at random when a row is made. Each call is one statement or one transaction. */
module Accounts {
  import opened Common

  /** `hash` marks a local account. */
  datatype User = User(name: string, sid: Option<string>, hash: Option<string>, incarnation: int)

  datatype Tables = Tables(users: map<nat, User>, nextId: nat, assignments: map<nat, set<nat>>,
                           saved: set<(nat, nat)>, sessions: map<nat, nat>)

  predicate NameTaken(t: Tables, name: string) { exists id | id in t.users :: t.users[id].name == name }

  /** The row a caller read is still that row. */
  predicate Same(t: Tables, id: nat, incarnation: int) { id in t.users && t.users[id].incarnation == incarnation }

  // ---- what each call makes of the tables ---------------------------------------------------------

  predicate Renames(t: Tables, id: nat, incarnation: int, sid: string, name: string) {
    Same(t, id, incarnation) && t.users[id].sid == Some(sid) && t.users[id].hash.None? && !NameTaken(t, name)
  }

  function Renamed(t: Tables, id: nat, name: string): Tables
    requires id in t.users
  {
    t.(users := t.users[id := t.users[id].(name := name)])
  }

  function Inserted(t: Tables, u: User): Tables {
    t.(users := t.users[t.nextId := u], nextId := t.nextId + 1, assignments := t.assignments[t.nextId := {}])
  }

  predicate Records(t: Tables, id: nat, incarnation: int, sid: string) {
    Same(t, id, incarnation) && (t.users[id].sid.None? || t.users[id].sid == Some(sid))
  }

  function Recorded(t: Tables, id: nat, sid: string): Tables
    requires id in t.users
  {
    t.(users := t.users[id := t.users[id].(sid := Some(sid))])
  }

  function Cleared(t: Tables, id: nat): Tables
    requires id in t.users
  {
    t.(users := t.users[id := t.users[id].(sid := None)],
       saved := (set c | c in t.saved && c.0 != id),
       sessions := map s | s in t.sessions && t.sessions[s] != id :: t.sessions[s])
  }

  /** `set_assignments`: exactly `servers`; a credential for a server taken away goes with it. */
  function Assigned(t: Tables, id: nat, servers: set<nat>): Tables {
    var before := if id in t.assignments then t.assignments[id] else {};
    t.(assignments := t.assignments[id := servers],
       saved := (set c | c in t.saved && !(c.0 == id && c.1 in before && c.1 !in servers)))
  }

  function Deleted(t: Tables, id: nat): Tables {
    t.(users := t.users - {id}, assignments := t.assignments - {id},
       saved := (set c | c in t.saved && c.0 != id),
       sessions := map s | s in t.sessions && t.sessions[s] != id :: t.sessions[s])
  }

  /** No table mentions the row. */
  predicate Forgotten(t: Tables, id: nat) {
    && id !in t.users && id !in t.assignments
    && (forall c | c in t.saved :: c.0 != id) && (forall s | s in t.sessions :: t.sessions[s] != id)
  }

  /** Every other row, its servers, its saved credentials and its sessions are as they were. */
  ghost predicate OthersKept(t: Tables, t': Tables, id: nat) {
    && t'.nextId == t.nextId
    && (forall i | i != id :: (i in t.users <==> i in t'.users) && (i in t.users ==> t'.users[i] == t.users[i]))
    && (forall i | i != id ::
          && (i in t.assignments <==> i in t'.assignments)
          && (i in t.assignments ==> t'.assignments[i] == t.assignments[i]))
    && (forall c: (nat, nat) | c.0 != id :: c in t.saved <==> c in t'.saved)
    && (forall s | s in t.sessions && t.sessions[s] != id :: s in t'.sessions && t'.sessions[s] == t.sessions[s])
    && (forall s | s in t'.sessions :: s in t.sessions)
  }

  // ---- the code -----------------------------------------------------------------------------------

  class Store {
    var t: Tables

    constructor (t: Tables)
      ensures this.t == t
    {
      this.t := t;
    }

    method UserByName(name: string) returns (found: Option<nat>)
      ensures found.Some? ==> found.value in t.users && t.users[found.value].name == name
      ensures found.None? ==> !NameTaken(t, name)
    {
      var todo := t.users.Keys;
      while todo != {}
        invariant todo <= t.users.Keys
        invariant forall id | id in t.users && id !in todo :: t.users[id].name != name
        decreases |todo|
      {
        var id :| id in todo;
        if t.users[id].name == name { return Some(id); }
        todo := todo - {id};
      }
      return None;
    }

    /** Only on the row that was read, still bound to `sid`, and only while the new name is free. */
    method UserRename(id: nat, incarnation: int, sid: string, name: string) returns (done: bool)
      modifies this
      ensures done <==> Renames(old(t), id, incarnation, sid, name)
      ensures t == if done then Renamed(old(t), id, name) else old(t)
    {
      if id !in t.users || t.users[id].incarnation != incarnation { return false; }
      if t.users[id].sid != Some(sid) || t.users[id].hash.Some? { return false; }
      var taken := UserByName(name);
      if taken.Some? { return false; }
      t := t.(users := t.users[id := t.users[id].(name := name)]);
      return true;
    }

    /** The new row, or a conflict. */
    method UserCreate(name: string, incarnation: int) returns (id: Option<nat>)
      modifies this
      ensures id.None? <==> NameTaken(old(t), name)
      ensures id.None? ==> t == old(t)
      ensures id.Some? ==> id.value == old(t).nextId && t == Inserted(old(t), User(name, None, None, incarnation))
    {
      var taken := UserByName(name);
      if taken.Some? { return None; }
      id := Some(t.nextId);
      t := t.(users := t.users[t.nextId := User(name, None, None, incarnation)], nextId := t.nextId + 1,
              assignments := t.assignments[t.nextId := {}]);
    }

    /** Binds on the first sign-in; false, and nothing written, on another row or another SID. */
    method UserRecordLogin(id: nat, incarnation: int, sid: string) returns (done: bool)
      modifies this
      ensures done <==> Records(old(t), id, incarnation, sid)
      ensures t == if done then Recorded(old(t), id, sid) else old(t)
    {
      if id !in t.users || t.users[id].incarnation != incarnation { return false; }
      if t.users[id].sid.Some? && t.users[id].sid != Some(sid) { return false; }
      t := t.(users := t.users[id := t.users[id].(sid := Some(sid))]);
      return true;
    }

    method UserClearSid(id: nat) returns (found: bool)
      modifies this
      ensures found <==> id in old(t).users
      ensures t == if found then Cleared(old(t), id) else old(t)
    {
      if id !in t.users { return false; }
      t := t.(users := t.users[id := t.users[id].(sid := None)]);
      t := t.(saved := (set c | c in t.saved && c.0 != id));
      t := t.(sessions := map s | s in t.sessions && t.sessions[s] != id :: t.sessions[s]);
      return true;
    }

    /** Nothing of the row is left in any table, everything of every other row is, and its identifier is not
        free again. */
    method UserDelete(id: nat) returns (found: bool)
      modifies this
      ensures found <==> id in old(t).users
      ensures !found ==> t == old(t)
      ensures found ==> t == Deleted(old(t), id) && Forgotten(t, id) && OthersKept(old(t), t, id)
    {
      if id !in t.users { return false; }
      t := t.(users := t.users - {id});
      t := t.(assignments := t.assignments - {id});
      t := t.(saved := (set c | c in t.saved && c.0 != id));
      t := t.(sessions := map s | s in t.sessions && t.sessions[s] != id :: t.sessions[s]);
      return true;
    }

    /** A directory user of that name is refused; an existing local account keeps its SID. */
    method LocalAccountSet(name: string, hash: string, sid: string, incarnation: int) returns (id: Option<nat>)
      modifies this
      ensures id.None? ==> t == old(t) && NameTaken(old(t), name)
      ensures id.Some? && NameTaken(old(t), name) ==>
                && id.value in old(t).users && old(t).users[id.value].name == name
                && old(t).users[id.value].hash.Some?
                && t == old(t).(users := old(t).users[id.value := old(t).users[id.value].(hash := Some(hash))])
      ensures id.Some? && !NameTaken(old(t), name) ==>
                id.value == old(t).nextId && t == Inserted(old(t), User(name, Some(sid), Some(hash), incarnation))
    {
      var existing := UserByName(name);
      if existing.Some? {
        var u := t.users[existing.value];
        if u.hash.None? { return None; }
        t := t.(users := t.users[existing.value := u.(hash := Some(hash))]);
        return existing;
      }
      id := Some(t.nextId);
      t := Inserted(t, User(name, Some(sid), Some(hash), incarnation));
    }

    /** A session for the row that was authenticated, and only that row. */
    method SessionCreate(token: nat, id: nat, incarnation: int) returns (done: bool)
      requires token !in t.sessions
      modifies this
      ensures done <==> Same(old(t), id, incarnation)
      ensures t == if done then old(t).(sessions := old(t).sessions[token := id]) else old(t)
    {
      if id !in t.users || t.users[id].incarnation != incarnation { return false; }
      t := t.(sessions := t.sessions[token := id]);
      return true;
    }
  }
}
