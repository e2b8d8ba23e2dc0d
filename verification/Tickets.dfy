/** Connection tickets (`auth.rs`): one use, sixty seconds, and none left after an import. */
module Tickets {
  import opened Common

  const TICKET_TTL: nat := 60

  datatype Ticket = Ticket(user: int, server: int)
  datatype Issued = Issued(ticket: Ticket, minted: int)

  type Table = map<string, Issued>

  predicate Current(e: Issued, now: int) { now - e.minted < TICKET_TTL }

  class Tickets {
    var issued: Table

    constructor ()
      ensures issued == map[]
    {
      issued := map[];
    }

    /** `token` is random. */
    method Issue(token: string, user: int, server: int, now: int)
      modifies this
      ensures issued == Called(old(issued), Call.Issue(token, Ticket(user, server), now)).0
    {
      issued := map t | t in issued && Current(issued[t], now) :: issued[t];
      issued := issued[token := Issued(Ticket(user, server), now)];
    }

    /** The ticket is gone whether or not it was still valid. */
    method RedeemAt(token: string, at: int) returns (r: Option<Ticket>)
      modifies this
      ensures (issued, r) == Called(old(issued), Call.Redeem(token, at))
    {
      if token !in issued { return None; }
      var entry := issued[token];
      issued := issued - {token};
      return if Current(entry, at) then Some(entry.ticket) else None;
    }

    method Clear()
      modifies this
      ensures issued == map[]
    {
      issued := map[];
    }
  }

  // ---- runs ---------------------------------------------------------------------------------------

  datatype Call = Issue(token: string, ticket: Ticket, now: int) | Redeem(token: string, at: int) | Clear

  function Called(issued: Table, c: Call): (Table, Option<Ticket>) {
    match c
    case Issue(token, ticket, now) =>
      ((map t | t in issued && Current(issued[t], now) :: issued[t])[token := Issued(ticket, now)], None)
    case Redeem(token, at) =>
      if token !in issued then (issued, None)
      else (issued - {token}, if Current(issued[token], at) then Some(issued[token].ticket) else None)
    case Clear => (map[], None)
  }

  function After(issued: Table, calls: seq<Call>): Table {
    if calls == [] then issued else Called(After(issued, calls[..|calls| - 1]), calls[|calls| - 1]).0
  }

  /** What call `k` of a run answers. */
  function Answer(calls: seq<Call>, k: nat): Option<Ticket>
    requires k < |calls|
  {
    Called(After(map[], calls[..k]), calls[k]).1
  }

  /** Tokens are random: none is issued twice. */
  predicate FreshTokens(calls: seq<Call>) {
    forall i, j | 0 <= i < j < |calls| && calls[i].Issue? && calls[j].Issue? :: calls[i].token != calls[j].token
  }

  /** Where an entry of the table came from: an issue no later redeem or clear has touched. */
  predicate CameFrom(calls: seq<Call>, token: string, e: Issued, i: nat) {
    && i < |calls| && calls[i] == Issue(token, e.ticket, e.minted)
    && forall j | i < j < |calls| :: !calls[j].Clear? && !(calls[j].Redeem? && calls[j].token == token)
  }

  lemma {:induction false} EntriesWereIssued(calls: seq<Call>, token: string)
    requires FreshTokens(calls) && token in After(map[], calls)
    ensures exists i :: CameFrom(calls, token, After(map[], calls)[token], i)
    decreases |calls|
  {
    if calls != [] {
      var n := |calls| - 1;
      var rest, last := calls[..n], calls[n];
      var e := After(map[], calls)[token];
      if last.Issue? && last.token == token {
        assert CameFrom(calls, token, e, n);
      } else {
        EntriesWereIssued(rest, token);
        var i: nat :| CameFrom(rest, token, e, i);
        assert CameFrom(calls, token, e, i);
      }
    }
  }

  /** A ticket that redeems was issued less than a minute before, was not redeemed since and no import came
      between; so over any run a token redeems once. */
  lemma RedeemsOnceWhatWasIssued(calls: seq<Call>, k: nat)
    requires FreshTokens(calls) && k < |calls| && calls[k].Redeem? && Answer(calls, k).Some?
    ensures exists i ::
              && 0 <= i < k && calls[i].Issue? && calls[i].token == calls[k].token
              && calls[i].ticket == Answer(calls, k).value && calls[k].at - calls[i].now < TICKET_TTL
              && forall j | i < j < k :: !calls[j].Clear? && !(calls[j].Redeem? && calls[j].token == calls[k].token)
  {
    var before := calls[..k];
    EntriesWereIssued(before, calls[k].token);
    var i: nat :| CameFrom(before, calls[k].token, After(map[], before)[calls[k].token], i);
    assert calls[i] == before[i];
    forall j | i < j < k
      ensures !calls[j].Clear? && !(calls[j].Redeem? && calls[j].token == calls[k].token)
    {
      assert calls[j] == before[j];
    }
  }

  lemma NeverRedeemsTwice(calls: seq<Call>, j: nat, k: nat)
    requires FreshTokens(calls) && j < k < |calls|
    requires calls[j].Redeem? && calls[k].Redeem? && calls[j].token == calls[k].token
    ensures Answer(calls, j).None? || Answer(calls, k).None?
  {
    if Answer(calls, j).Some? && Answer(calls, k).Some? {
      RedeemsOnceWhatWasIssued(calls, j);
      RedeemsOnceWhatWasIssued(calls, k);
    }
  }

  // ---- exactly when -------------------------------------------------------------------------------

  function TimeOf(c: Call): int
    requires !c.Clear?
  {
    if c.Issue? then c.now else c.at
  }

  /** A clock that never runs backwards. */
  predicate Timely(calls: seq<Call>) {
    forall i, j | 0 <= i < j < |calls| && !calls[i].Clear? && !calls[j].Clear? :: TimeOf(calls[i]) <= TimeOf(calls[j])
  }

  /** Call `i` issues `ticket` under a token less than a minute before `at`, and before call `k` nothing redeems the
      token and nothing clears the table. */
  predicate Stands(calls: seq<Call>, i: nat, k: nat, token: string, ticket: Ticket, at: int) {
    && i < k <= |calls| && calls[i].Issue? && calls[i].token == token && calls[i].ticket == ticket
    && at - calls[i].now < TICKET_TTL
    && forall j | i < j < k :: !calls[j].Clear? && !(calls[j].Redeem? && calls[j].token == token)
  }

  /** Until then the ticket stays in the table, whatever is issued, redeemed and swept meanwhile. */
  lemma {:induction false} StandsInTable(calls: seq<Call>, i: nat, n: nat, k: nat, ticket: Ticket)
    requires FreshTokens(calls) && Timely(calls) && k < |calls| && calls[k].Redeem?
    requires Stands(calls, i, k, calls[k].token, ticket, calls[k].at) && i < n <= k
    ensures var t := After(map[], calls[..n]);
            calls[k].token in t && t[calls[k].token] == Issued(ticket, calls[i].now)
    decreases n
  {
    var m := n - 1;
    assert calls[..n][..m] == calls[..m] && calls[..n][m] == calls[m];
    if i < m {
      StandsInTable(calls, i, m, k, ticket);
      if calls[m].Issue? { assert TimeOf(calls[m]) <= TimeOf(calls[k]); }
    }
  }

  /** A redeem answers exactly the ticket issued under its token less than a minute before, if there is one that was
      not redeemed since and no import came between. */
  lemma RedeemsExactlyIf(calls: seq<Call>, k: nat, ticket: Ticket)
    requires FreshTokens(calls) && Timely(calls) && k < |calls| && calls[k].Redeem?
    ensures Answer(calls, k) == Some(ticket) <==>
              exists i: nat :: Stands(calls, i, k, calls[k].token, ticket, calls[k].at)
  {
    if Answer(calls, k) == Some(ticket) {
      RedeemsOnceWhatWasIssued(calls, k);
      var i :| && 0 <= i < k && calls[i].Issue? && calls[i].token == calls[k].token
               && calls[i].ticket == Answer(calls, k).value && calls[k].at - calls[i].now < TICKET_TTL
               && forall j | i < j < k :: !calls[j].Clear? && !(calls[j].Redeem? && calls[j].token == calls[k].token);
      assert Stands(calls, i, k, calls[k].token, ticket, calls[k].at);
    }
    if i: nat :| Stands(calls, i, k, calls[k].token, ticket, calls[k].at) {
      StandsInTable(calls, i, k, k, ticket);
    }
  }
}
