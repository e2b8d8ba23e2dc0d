/** Importing servers by name (`servers_import` in `store.rs`). Names are unique up to ASCII case, so a table is
    a map from the folded name; identifiers are never reused. */
module ServerImport {
  import opened Common
  import opened ImportParse

  datatype Group = Group(id: nat, name: string, sort: int)
  datatype Server = Server(id: nat, name: string, host: string, port: nat, group: Option<nat>, domain: Option<string>)

  datatype Tables = Tables(groups: map<string, Group>, nextGroup: nat, servers: map<string, Server>, nextServer: nat)

  const DEFAULT_PORT: nat := 3389

  /** `NOCASE`. */
  function Folded(name: string): string { LowerAll(name) }

  // ---- one row ------------------------------------------------------------------------------------

  /** One past the last position, or the first. */
  predicate IsNextSort(groups: map<string, Group>, n: int) {
    if groups == map[] then n == 0
    else (exists k | k in groups :: groups[k].sort == n - 1) && forall k | k in groups :: groups[k].sort < n
  }

  ghost function NextSort(groups: map<string, Group>): (n: int)
    ensures IsNextSort(groups, n)
  {
    SomeNextSort(groups);
    var n :| IsNextSort(groups, n); n
  }

  lemma {:induction false} SomeNextSort(groups: map<string, Group>)
    ensures exists n :: IsNextSort(groups, n)
    decreases |groups|
  {
    if groups == map[] {
      assert IsNextSort(groups, 0);
    } else {
      var k :| k in groups;
      var rest := groups - {k};
      assert rest.Keys == groups.Keys - {k} && |rest.Keys| == |rest| && |groups.Keys| == |groups|;
      SomeNextSort(rest);
      var m :| IsNextSort(rest, m);
      var s := groups[k].sort;
      assert forall j | j in groups :: j == k || (j in rest && rest[j] == groups[j]);
      if rest == map[] || m <= s {
        assert IsNextSort(groups, s + 1);
      } else {
        var j :| j in rest && rest[j].sort == m - 1;
        assert groups[j] == rest[j];
        assert IsNextSort(groups, m);
      }
    }
  }

  /** The group a row names, once it exists. */
  function GroupName(row: Row): Option<string> {
    if row.group.Some? then row.group.value else None
  }

  ghost function WithGroup(t: Tables, row: Row): Tables {
    var g := GroupName(row);
    if g.None? || Folded(g.value) in t.groups then t
    else t.(groups := t.groups[Folded(g.value) := Group(t.nextGroup, g.value, NextSort(t.groups))],
            nextGroup := t.nextGroup + 1)
  }

  function GroupId(groups: map<string, Group>, name: Option<string>): Option<nat> {
    if name.Some? && Folded(name.value) in groups then Some(groups[Folded(name.value)].id) else None
  }

  function Updated(s: Server, row: Row, group: Option<nat>): Server {
    s.(host := row.host,
       port := if row.port.Some? then row.port.value else s.port,
       group := if row.group.Some? then group else s.group,
       domain := if row.domain.Some? then row.domain.value else s.domain)
  }

  function Created(id: nat, row: Row, group: Option<nat>): Server {
    Server(id, row.name, row.host, if row.port.Some? then row.port.value else DEFAULT_PORT, group,
           if row.domain.Some? then row.domain.value else None)
  }

  ghost function ImportRow(t: Tables, row: Row): Tables {
    var t, f := WithGroup(t, row), Folded(row.name);
    var group := GroupId(t.groups, GroupName(row));
    if f in t.servers then t.(servers := t.servers[f := Updated(t.servers[f], row, group)])
    else t.(servers := t.servers[f := Created(t.nextServer, row, group)], nextServer := t.nextServer + 1)
  }

  ghost function ImportRows(t: Tables, rows: seq<Row>): Tables {
    if rows == [] then t else ImportRow(ImportRows(t, rows[..|rows| - 1]), rows[|rows| - 1])
  }

  // ---- the code -----------------------------------------------------------------------------------

  class Store {
    var t: Tables

    constructor (t: Tables)
      ensures this.t == t
    {
      this.t := t;
    }

    method GroupInsert(name: string) returns (id: Option<nat>)
      modifies this
      ensures Folded(name) in old(t).groups ==> id.None? && t == old(t)
      ensures Folded(name) !in old(t).groups ==>
                && id == Some(old(t).nextGroup)
                && var g := Group(old(t).nextGroup, name, NextSort(old(t).groups));
                   t == old(t).(groups := old(t).groups[Folded(name) := g], nextGroup := old(t).nextGroup + 1)
    {
      if Folded(name) in t.groups { return None; }
      var next := Last(t.groups);
      NextSortIsOne(t.groups, next, NextSort(t.groups));
      id := Some(t.nextGroup);
      t := t.(groups := t.groups[Folded(name) := Group(t.nextGroup, name, next)], nextGroup := t.nextGroup + 1);
    }

    /** Creates or updates servers by name, creating named groups as needed, in one transaction. */
    method ServersImport(rows: seq<Row>) returns (created: nat, updated: nat)
      modifies this
      ensures t == ImportRows(old(t), rows)
      ensures created + updated == |rows| && created == t.nextServer - old(t).nextServer
    {
      created, updated := 0, 0;
      for i := 0 to |rows|
        invariant t == ImportRows(old(t), rows[..i])
        invariant created + updated == i && created == t.nextServer - old(t).nextServer
      {
        assert rows[..i + 1][..i] == rows[..i];
        var row := rows[i];
        ghost var before := t;
        var group: Option<nat> := None;
        if row.group.Some? && row.group.value.Some? {
          var name := row.group.value.value;
          if Folded(name) in t.groups {
            group := Some(t.groups[Folded(name)].id);
          } else {
            group := GroupInsert(name);
          }
        }
        assert t == WithGroup(before, row) && group == GroupId(t.groups, GroupName(row));
        var f := Folded(row.name);
        if f in t.servers {
          t := t.(servers := t.servers[f := Updated(t.servers[f], row, group)]);
          updated := updated + 1;
        } else {
          t := t.(servers := t.servers[f := Created(t.nextServer, row, group)], nextServer := t.nextServer + 1);
          created := created + 1;
        }
      }
      assert rows[..|rows|] == rows;
    }
  }

  lemma NextSortIsOne(groups: map<string, Group>, m: int, n: int)
    requires IsNextSort(groups, m) && IsNextSort(groups, n)
    ensures m == n
  {
  }

  /** `COALESCE(MAX(sort), -1) + 1`. */
  method Last(groups: map<string, Group>) returns (n: int)
    ensures IsNextSort(groups, n)
  {
    if groups == map[] { return 0; }
    var todo := groups.Keys;
    var k :| k in todo;
    n := groups[k].sort + 1;
    ghost var top := k;
    todo := todo - {k};
    while todo != {}
      invariant todo <= groups.Keys && top in groups && groups[top].sort == n - 1
      invariant forall j | j in groups && j !in todo :: groups[j].sort < n
      decreases |todo|
    {
      var j :| j in todo;
      if groups[j].sort >= n { n, top := groups[j].sort + 1, j; }
      todo := todo - {j};
    }
  }

  // ---- the last row wins, column by column --------------------------------------------------------

  predicate Names(row: Row, f: string) { Folded(row.name) == f }

  /** The last row that gives server `f` a host, a port, a group or a domain. */
  function LastHost(rows: seq<Row>, f: string): Option<string> {
    if rows == [] then None
    else
      var row := rows[|rows| - 1];
      if Names(row, f) then Some(row.host) else LastHost(rows[..|rows| - 1], f)
  }

  function LastPort(rows: seq<Row>, f: string): Option<nat> {
    if rows == [] then None
    else
      var row := rows[|rows| - 1];
      if Names(row, f) && row.port.Some? then row.port else LastPort(rows[..|rows| - 1], f)
  }

  function LastGroup(rows: seq<Row>, f: string): Option<Option<string>> {
    if rows == [] then None
    else
      var row := rows[|rows| - 1];
      if Names(row, f) && row.group.Some? then row.group else LastGroup(rows[..|rows| - 1], f)
  }

  function LastDomain(rows: seq<Row>, f: string): Option<Option<string>> {
    if rows == [] then None
    else
      var row := rows[|rows| - 1];
      if Names(row, f) && row.domain.Some? then row.domain else LastDomain(rows[..|rows| - 1], f)
  }

  /** What a server had before, or a new one starts with. */
  function PortBefore(t: Tables, f: string): nat { if f in t.servers then t.servers[f].port else DEFAULT_PORT }
  function GroupBefore(t: Tables, f: string): Option<nat> { if f in t.servers then t.servers[f].group else None }
  function DomainBefore(t: Tables, f: string): Option<string> { if f in t.servers then t.servers[f].domain else None }

  /** Every server is what the last rows say of it and was what it was otherwise. */
  predicate LastRowWins(t: Tables, rows: seq<Row>, after: Tables, f: string)
    requires f in after.servers
  {
    var s := after.servers[f];
    && (LastHost(rows, f).Some? ==> s.host == LastHost(rows, f).value)
    && (LastHost(rows, f).None? ==> f in t.servers && s == t.servers[f])
    && (f in t.servers ==> s.id == t.servers[f].id && s.name == t.servers[f].name)
    && s.port == (if LastPort(rows, f).Some? then LastPort(rows, f).value else PortBefore(t, f))
    && s.group == (if LastGroup(rows, f).Some? then GroupId(after.groups, LastGroup(rows, f).value)
                   else GroupBefore(t, f))
    && s.domain == (if LastDomain(rows, f).Some? then LastDomain(rows, f).value else DomainBefore(t, f))
  }

  /** Groups named by rows exist afterwards, and none that existed changes. */
  ghost predicate GroupsGrow(before: map<string, Group>, after: map<string, Group>) {
    forall g | g in before :: g in after && after[g] == before[g]
  }

  predicate GroupsExist(rows: seq<Row>, groups: map<string, Group>) {
    forall i | 0 <= i < |rows| :: GroupName(rows[i]).Some? ==> Folded(GroupName(rows[i]).value) in groups
  }

  lemma {:induction false} GroupsAfter(t: Tables, rows: seq<Row>)
    ensures GroupsGrow(t.groups, ImportRows(t, rows).groups) && GroupsExist(rows, ImportRows(t, rows).groups)
  {
    if rows != [] { GroupsAfter(t, rows[..|rows| - 1]); }
  }

  lemma {:induction false} LastGroupExists(rows: seq<Row>, f: string, groups: map<string, Group>)
    requires GroupsExist(rows, groups) && LastGroup(rows, f).Some? && LastGroup(rows, f).value.Some?
    ensures Folded(LastGroup(rows, f).value.value) in groups
  {
    var row := rows[|rows| - 1];
    if !(Names(row, f) && row.group.Some?) { LastGroupExists(rows[..|rows| - 1], f, groups); }
  }

  lemma {:induction false} NamedHasHost(rows: seq<Row>, f: string)
    requires LastHost(rows, f).None?
    ensures LastPort(rows, f).None? && LastGroup(rows, f).None? && LastDomain(rows, f).None?
  {
    if rows != [] { NamedHasHost(rows[..|rows| - 1], f); }
  }

  /** What holds of server `f` after some rows. */
  ghost predicate WonSoFar(t: Tables, rows: seq<Row>, f: string) {
    var after := ImportRows(t, rows);
    && (f in after.servers <==> f in t.servers || LastHost(rows, f).Some?)
    && (f in after.servers ==> LastRowWins(t, rows, after, f))
    && GroupsExist(rows, after.groups)
  }

  /** One more row, on tables that are what the rows before it make them. */
  lemma RowWins(t: Tables, rows: seq<Row>, f: string)
    requires rows != [] && WonSoFar(t, rows[..|rows| - 1], f)
    ensures f in ImportRows(t, rows).servers ==> LastRowWins(t, rows, ImportRows(t, rows), f)
  {
    GroupStays(t, rows[..|rows| - 1], rows[|rows| - 1], f);
    if !Names(rows[|rows| - 1], f) {
      RowPasses(t, rows, f);
    } else if f in ImportRows(t, rows[..|rows| - 1]).servers {
      RowUpdates(t, rows, f);
    } else {
      RowCreates(t, rows, f);
    }
  }

  /** The group the earlier rows gave a server is the same group after one more. */
  ghost predicate GroupKept(t: Tables, rest: seq<Row>, row: Row, f: string) {
    var mid, last := ImportRows(t, rest), LastGroup(rest, f);
    last.Some? ==> GroupId(ImportRow(mid, row).groups, last.value) == GroupId(mid.groups, last.value)
  }

  lemma GroupStays(t: Tables, rest: seq<Row>, row: Row, f: string)
    requires GroupsExist(rest, ImportRows(t, rest).groups)
    ensures GroupKept(t, rest, row, f)
  {
    var mid := ImportRows(t, rest);
    if LastGroup(rest, f).Some? && LastGroup(rest, f).value.Some? { LastGroupExists(rest, f, mid.groups); }
  }

  lemma RowPasses(t: Tables, rows: seq<Row>, f: string)
    requires rows != [] && WonSoFar(t, rows[..|rows| - 1], f) && !Names(rows[|rows| - 1], f)
    requires GroupKept(t, rows[..|rows| - 1], rows[|rows| - 1], f)
    ensures f in ImportRows(t, rows).servers ==> LastRowWins(t, rows, ImportRows(t, rows), f)
  {
  }

  lemma RowUpdates(t: Tables, rows: seq<Row>, f: string)
    requires rows != [] && WonSoFar(t, rows[..|rows| - 1], f) && Names(rows[|rows| - 1], f)
    requires GroupKept(t, rows[..|rows| - 1], rows[|rows| - 1], f) && f in ImportRows(t, rows[..|rows| - 1]).servers
    ensures f in ImportRows(t, rows).servers && LastRowWins(t, rows, ImportRows(t, rows), f)
  {
  }

  lemma RowCreates(t: Tables, rows: seq<Row>, f: string)
    requires rows != [] && WonSoFar(t, rows[..|rows| - 1], f) && Names(rows[|rows| - 1], f)
    requires f !in ImportRows(t, rows[..|rows| - 1]).servers
    ensures f in ImportRows(t, rows).servers && LastRowWins(t, rows, ImportRows(t, rows), f)
  {
    NamedHasHost(rows[..|rows| - 1], f);
  }

  /** Each column of each server is the last row's that gives it, whatever rows repeat a name. */
  lemma {:induction false} ImportIsLastRowWins(t: Tables, rows: seq<Row>, f: string)
    ensures f in ImportRows(t, rows).servers <==> f in t.servers || LastHost(rows, f).Some?
    ensures f in ImportRows(t, rows).servers ==> LastRowWins(t, rows, ImportRows(t, rows), f)
  {
    if rows != [] {
      ImportIsLastRowWins(t, rows[..|rows| - 1], f);
      GroupsAfter(t, rows[..|rows| - 1]);
      RowWins(t, rows, f);
    }
  }

  // ---- again --------------------------------------------------------------------------------------

  /** The same rows once more name only groups and servers that are there. */
  lemma {:induction false} NothingNew(t: Tables, rows: seq<Row>)
    requires GroupsExist(rows, t.groups) && forall i | 0 <= i < |rows| :: Folded(rows[i].name) in t.servers
    ensures var after := ImportRows(t, rows);
            && after.groups == t.groups && after.nextGroup == t.nextGroup
            && after.servers.Keys == t.servers.Keys && after.nextServer == t.nextServer
  {
    if rows != [] { NothingNew(t, rows[..|rows| - 1]); }
  }

  lemma {:induction false} NamedAreThere(t: Tables, rows: seq<Row>, i: nat)
    requires i < |rows|
    ensures Folded(rows[i].name) in ImportRows(t, rows).servers
  {
    var n := |rows| - 1;
    if i < n {
      NamedAreThere(t, rows[..n], i);
      assert rows[..n][i] == rows[i];
    }
  }

  /** Importing the same rows again creates nothing and leaves every server and group as it is. */
  lemma ImportIsIdempotent(t: Tables, rows: seq<Row>)
    ensures ImportRows(ImportRows(t, rows), rows) == ImportRows(t, rows)
  {
    var once := ImportRows(t, rows);
    var twice := ImportRows(once, rows);
    GroupsAfter(t, rows);
    forall i | 0 <= i < |rows| ensures Folded(rows[i].name) in once.servers { NamedAreThere(t, rows, i); }
    NothingNew(once, rows);
    forall f | f in once.servers ensures twice.servers[f] == once.servers[f] {
      ImportIsLastRowWins(t, rows, f);
      ImportIsLastRowWins(once, rows, f);
      SameServer(t, rows, once, twice, f);
    }
    assert twice.servers == once.servers;
  }

  lemma SameServer(t: Tables, rows: seq<Row>, once: Tables, twice: Tables, f: string)
    requires f in once.servers && f in twice.servers && twice.groups == once.groups
    requires LastRowWins(t, rows, once, f) && LastRowWins(once, rows, twice, f)
    ensures twice.servers[f] == once.servers[f]
  {
    if LastHost(rows, f).None? { NamedHasHost(rows, f); }
  }

  /** Each server created adds one, each updated none. */
  lemma {:induction false} ImportCounts(t: Tables, rows: seq<Row>)
    ensures var after := ImportRows(t, rows);
            |after.servers| - |t.servers| == after.nextServer - t.nextServer
  {
    if rows != [] {
      ImportCounts(t, rows[..|rows| - 1]);
      var mid := ImportRows(t, rows[..|rows| - 1]);
      var after := ImportRows(t, rows);
      var f := Folded(rows[|rows| - 1].name);
      assert after.servers.Keys == mid.servers.Keys + {f};
      assert |after.servers.Keys| == |after.servers| && |mid.servers.Keys| == |mid.servers|;
    }
  }

  // ---- what is new --------------------------------------------------------------------------------

  /** The name by which rows first name a server, as it is written there. */
  function FirstName(rows: seq<Row>, f: string): Option<string> {
    if rows == [] then None
    else
      var rest, row := rows[..|rows| - 1], rows[|rows| - 1];
      if FirstName(rest, f).Some? then FirstName(rest, f) else if Names(row, f) then Some(row.name) else None
  }

  /** The same for a group. */
  function FirstGroup(rows: seq<Row>, g: string): Option<string> {
    if rows == [] then None
    else
      var rest, name := rows[..|rows| - 1], GroupName(rows[|rows| - 1]);
      if FirstGroup(rest, g).Some? then FirstGroup(rest, g)
      else if name.Some? && Folded(name.value) == g then name else None
  }

  /** Every server is new, with a name and a number of its own, or was there and has kept both. */
  predicate Numbered(t: Tables, rows: seq<Row>, after: Tables, f: string) {
    && (f in after.servers <==> f in t.servers || FirstName(rows, f).Some?)
    && (f in after.servers ==>
          if f in t.servers then after.servers[f].id == t.servers[f].id && after.servers[f].name == t.servers[f].name
          else
            && Some(after.servers[f].name) == FirstName(rows, f)
            && t.nextServer <= after.servers[f].id < after.nextServer)
  }

  lemma {:induction false} NewServers(t: Tables, rows: seq<Row>, f: string)
    ensures t.nextServer <= ImportRows(t, rows).nextServer && Numbered(t, rows, ImportRows(t, rows), f)
  {
    if rows != [] { NewServers(t, rows[..|rows| - 1], f); }
  }

  /** A server made by the import has the name of the first row that names it and a number no server had; one that
      was there keeps both. */
  lemma ServersAreNamedByTheirFirstRow(t: Tables, rows: seq<Row>, f: string)
    requires f in ImportRows(t, rows).servers
    ensures var s := ImportRows(t, rows).servers[f];
            if f in t.servers then s.id == t.servers[f].id && s.name == t.servers[f].name
            else FirstName(rows, f) == Some(s.name) && t.nextServer <= s.id < ImportRows(t, rows).nextServer
  {
    NewServers(t, rows, f);
  }

  /** A new group has the name of the first row that names it, a number no group had and a place behind every group
      there was; one that was there is as it was. */
  predicate GroupNumbered(t: Tables, rows: seq<Row>, after: Tables, g: string) {
    && (g in after.groups <==> g in t.groups || FirstGroup(rows, g).Some?)
    && (g in after.groups ==>
          if g in t.groups then after.groups[g] == t.groups[g]
          else
            && Some(after.groups[g].name) == FirstGroup(rows, g)
            && t.nextGroup <= after.groups[g].id < after.nextGroup
            && forall h | h in t.groups :: t.groups[h].sort < after.groups[g].sort)
  }

  lemma {:induction false} GroupsAreNamedByTheirFirstRow(t: Tables, rows: seq<Row>, g: string)
    ensures t.nextGroup <= ImportRows(t, rows).nextGroup && GroupNumbered(t, rows, ImportRows(t, rows), g)
  {
    if rows != [] {
      GroupsAreNamedByTheirFirstRow(t, rows[..|rows| - 1], g);
      GroupsAfter(t, rows[..|rows| - 1]);
    }
  }

  /** Numbers and names up to case tell servers apart, and the next number is not taken. */
  predicate ServerKeys(t: Tables) {
    && (forall f | f in t.servers :: t.servers[f].id < t.nextServer && Folded(t.servers[f].name) == f)
    && (forall e, f | e in t.servers && f in t.servers && e != f :: t.servers[e].id != t.servers[f].id)
  }

  /** The same for groups. */
  predicate GroupKeys(t: Tables) {
    && (forall g | g in t.groups :: t.groups[g].id < t.nextGroup && Folded(t.groups[g].name) == g)
    && (forall g, h | g in t.groups && h in t.groups && g != h :: t.groups[g].id != t.groups[h].id)
  }

  predicate KeysHold(t: Tables) { ServerKeys(t) && GroupKeys(t) }

  lemma GroupKeysHold(t: Tables, row: Row)
    requires GroupKeys(t)
    ensures GroupKeys(WithGroup(t, row))
  {
  }

  lemma ServerKeysHold(t: Tables, row: Row)
    requires ServerKeys(t)
    ensures ServerKeys(ImportRow(t, row)) && ImportRow(t, row).groups == WithGroup(t, row).groups
    ensures ImportRow(t, row).nextGroup == WithGroup(t, row).nextGroup
  {
  }

  lemma RowKeysHold(t: Tables, row: Row)
    requires KeysHold(t)
    ensures KeysHold(ImportRow(t, row))
  {
    GroupKeysHold(t, row);
    ServerKeysHold(t, row);
  }

  /** An import keeps every key: no two servers and no two groups get one number, and each stays under its name. */
  lemma {:induction false} ImportKeepsKeys(t: Tables, rows: seq<Row>)
    requires KeysHold(t)
    ensures KeysHold(ImportRows(t, rows))
  {
    if rows != [] {
      ImportKeepsKeys(t, rows[..|rows| - 1]);
      RowKeysHold(ImportRows(t, rows[..|rows| - 1]), rows[|rows| - 1]);
    }
  }
}
