/** The protocol's promises, over every run from a fresh proxy: any interleaving of requests, exports,
    imports, unfreezes, requesters going away, crashes and starts. */
module FreezeTheorems {
  import opened Common
  import opened Freeze
  import opened FreezeInvariant

  ghost predicate Reachable(s: State) {
    exists s0, ls :: Init(s0) && ValidRun(s0, ls) && s == After(s0, ls)
  }

  lemma ReachableInv(s: State)
    requires Reachable(s)
    ensures Inv(s)
  {
    var s0, ls :| Init(s0) && ValidRun(s0, ls) && s == After(s0, ls);
    InitHolds(s0);
    RunKeeps(s0, ls);
  }

  // ---- the freeze ---------------------------------------------------------------------------------

  /** A freeze no longer pending is one whose export was handed over, and a pending one is not. */
  lemma FreezeMeansHandedOver(s: State)
    requires Reachable(s) && s.db.frozen
    ensures s.db.pending <==> !Handed(s, s.db.freezer)
  {
    ReachableInv(s);
  }

  ghost predicate OnlyRestarts(ls: seq<Label>) {
    forall i | 0 <= i < |ls| :: ls[i] == Boot || ls[i] == Crash
  }

  /** The freeze a restart keeps, and all of the database but its flags. */
  ghost predicate SameButPending(db: Database, db': Database) {
    && (db'.frozen && !db'.pending <==> db.frozen && !db.pending)
    && db'.(frozen := db.frozen, pending := db.pending) == db
  }

  lemma RestartStep(s: State, l: Label)
    requires Flags(s) && Enabled(s, l) && (l == Boot || l == Crash)
    ensures var s' := Apply(s, l);
            SameButPending(s.db, s'.db) && (s'.run == Up ==> !s'.db.pending)
  {
  }

  lemma {:induction false} RestartsKeepSettled(s: State, ls: seq<Label>)
    requires Inv(s) && ValidRun(s, ls) && OnlyRestarts(ls) && (s.run == Up ==> !s.db.pending)
    ensures var s' := After(s, ls); SameButPending(s.db, s'.db) && (s'.run == Up ==> !s'.db.pending)
    decreases |ls|
  {
    if ls != [] {
      StepKeeps(s, ls[0]);
      RestartStep(s, ls[0]);
      RestartsKeepSettled(Apply(s, ls[0]), ls[1..]);
    }
  }

  /** However often a restart is itself interrupted, the service that comes up is frozen exactly when
      the freeze it went down with had been handed over; the rest of the database is untouched. */
  lemma RestartSettlesFreeze(s: State, ls: seq<Label>)
    requires Reachable(s) && s.run == Down && ValidRun(s, ls) && OnlyRestarts(ls) && After(s, ls).run == Up
    ensures var db := After(s, ls).db;
            && (db.frozen <==> s.db.frozen && Handed(s, s.db.freezer))
            && !db.pending && db.data == s.db.data && db.identity == s.db.identity
  {
    ReachableInv(s);
    RestartsKeepSettled(s, ls);
  }

  /** A freezing export that finds the proxy frozen finds an earlier freeze, settled and handed over,
      and takes its snapshot without owning it. */
  lemma ExportFindsSettledFreeze(s: State, id: nat, rows: Rows)
    requires Reachable(s) && Enabled(s, Act(id, true, rows)) && s.tasks[id].Export?
    requires s.tasks[id].freeze && s.tasks[id].ephase == SnapHold && !s.tasks[id].gone && s.db.frozen
    ensures !s.db.pending && Handed(s, s.db.freezer) && s.db.freezer != id
    ensures var s' := Apply(s, Act(id, true, rows)); s'.db == s.db && !s'.tasks[id].froze
  {
    ReachableInv(s);
    assert Shaped(s.tasks[id]);
  }

  /** An export that set no freeze never touches the flags again, however it ends. */
  lemma OthersFreezeUntouched(s: State, id: nat, ok: bool, rows: Rows)
    requires Reachable(s) && Enabled(s, Act(id, ok, rows)) && s.tasks[id].Export?
    requires !s.tasks[id].froze && s.tasks[id].ephase != SnapHold
    ensures var s' := Apply(s, Act(id, ok, rows));
            s'.db.frozen == s.db.frozen && s'.db.pending == s.db.pending && !s'.tasks[id].froze
  {
    ReachableInv(s);
    assert Shaped(s.tasks[id]);
  }

  /** An undo that finds a freeze in its own database lifts the freeze it set, never a handed-over one. */
  lemma UndoLiftsOwnFreeze(s: State, id: nat)
    requires Reachable(s) && id < |s.tasks| && s.tasks[id].Export? && s.tasks[id].ephase == UndoHold
    requires s.tasks[id].egen == s.generation && s.db.frozen
    ensures s.db.freezer == id && s.db.pending && !Handed(s, id)
  {
    ReachableInv(s);
    assert Shaped(s.tasks[id]);
    HolderNotSwapping(s, id);
    assert Owner(s, id);
  }

  // ---- the data -----------------------------------------------------------------------------------

  /** While the freeze an archive was taken under is in force, the served data is the archive's. A freeze set
      again names another export, so `freezer` tells them apart. */
  lemma FrozenDataIsArchived(s: State, id: nat)
    requires Reachable(s) && id < |s.tasks| && s.tasks[id].Export? && s.tasks[id].freeze
    requires s.tasks[id].archive.Some? && s.db.frozen
    ensures var a := s.tasks[id].archive.value;
            a.identity == s.db.identity && a.freezer == s.db.freezer ==> a.data == s.db.data
  {
    ReachableInv(s);
    assert Kept(s, s.tasks[id]);
  }

  /** The steps that end a freeze: an unfreeze, an import's swap, an undo in its own database, the clean-up after
      a failed snapshot, and a start that finds the freeze undelivered. */
  predicate Lifts(s: State, l: Label)
    requires Enabled(s, l)
  {
    match l
    case Act(id, ok, _) => (
      match s.tasks[id]
      case Unfreeze(p) => p.UnfreezeHold? && ok
      case Import(gone, p) => p.ImportHold? && !gone && ok
      case Export(_, _, froze, p, gen, _, _) =>
        (p.UndoHold? && gen == s.generation) || (p.Snapshot? && !ok && froze)
      case Request(_, _, _, _, _, _, _) => false)
    case Boot => s.run == Down && s.db.pending
    case _ => false
  }

  /** Exactly these steps end a freeze. Every other one, of anything, leaves the flag up, on the same freeze of the
      same database with the same data. */
  lemma FreezeLastsUntilLifted(s: State, l: Label)
    requires Inv(s) && Enabled(s, l) && s.db.frozen
    ensures var db := Apply(s, l).db;
            && (db.frozen <==> !Lifts(s, l))
            && (!Lifts(s, l) ==> db.identity == s.db.identity && db.freezer == s.db.freezer && db.data == s.db.data)
  {
    if l.Act? {
      assert Sound(s, l.id);
      ActFreeze(s, l.id, l.ok, l.rows);
      ActMoves(s, l.id, l.ok, l.rows);
      ActLifts(s, l.id, l.ok, l.rows);
    } else {
      OthersEditNothing(s, l);
    }
  }

  lemma ActLifts(s: State, id: nat, ok: bool, rows: Rows)
    requires Sound(s, id) && Enabled(s, Act(id, ok, rows)) && s.db.frozen
    ensures ActOn(s, id, ok, rows).db.frozen <==> !Lifts(s, Act(id, ok, rows))
    ensures ActOn(s, id, ok, rows).db.frozen ==> ActOn(s, id, ok, rows).db.identity == s.db.identity
  {
    if s.tasks[id].Export? { ExportLifts(s, id, ok); }
  }

  lemma ExportLifts(s: State, id: nat, ok: bool)
    requires Sound(s, id) && s.tasks[id].Export? && s.db.frozen && Runnable(s.tasks[id])
    ensures var t, db := s.tasks[id], ActExport(s, id, ok).db;
            && db.identity == s.db.identity
            && (db.frozen <==> !(|| (t.ephase.UndoHold? && t.egen == s.generation)
                                 || (t.ephase.Snapshot? && !ok && t.froze)))
  {
    var p := s.tasks[id].ephase;
    if p.Checking? || p.SnapHold? || p.Marked? || p.Snapshot? || p.Lifting? {
    } else {
    }
  }

  predicate NothingLifts(s: State, ls: seq<Label>)
    requires ValidRun(s, ls)
    decreases |ls|
  {
    ls != [] ==> !Lifts(s, ls[0]) && NothingLifts(Apply(s, ls[0]), ls[1..])
  }

  lemma {:induction false} FreezeLasts(s: State, ls: seq<Label>)
    requires Inv(s) && s.db.frozen && ValidRun(s, ls) && NothingLifts(s, ls)
    ensures var db := After(s, ls).db;
            db.frozen && db.identity == s.db.identity && db.freezer == s.db.freezer && db.data == s.db.data
    decreases |ls|
  {
    if ls != [] {
      FreezeLastsUntilLifted(s, ls[0]);
      StepKeeps(s, ls[0]);
      FreezeLasts(Apply(s, ls[0]), ls[1..]);
    }
  }

  /** From the moment a freezing export takes its snapshot, whatever requests, records, hand-overs, other exports,
      crashes and starts follow, the proxy stays frozen and serves the archive's data until a step that ends the
      freeze. */
  lemma SnapshotHolds(s: State, id: nat, rows: Rows, ls: seq<Label>)
    requires Reachable(s) && Enabled(s, Act(id, true, rows))
    requires s.tasks[id].Export? && s.tasks[id].freeze && s.tasks[id].ephase == Snapshot
    requires var taken := Apply(s, Act(id, true, rows)); ValidRun(taken, ls) && NothingLifts(taken, ls)
    ensures var taken := Apply(s, Act(id, true, rows));
            var db := After(taken, ls).db;
            && taken.tasks[id].archive.Some?
            && db.frozen && db.identity == taken.tasks[id].archive.value.identity
            && db.data == taken.tasks[id].archive.value.data
  {
    ReachableInv(s);
    assert Agrees(s.tasks[id], s.db);
    StepKeeps(s, Act(id, true, rows));
    FreezeLasts(Apply(s, Act(id, true, rows)), ls);
  }

  /** No step changes the protected data of a frozen database; only another database replaces it. */
  lemma NoEditWhileFrozen(s: State, l: Label)
    requires Reachable(s) && Enabled(s, l) && s.db.frozen
    ensures Apply(s, l).db.data == s.db.data || Apply(s, l).db.identity != s.db.identity
  {
    ReachableInv(s);
    if l.Act? {
      assert Sound(s, l.id);
      ActFreeze(s, l.id, l.ok, l.rows);
      ActMoves(s, l.id, l.ok, l.rows);
    } else {
      OthersEditNothing(s, l);
    }
  }

  lemma OthersEditNothing(s: State, l: Label)
    requires Enabled(s, l) && !l.Act?
    ensures Apply(s, l).db.data == s.db.data
  {
  }

  /** A freezing export's snapshot is taken, and its freeze set, with no request inside the gate: every
      acknowledged edit is whole in it, and none is halfway. */
  lemma SnapshotSeesWholeEdits(s: State, id: nat, other: nat)
    requires Reachable(s) && id < |s.tasks| && s.tasks[id].Export? && s.tasks[id].freeze
    requires s.tasks[id].ephase == Snapshot && other < |s.tasks| && other != id
    ensures !UseOf(s.tasks[other]).Holds?
    ensures s.db.frozen
  {
    ReachableInv(s);
    assert Agrees(s.tasks[id], s.db);
  }

  /** Every write made by work that read under a hold, left the gate and compared generations when it came back is
      in the database its reads came from. */
  lemma WritesLandWhereReadsCameFrom(s: State, e: Entry)
    requires Reachable(s) && e in s.db.journal
    ensures e.rechecked ==> e.from == s.db.identity
  {
    ReachableInv(s);
  }

  // ---- a record that does not compare generations -----------------------------------------------------

  ghost predicate Closed(P: State -> bool) {
    forall s, l | P(s) && Enabled(s, l) :: P(Apply(s, l))
  }

  lemma {:induction false} Extend(s: State, ls: seq<Label>, l: Label)
    requires ValidRun(s, ls) && Enabled(After(s, ls), l)
    ensures ValidRun(s, ls + [l]) && After(s, ls + [l]) == Apply(After(s, ls), l)
    decreases |ls|
  {
    if ls == [] {
      assert [l][1..] == [];
    } else {
      Extend(Apply(s, ls[0]), ls[1..], l);
      assert (ls + [l])[1..] == ls[1..] + [l];
    }
  }

  lemma ReachableClosed()
    ensures Closed(x => Reachable(x)) && Reachable(EMPTY)
  {
    forall s, l | Reachable(s) && Enabled(s, l) ensures Reachable(Apply(s, l)) {
      var s0, ls :| Init(s0) && ValidRun(s0, ls) && s == After(s0, ls);
      Extend(s0, ls, l);
    }
    assert ValidRun(EMPTY, []) && After(EMPTY, []) == EMPTY;
  }

  const EMPTY := State(Down, Database(0, map[], false, false, 0, []), 0, [], [], [], 1)

  /** The record of a refusal, and an import. */
  const RECORD := Request(true, false, 1, FirstWait, 0, 0, false)
  const IMPORT := Task.Import(false, ImportWait)

  lemma Next(P: State -> bool, s: State, l: Label, s': State)
    requires Closed(P) && P(s) && Enabled(s, l) && Apply(s, l) == s'
    ensures P(s')
  {
  }

  /** The record's work reads the first database and leaves the gate. */
  lemma RecordLeaves(P: State -> bool) returns (s: State)
    requires Closed(P) && P(EMPTY)
    ensures s == EMPTY.(run := Up, tasks := [RECORD.(phase := Out)]) && P(s)
  {
    var up := EMPTY.(run := Up);
    Next(P, EMPTY, Boot, up);
    var s1 := up.(tasks := [RECORD], queue := [0]);
    Next(P, up, Arrive(RECORD), s1);
    var s2 := up.(tasks := [RECORD.(phase := FirstHold)]);
    Next(P, s1, Grant, s2);
    s := up.(tasks := [RECORD.(phase := Out)]);
    Next(P, s2, Act(0, true, map[]), s);
  }

  const OTHER := Database(1, map[], false, false, 0, [])

  /** An import puts another database in its place. */
  lemma ImportSwaps(P: State -> bool, s: State) returns (s': State)
    requires Closed(P) && P(s) && s == EMPTY.(run := Up, tasks := [RECORD.(phase := Out)])
    ensures s' == State(Up, OTHER, 1, [RECORD.(phase := Out), IMPORT.(iphase := ImportOver)], [], [], 2) && P(s')
  {
    var s1 := s.(tasks := [RECORD.(phase := Out), IMPORT], queue := [1]);
    Next(P, s, Arrive(IMPORT), s1);
    var s2 := s.(tasks := [RECORD.(phase := Out), IMPORT.(iphase := ImportHold)]);
    Next(P, s1, Grant, s2);
    var s3 := s.(db := OTHER, tasks := [RECORD.(phase := Out), IMPORT.(iphase := Swapped)], identities := 2);
    Next(P, s2, Act(1, true, map[]), s3);
    s' := State(Up, OTHER, 1, [RECORD.(phase := Out), IMPORT.(iphase := ImportOver)], [], [], 2);
    Next(P, s3, Act(1, true, map[]), s');
  }

  /** The work comes back, and records. */
  lemma RecordReturns(P: State -> bool, s: State) returns (s': State)
    requires Closed(P) && P(s)
    requires s == State(Up, OTHER, 1, [RECORD.(phase := Out), IMPORT.(iphase := ImportOver)], [], [], 2)
    ensures s' == s.(tasks := [RECORD.(phase := Writing), IMPORT.(iphase := ImportOver)]) && P(s')
  {
    var over := IMPORT.(iphase := ImportOver);
    var s1 := s.(tasks := [RECORD.(phase := BackWait), over], queue := [0]);
    Next(P, s, Act(0, true, map[]), s1);
    var s2 := s.(tasks := [RECORD.(phase := BackHold), over]);
    Next(P, s1, Grant, s2);
    s' := s.(tasks := [RECORD.(phase := Writing), over]);
    Next(P, s2, Act(0, true, map[]), s');
  }

  lemma RecordWrites(P: State -> bool, s: State) returns (s': State)
    requires Closed(P) && P(s)
    requires s == State(Up, OTHER, 1, [RECORD.(phase := Writing), IMPORT.(iphase := ImportOver)], [], [], 2)
    ensures s'.db == OTHER.(journal := [Entry(0, 0, false)]) && P(s')
  {
    var over := IMPORT.(iphase := ImportOver);
    s' := s.(db := OTHER.(journal := [Entry(0, 0, false)]), tasks := [RECORD.(phase := Writing, writes := 0), over]);
    Next(P, s, Act(0, true, map[]), s');
  }

  /** Comparing generations is what the promise rests on: the activity record of a refused single sign-on, which
      does not, is in one reachable state in another database than the work read. */
  lemma UncheckedRecordLandsElsewhere() returns (s: State, e: Entry)
    ensures Reachable(s) && e in s.db.journal && !e.rechecked && e.from != s.db.identity
  {
    ReachableClosed();
    var P := x => Reachable(x);
    s := RecordLeaves(P);
    s := ImportSwaps(P, s);
    s := RecordReturns(P, s);
    s := RecordWrites(P, s);
    e := Entry(0, 0, false);
    assert s.db.journal[0] == e;
  }

  /** All writes of one kind land where their reads came from, in every reachable state. */
  ghost predicate AlwaysLand(rechecked: bool) {
    forall s: State, e: Entry | Reachable(s) && e in s.db.journal && e.rechecked == rechecked :: e.from == s.db.identity
  }

  /** Exactly the writes whose work compares generations do. */
  lemma LandExactlyIfRechecked(rechecked: bool)
    ensures AlwaysLand(rechecked) <==> rechecked
  {
    if rechecked {
      forall s: State, e: Entry | Reachable(s) && e in s.db.journal && e.rechecked ensures e.from == s.db.identity {
        WritesLandWhereReadsCameFrom(s, e);
      }
    } else {
      var s, e := UncheckedRecordLandsElsewhere();
    }
  }

  // ---- no deadlock --------------------------------------------------------------------------------

  /** Steps the proxy takes by itself, with nothing new from outside. */
  predicate Internal(l: Label) { l.Grant? || l.GrantLock? || l.Act? }

  ghost predicate AllInternal(ls: seq<Label>) {
    forall i | 0 <= i < |ls| :: Internal(ls[i])
  }

  ghost predicate Unfinished(s: State) {
    exists i :: 0 <= i < |s.tasks| && !Over(s.tasks[i])
  }

  /** With unfinished work, something can always step. */
  lemma SomethingCanStep(s: State) returns (l: Label)
    requires Inv(s) && s.run == Up && Unfinished(s)
    ensures Internal(l) && Enabled(s, l)
  {
    if i :| 0 <= i < |s.tasks| && Runnable(s.tasks[i]) {
      return Act(i, true, map[]);
    }
    assert forall i | 0 <= i < |s.tasks| :: UseOf(s.tasks[i]).Holds? ==> Runnable(s.tasks[i]);
    if s.queue != [] {
      assert s.queue[0] in s.queue;
      return Grant;
    }
    LockIsFree(s);
    return GrantLock;
  }

  /** With nothing runnable and nobody at the gate, what is unfinished waits for a free export lock. */
  lemma LockIsFree(s: State)
    requires Inv(s) && Unfinished(s) && s.queue == [] && s.run == Up
    requires forall i | 0 <= i < |s.tasks| :: !Runnable(s.tasks[i])
    ensures Enabled(s, GrantLock)
  {
    var w :| 0 <= w < |s.tasks| && !Over(s.tasks[w]);
    assert w in s.lockQueue;
    assert s.lockQueue[0] in s.lockQueue;
    assert forall i | 0 <= i < |s.tasks| && LockOf(s.tasks[i]) == HoldsLock ::
        Runnable(s.tasks[i]) || UseOf(s.tasks[i]).Waits?;
  }

  /** Steps a task may still take by itself. */
  function Rank(t: Task): nat {
    match t
    case Request(_, _, writes, p, _, _, _) => (
      match p
      case FirstWait => writes + 6 case FirstHold => writes + 5 case Out => writes + 4
      case BackWait => writes + 3 case BackHold => writes + 2 case Writing => writes + 1
      case RequestOver => 0)
    case Unfreeze(p) => (
      match p
      case UnfreezeWait => 3 case UnfreezeHold => 2 case UnfreezeHalf => 1 case UnfreezeOver => 0)
    case Import(_, p) => (
      match p
      case ImportWait => 3 case ImportHold => 2 case Swapped => 1 case ImportOver => 0)
    case Export(_, _, _, p, _, _, _) =>
      match p
      case Checking => 16 case LockWait => 15 case SnapWait => 14 case SnapHold => 13 case Marked => 12
      case Snapshot => 11 case Lifting => 10 case Packaging => 9 case RecordWait => 8 case RecordHold => 7
      case Ready => 6 case HandWait => 5 case HandHold => 4
      case UndoWait => 3 case UndoHold => 2 case UndoLifting => 1 case ExportOver => 0
  }

  function Work(ts: seq<Task>): nat {
    if ts == [] then 0 else Rank(ts[0]) + Work(ts[1..])
  }

  lemma {:induction false} WorkDrops(ts: seq<Task>, i: nat, t: Task)
    requires i < |ts| && Rank(t) < Rank(ts[i])
    ensures Work(ts[i := t]) < Work(ts)
  {
    if i == 0 {
      assert ts[i := t][1..] == ts[1..];
    } else {
      WorkDrops(ts[1..], i - 1, t);
      assert ts[i := t][1..] == ts[1..][i - 1 := t];
    }
  }

  lemma ExportRankDrops(s: State, id: nat, ok: bool)
    requires id < |s.tasks| && s.tasks[id].Export? && Runnable(s.tasks[id])
    ensures Rank(ActExport(s, id, ok).task) < Rank(s.tasks[id])
  {
    var p := s.tasks[id].ephase;
    if p.Checking? || p.SnapHold? || p.Marked? || p.Snapshot? || p.Lifting? {
    } else {
    }
  }

  lemma ActRankDrops(s: State, id: nat, ok: bool, rows: Rows)
    requires id < |s.tasks| && Runnable(s.tasks[id])
    ensures Rank(ActOn(s, id, ok, rows).task) < Rank(s.tasks[id])
  {
    if s.tasks[id].Export? { ExportRankDrops(s, id, ok); }
  }

  lemma InternalDrops(s: State, l: Label)
    requires Internal(l) && Enabled(s, l)
    ensures Work(Apply(s, l).tasks) < Work(s.tasks) && Apply(s, l).run == Up
  {
    match l {
      case Grant => WorkDrops(s.tasks, s.queue[0], Granted(s.tasks[s.queue[0]]));
      case GrantLock => WorkDrops(s.tasks, s.lockQueue[0], s.tasks[s.lockQueue[0]].(ephase := SnapWait));
      case Act(id, ok, rows) =>
        ActRankDrops(s, id, ok, rows);
        WorkDrops(s.tasks, id, ActOn(s, id, ok, rows).task);
    }
  }

  lemma {:induction false} InternalRunsEnd(s: State, ls: seq<Label>)
    requires Inv(s) && ValidRun(s, ls) && AllInternal(ls)
    ensures |ls| <= Work(s.tasks)
    decreases |ls|
  {
    if ls != [] {
      StepKeeps(s, ls[0]);
      InternalDrops(s, ls[0]);
      InternalRunsEnd(Apply(s, ls[0]), ls[1..]);
    }
  }

  /** No deadlock and no livelock: left to itself, a serving proxy takes a bounded number of steps
      whatever order it takes them in, and while any work is unfinished one more is possible. */
  lemma WorkDrains(s: State, ls: seq<Label>)
    requires Reachable(s) && s.run == Up && ValidRun(s, ls) && AllInternal(ls)
    ensures |ls| <= Work(s.tasks)
    ensures Unfinished(After(s, ls)) ==> exists l :: Internal(l) && Enabled(After(s, ls), l)
  {
    ReachableInv(s);
    InternalRunsEnd(s, ls);
    RunKeeps(s, ls);
    StaysUp(s, ls);
    if Unfinished(After(s, ls)) {
      var l := SomethingCanStep(After(s, ls));
    }
  }

  /** Once everything has finished, a freeze that remains was handed over. */
  lemma DrainedFreezeIsDelivered(s: State)
    requires Reachable(s) && s.run == Up && !Unfinished(s)
    ensures !s.db.pending
    ensures s.db.frozen ==> Handed(s, s.db.freezer)
  {
    ReachableInv(s);
  }

  /** And an export whose requester went away before the hand-over left none. */
  lemma AbandonedExportLeavesNoFreeze(s: State, id: nat)
    requires Reachable(s) && s.run == Up && !Unfinished(s)
    requires id < |s.tasks| && s.tasks[id].Export? && s.tasks[id].gone
    ensures !(s.db.frozen && s.db.freezer == id)
  {
    ReachableInv(s);
    assert Shaped(s.tasks[id]);
  }

  lemma {:induction false} StaysUp(s: State, ls: seq<Label>)
    requires s.run == Up && ValidRun(s, ls) && AllInternal(ls)
    ensures After(s, ls).run == Up
    decreases |ls|
  {
    if ls != [] { StaysUp(Apply(s, ls[0]), ls[1..]); }
  }
}
