/** What every reachable state of the protocol satisfies, and that every step keeps it. */
module FreezeInvariant {
  import opened Common
  import opened Freeze

  // ---- the locks --------------------------------------------------------------------------------

  /** An exclusive holder is the only holder, and one task at a time holds the export lock. */
  ghost predicate Excludes(s: State) {
    && (forall i, j | 0 <= i < |s.tasks| && 0 <= j < |s.tasks| ::
          UseOf(s.tasks[i]) == Holds(Exclusive) && UseOf(s.tasks[j]).Holds? ==> i == j)
    && (forall i, j | 0 <= i < |s.tasks| && 0 <= j < |s.tasks| ::
          LockOf(s.tasks[i]) == HoldsLock && LockOf(s.tasks[j]) == HoldsLock ==> i == j)
  }

  ghost predicate Distinct(q: seq<nat>) {
    forall k, m | 0 <= k < m < |q| :: q[k] != q[m]
  }

  /** The queues hold exactly what waits, each once. */
  ghost predicate Queued(s: State) {
    && Distinct(s.queue) && Distinct(s.lockQueue)
    && (forall i: nat | i in s.queue :: i < |s.tasks| && UseOf(s.tasks[i]).Waits?)
    && (forall i: nat | i in s.lockQueue :: i < |s.tasks| && LockOf(s.tasks[i]) == WaitsLock)
    && (forall i | 0 <= i < |s.tasks| :: UseOf(s.tasks[i]).Waits? ==> i in s.queue)
    && (forall i | 0 <= i < |s.tasks| :: LockOf(s.tasks[i]) == WaitsLock ==> i in s.lockQueue)
  }

  // ---- tasks ------------------------------------------------------------------------------------

  predicate Early(p: ExportPhase) { p.Checking? || p.LockWait? || p.SnapWait? || p.SnapHold? }
  predicate Freezing(p: ExportPhase) { p.Marked? || p.Snapshot? || p.Lifting? }
  /** What an export's phase says about it. */
  ghost predicate Shaped(t: Task) {
    t.Export? ==>
      && (t.froze ==> t.freeze)
      && (t.handed ==> t.ephase.ExportOver?)
      && (t.gone ==> !t.handed && !t.ephase.HandWait? && !t.ephase.HandHold?)
      && match t.ephase
         case Checking | LockWait | SnapWait | SnapHold => !t.froze && t.archive.None?
         case Marked | Lifting => t.froze && t.archive.None?
         case Snapshot => t.archive.None?
         case Packaging | RecordWait | RecordHold | Ready => t.archive.Some?
         case HandWait | HandHold | UndoWait | UndoHold | UndoLifting => t.froze && t.archive.Some?
         case ExportOver => true
  }

  /** What a task in the middle of its hold knows about the flags. */
  ghost predicate Agrees(t: Task, db: Database) {
    match t
    case Request(_, guarded, _, p, _, _, _) => p == Writing && guarded ==> !db.frozen
    case Unfreeze(p) => p == UnfreezeHalf ==> !db.frozen
    case Import(_, p) => p == Swapped ==> !db.frozen && !db.pending
    case Export(freeze, _, _, p, _, _, _) =>
      && (p == Marked ==> db.pending && !db.frozen)
      && (p == Snapshot && freeze ==> db.frozen)
      && (p == Lifting || p == UndoLifting ==> !db.frozen)
  }

  ghost predicate Swapping(s: State) {
    exists i :: 0 <= i < |s.tasks| && s.tasks[i].Import? && s.tasks[i].iphase == Swapped
  }

  /** The generation a task acts on, and the database it read in it. */
  function Record(t: Task): Option<(nat, nat)> {
    match t
    case Request(_, _, _, p, gen, from, _) =>
      if p.FirstWait? || p.FirstHold? || p.RequestOver? then None else Some((gen, from))
    case Export(_, _, _, p, gen, archive, _) =>
      if p != ExportOver && archive.Some? then Some((gen, archive.value.identity)) else None
    case _ => None
  }

  ghost predicate Current(t: Task, generation: nat) {
    && (Record(t).Some? ==> Record(t).value.0 <= generation)
    && (t.Request? && t.rechecks && t.phase == Writing ==> t.gen == generation)
    && (t.Export? && t.ephase == UndoLifting ==> t.egen == generation)
  }

  ghost predicate TasksOk(s: State) {
    forall i | 0 <= i < |s.tasks| ::
      Shaped(s.tasks[i]) && Agrees(s.tasks[i], s.db) && Current(s.tasks[i], s.generation)
  }

  /** A record of the generation being served names the database being served. */
  ghost predicate RecordsTrue(s: State) {
    !Swapping(s) ==>
      forall i | 0 <= i < |s.tasks| ::
        Record(s.tasks[i]).Some? && Record(s.tasks[i]).value.0 == s.generation ==>
          Record(s.tasks[i]).value.1 == s.db.identity
  }

  // ---- the flags --------------------------------------------------------------------------------

  /** Export `i` set a freeze in the database being served and has not settled it. */
  ghost predicate Owner(s: State, i: nat) {
    && i < |s.tasks| && s.tasks[i].Export? && s.tasks[i].froze && LockOf(s.tasks[i]) == HoldsLock
    && (Freezing(s.tasks[i].ephase) || s.tasks[i].egen == s.generation)
  }

  ghost predicate Handed(s: State, i: nat) {
    i < |s.tasks| && s.tasks[i].Export? && s.tasks[i].handed
  }

  ghost predicate Flags(s: State) {
    && (s.db.frozen && !s.db.pending ==> Handed(s, s.db.freezer))
    && (s.db.frozen && s.db.pending ==> !Handed(s, s.db.freezer))
    && (s.db.pending && s.run == Up ==> Owner(s, s.db.freezer))
    && (s.run == Starting ==> !s.db.frozen)
  }

  /** The one export that may have an unsettled freeze is the one that last marked the database. */
  ghost predicate Owned(s: State) {
    !Swapping(s) ==> forall i: nat :: Owner(s, i) ==> s.db.freezer == i
  }

  // ---- the data ---------------------------------------------------------------------------------

  ghost predicate PastMark(s: State, i: nat) {
    i < |s.tasks| && s.tasks[i].Export?
    && !Early(s.tasks[i].ephase) && !s.tasks[i].ephase.Marked?
  }

  /** A freezing export's archive: while the freeze it was taken under stands, the served data is it. */
  ghost predicate Kept(s: State, t: Task) {
    t.Export? && t.freeze && t.archive.Some? ==>
      var a := t.archive.value;
      && a.identity < s.identities
      && PastMark(s, a.freezer)
      && (a.identity == s.db.identity && s.db.frozen && s.db.freezer == a.freezer ==> a.data == s.db.data)
  }

  ghost predicate Archives(s: State) {
    forall i | 0 <= i < |s.tasks| :: Kept(s, s.tasks[i])
  }

  ghost predicate Journal(s: State) {
    s.db.identity < s.identities && forall e | e in s.db.journal && e.rechecked :: e.from == s.db.identity
  }

  ghost predicate Stopped(s: State) {
    s.run != Up ==> forall i | 0 <= i < |s.tasks| :: Over(s.tasks[i])
  }

  ghost predicate Inv(s: State) {
    Excludes(s) && Queued(s) && TasksOk(s) && RecordsTrue(s) && Flags(s) && Owned(s) && Archives(s) && Journal(s)
    && Stopped(s)
  }

  // ---- every step keeps it ----------------------------------------------------------------------

  lemma InitHolds(s: State)
    requires Init(s)
    ensures Inv(s)
  {
  }

  lemma WithoutOnly(q: seq<nat>, id: nat)
    requires Distinct(q)
    ensures Distinct(Without(q, id))
    ensures forall i: nat :: i in Without(q, id) <==> i in q && i != id
  {
    if q != [] {
      assert Distinct(q[1..]);
      WithoutOnly(q[1..], id);
      assert q == [q[0]] + q[1..];
      assert q[0] !in q[1..];
    }
  }

  /** The part of a step that replaces one task: what the new task may do with the locks. */
  ghost predicate Yields(t: Task, t': Task) {
    && (UseOf(t').Holds? ==> UseOf(t') == UseOf(t))
    && (LockOf(t') == HoldsLock ==> LockOf(t) == HoldsLock)
  }

  lemma SettleLocks(s: State, id: nat, e: Effect)
    requires Excludes(s) && Queued(s) && id < |s.tasks| && Yields(s.tasks[id], e.task)
    requires id !in s.queue && id !in s.lockQueue
    ensures Excludes(Settle(s, id, e)) && Queued(Settle(s, id, e))
  {
  }

  /** A step that is one task's own: its shape, its locks, and what it knows afterwards. */
  ghost predicate Proper(s: State, id: nat, e: Effect)
    requires id < |s.tasks|
  {
    Yields(s.tasks[id], e.task) && Shaped(e.task) && Agrees(e.task, e.db) && Current(e.task, e.generation)
  }

  ghost predicate Sound(s: State, id: nat) {
    id < |s.tasks| && Runnable(s.tasks[id])
    && Shaped(s.tasks[id]) && Agrees(s.tasks[id], s.db) && Current(s.tasks[id], s.generation)
  }

  lemma RequestProper(s: State, id: nat, ok: bool, rows: Rows)
    requires Sound(s, id) && s.tasks[id].Request?
    ensures Proper(s, id, ActRequest(s, id, ok, rows))
  {
  }

  lemma ExportShaped(s: State, id: nat, ok: bool)
    requires Sound(s, id) && s.tasks[id].Export?
    ensures Shaped(ActExport(s, id, ok).task)
  {
    var p := s.tasks[id].ephase;
    if p.Checking? || p.SnapHold? || p.Marked? || p.Snapshot? || p.Lifting? {
    } else {
    }
  }

  lemma ExportYields(s: State, id: nat, ok: bool)
    requires Sound(s, id) && s.tasks[id].Export?
    ensures Yields(s.tasks[id], ActExport(s, id, ok).task)
  {
  }

  lemma ExportProper(s: State, id: nat, ok: bool)
    requires Sound(s, id) && s.tasks[id].Export?
    ensures Proper(s, id, ActExport(s, id, ok))
  {
    ExportShaped(s, id, ok);
    ExportYields(s, id, ok);
  }

  lemma ActProper(s: State, id: nat, ok: bool, rows: Rows)
    requires Sound(s, id)
    ensures Proper(s, id, ActOn(s, id, ok, rows))
  {
    match s.tasks[id]
    case Request(_, _, _, _, _, _, _) => RequestProper(s, id, ok, rows);
    case Export(_, _, _, _, _, _, _) => ExportProper(s, id, ok);
    case Unfreeze(_) =>
    case Import(_, _) =>
  }

  /** What a step may do to the database and the generation, by how it holds the gate. A shared
      holder never sets a flag, and only guarded work in the middle of its writes changes the data. */
  ghost predicate Moves(t: Task, s: State, e: Effect) {
    && (!UseOf(t).Holds? ==> e.db == s.db)
    && (UseOf(t) != Holds(Exclusive) ==>
          && e.generation == s.generation && e.db.identity == s.db.identity && e.db.freezer == s.db.freezer
          && (e.db.frozen ==> s.db.frozen) && (e.db.pending ==> s.db.pending)
          && (e.db.data != s.db.data ==> !s.db.frozen))
  }

  lemma ActMoves(s: State, id: nat, ok: bool, rows: Rows)
    requires Sound(s, id)
    ensures Moves(s.tasks[id], s, ActOn(s, id, ok, rows))
  {
  }

  lemma ActTasks(s: State, id: nat, ok: bool, rows: Rows)
    requires Excludes(s) && TasksOk(s) && Enabled(s, Act(id, ok, rows))
    ensures TasksOk(Apply(s, Act(id, ok, rows)))
  {
    var e := ActOn(s, id, ok, rows);
    ActProper(s, id, ok, rows);
    ActMoves(s, id, ok, rows);
    forall i | 0 <= i < |s.tasks| && i != id
      ensures Shaped(s.tasks[i]) && Agrees(s.tasks[i], e.db) && Current(s.tasks[i], e.generation)
    {
      assert Shaped(s.tasks[i]) && Agrees(s.tasks[i], s.db) && Current(s.tasks[i], s.generation);
      OthersAgree(s, id, i, e, ok, rows);
    }
  }

  lemma OthersAgree(s: State, id: nat, i: nat, e: Effect, ok: bool, rows: Rows)
    requires Excludes(s) && Sound(s, id) && e == ActOn(s, id, ok, rows) && i < |s.tasks| && i != id
    requires Shaped(s.tasks[i]) && Agrees(s.tasks[i], s.db) && Current(s.tasks[i], s.generation)
    ensures Agrees(s.tasks[i], e.db) && Current(s.tasks[i], e.generation)
  {
    ActMoves(s, id, ok, rows);
    assert UseOf(s.tasks[id]) == Holds(Exclusive) ==> !UseOf(s.tasks[i]).Holds?;
    assert UseOf(s.tasks[i]) == Holds(Exclusive) ==> !UseOf(s.tasks[id]).Holds?;
    assert e.generation >= s.generation;
  }

  lemma ActLocks(s: State, id: nat, ok: bool, rows: Rows)
    requires Excludes(s) && Queued(s) && TasksOk(s) && Enabled(s, Act(id, ok, rows))
    ensures Excludes(Apply(s, Act(id, ok, rows))) && Queued(Apply(s, Act(id, ok, rows)))
  {
    ActProper(s, id, ok, rows);
    SettleLocks(s, id, ActOn(s, id, ok, rows));
  }

  lemma ActRecord(s: State, id: nat, ok: bool, rows: Rows)
    requires Sound(s, id)
    ensures var r := Record(ActOn(s, id, ok, rows).task);
            r.None? || r == Record(s.tasks[id]) || r == Some((s.generation, s.db.identity))
  {
  }

  lemma ActRecords(s: State, id: nat, ok: bool, rows: Rows)
    requires TasksOk(s) && RecordsTrue(s) && Enabled(s, Act(id, ok, rows))
    ensures RecordsTrue(Apply(s, Act(id, ok, rows)))
  {
    var e := ActOn(s, id, ok, rows);
    var s' := Apply(s, Act(id, ok, rows));
    ActRecord(s, id, ok, rows);
    ActMoves(s, id, ok, rows);
    if !Swapping(s') {
      assert !s'.tasks[id].Import? || s'.tasks[id].iphase != Swapped;
      if s.tasks[id].Import? && s.tasks[id].iphase == Swapped {
        assert forall i | 0 <= i < |s.tasks| :: Current(s.tasks[i], s.generation);
      } else {
        assert !Swapping(s) by { if Swapping(s) { StillSwapping(s, s', id); } }
        assert e.generation == s.generation && e.db.identity == s.db.identity;
      }
    }
  }

  lemma StillSwapping(s: State, s': State, id: nat)
    requires |s.tasks| == |s'.tasks| && forall i | 0 <= i < |s.tasks| && i != id :: s'.tasks[i] == s.tasks[i]
    requires id < |s.tasks| && !(s.tasks[id].Import? && s.tasks[id].iphase == Swapped)
    requires Swapping(s)
    ensures Swapping(s')
  {
    var i :| 0 <= i < |s.tasks| && s.tasks[i].Import? && s.tasks[i].iphase == Swapped;
    assert s'.tasks[i] == s.tasks[i];
  }

  lemma HolderNotSwapping(s: State, id: nat)
    requires Excludes(s) && id < |s.tasks| && UseOf(s.tasks[id]).Holds? && !s.tasks[id].Import?
    ensures !Swapping(s)
  {
  }

  /** A step of an export changes nothing about the other tasks, nor whether a swap is under way. */
  lemma ExportFrame(s: State, id: nat, ok: bool)
    requires Excludes(s) && TasksOk(s) && Owned(s) && Sound(s, id) && s.tasks[id].Export?
    ensures var s' := Settle(s, id, ActExport(s, id, ok));
            && (Swapping(s) <==> Swapping(s'))
            && (forall i: nat :: i != id ==> (Owner(s', i) <==> Owner(s, i)) && (Handed(s', i) <==> Handed(s, i)))
    ensures UseOf(s.tasks[id]).Holds? && Owner(s, id) ==> s.db.freezer == id
    ensures LockOf(s.tasks[id]) == HoldsLock ==> forall i: nat :: Owner(s, i) ==> i == id
  {
    var s' := Settle(s, id, ActExport(s, id, ok));
    if Swapping(s) { StillSwapping(s, s', id); }
    if Swapping(s') { StillSwapping(s', s, id); }
    if UseOf(s.tasks[id]).Holds? { HolderNotSwapping(s, id); }
  }

  lemma ExportOwned(s: State, id: nat, ok: bool)
    requires Excludes(s) && TasksOk(s) && Owned(s) && Sound(s, id) && s.tasks[id].Export?
    ensures Owned(Settle(s, id, ActExport(s, id, ok)))
  {
    var s' := Settle(s, id, ActExport(s, id, ok));
    ExportFrame(s, id, ok);
    ExportYields(s, id, ok);
    if !Swapping(s') {
      forall i: nat | Owner(s', i) ensures s'.db.freezer == i {
        if i != id {
          assert Owner(s, i) && LockOf(s.tasks[id]) != HoldsLock;
        } else {
          assert Owner(s, id) || s.tasks[id].ephase.SnapHold?;
        }
      }
    }
  }

  lemma ExportFlags(s: State, id: nat, ok: bool)
    requires Excludes(s) && TasksOk(s) && Flags(s) && Owned(s) && s.run == Up && Sound(s, id)
    requires s.tasks[id].Export?
    ensures Flags(Settle(s, id, ActExport(s, id, ok)))
  {
    ExportFrame(s, id, ok);
  }

  lemma RequestFlags(s: State, id: nat, ok: bool, rows: Rows)
    requires Flags(s) && Owned(s) && Sound(s, id) && s.tasks[id].Request?
    ensures var s' := Settle(s, id, ActRequest(s, id, ok, rows)); Flags(s') && Owned(s')
  {
    var s' := Settle(s, id, ActRequest(s, id, ok, rows));
    assert forall i: nat :: (Owner(s', i) <==> Owner(s, i)) && (Handed(s', i) <==> Handed(s, i));
    if Swapping(s) { StillSwapping(s, s', id); }
  }

  lemma UnfreezeFlags(s: State, id: nat, ok: bool)
    requires Flags(s) && Owned(s) && Sound(s, id) && s.tasks[id].Unfreeze?
    ensures var s' := Settle(s, id, ActUnfreeze(s, id, ok)); Flags(s') && Owned(s')
  {
    var s' := Settle(s, id, ActUnfreeze(s, id, ok));
    assert forall i: nat :: (Owner(s', i) <==> Owner(s, i)) && (Handed(s', i) <==> Handed(s, i));
    if Swapping(s) { StillSwapping(s, s', id); }
  }

  lemma ImportFlags(s: State, id: nat, ok: bool, rows: Rows)
    requires Excludes(s) && TasksOk(s) && Flags(s) && Owned(s) && Sound(s, id) && s.tasks[id].Import?
    requires s.run == Up
    ensures var s' := Settle(s, id, ActImport(s, id, ok, rows)); Flags(s') && Owned(s')
  {
    var e := ActImport(s, id, ok, rows);
    var s' := Settle(s, id, e);
    if s.tasks[id].iphase == Swapped {
      forall i: nat | i < |s.tasks| ensures !Owner(s', i) {
        assert Current(s.tasks[i], s.generation) && Shaped(s.tasks[i]);
      }
    } else if e.task.iphase == Swapped {
      assert s'.tasks[id].iphase == Swapped;
    } else {
      assert forall i: nat :: (Owner(s', i) <==> Owner(s, i)) && (Handed(s', i) <==> Handed(s, i));
      if Swapping(s) { StillSwapping(s, s', id); }
    }
  }

  function Acted(s: State, id: nat, ok: bool, rows: Rows): State
    requires id < |s.tasks| && Runnable(s.tasks[id])
  {
    Settle(s, id, ActOn(s, id, ok, rows))
  }

  lemma ActPastMark(s: State, id: nat, ok: bool, rows: Rows, i: nat)
    requires Sound(s, id) && PastMark(s, i)
    ensures PastMark(Acted(s, id, ok, rows), i)
  {
  }

  /** What an act does to the freeze and the data, for archives already taken. */
  lemma ActFreeze(s: State, id: nat, ok: bool, rows: Rows)
    requires Sound(s, id)
    ensures var db := ActOn(s, id, ok, rows).db;
            && (db.identity == s.db.identity || db.identity == s.identities)
            && (db.identity == s.db.identity && db.frozen ==>
                  || (s.db.frozen && db.freezer == s.db.freezer && db.data == s.db.data)
                  || (db.freezer == s.db.freezer && s.tasks[id].Export? && s.tasks[id].ephase == Marked))
  {
  }

  lemma ArchiveStays(s: State, id: nat, ok: bool, rows: Rows, t: Task)
    requires Excludes(s) && TasksOk(s) && Owned(s) && Sound(s, id) && Kept(s, t)
    ensures Kept(Acted(s, id, ok, rows), t)
  {
    ActFreeze(s, id, ok, rows);
    if t.Export? && t.freeze && t.archive.Some? {
      ActPastMark(s, id, ok, rows, t.archive.value.freezer);
      if s.tasks[id].Export? && s.tasks[id].ephase == Marked {
        HolderNotSwapping(s, id);
        assert Owner(s, id);
      }
    }
  }

  lemma ArchiveTaken(s: State, id: nat, ok: bool, rows: Rows)
    requires Flags(s) && Sound(s, id) && Kept(s, s.tasks[id]) && s.run == Up && Excludes(s) && TasksOk(s)
    requires s.tasks[id].Export? && s.tasks[id].ephase == Snapshot && s.db.identity < s.identities
    ensures var s' := Acted(s, id, ok, rows); Kept(s', s'.tasks[id])
  {
    if s.db.frozen && !s.db.pending { assert Shaped(s.tasks[s.db.freezer]); }
  }

  lemma ActSameArchive(s: State, id: nat, ok: bool, rows: Rows)
    requires Sound(s, id) && !(s.tasks[id].Export? && s.tasks[id].ephase == Snapshot)
    ensures var t, t' := s.tasks[id], ActOn(s, id, ok, rows).task;
            t'.Export? == t.Export? && (t.Export? ==> t'.freeze == t.freeze && t'.archive == t.archive)
  {
  }

  /** A new archive is the served data under the freeze in force; older ones stay true of it, because
      nothing changes the data while a freeze stands. */
  lemma ActArchives(s: State, id: nat, ok: bool, rows: Rows)
    requires Excludes(s) && TasksOk(s) && Owned(s) && Flags(s) && Archives(s) && Journal(s)
    requires Enabled(s, Act(id, ok, rows))
    ensures Archives(Apply(s, Act(id, ok, rows)))
  {
    var s' := Acted(s, id, ok, rows);
    assert Sound(s, id);
    forall i | 0 <= i < |s.tasks| ensures Kept(s', s'.tasks[i]) {
      assert Kept(s, s.tasks[i]);
      ArchiveStays(s, id, ok, rows, s.tasks[i]);
      if i == id {
        if s.tasks[id].Export? && s.tasks[id].ephase == Snapshot {
          ArchiveTaken(s, id, ok, rows);
        } else {
          ActSameArchive(s, id, ok, rows);
        }
      }
    }
  }

  lemma ActJournal(s: State, id: nat, ok: bool, rows: Rows)
    requires Excludes(s) && TasksOk(s) && RecordsTrue(s) && Journal(s) && Enabled(s, Act(id, ok, rows))
    ensures Journal(Apply(s, Act(id, ok, rows)))
  {
    assert Sound(s, id);
    if UseOf(s.tasks[id]).Holds? && !s.tasks[id].Import? {
      HolderNotSwapping(s, id);
      assert Record(s.tasks[id]).Some? ==> Record(s.tasks[id]).value.0 == s.generation ==>
          Record(s.tasks[id]).value.1 == s.db.identity;
    }
  }

  lemma ActKeeps(s: State, id: nat, ok: bool, rows: Rows)
    requires Inv(s) && Enabled(s, Act(id, ok, rows))
    ensures Inv(Apply(s, Act(id, ok, rows)))
  {
    ActLocks(s, id, ok, rows);
    ActTasks(s, id, ok, rows);
    ActRecords(s, id, ok, rows);
    ActArchives(s, id, ok, rows);
    ActJournal(s, id, ok, rows);
    assert Sound(s, id);
    match s.tasks[id] {
      case Request(_, _, _, _, _, _, _) => RequestFlags(s, id, ok, rows);
      case Unfreeze(_) => UnfreezeFlags(s, id, ok);
      case Import(_, _) => ImportFlags(s, id, ok, rows);
      case Export(_, _, _, _, _, _, _) => ExportFlags(s, id, ok); ExportOwned(s, id, ok);
    }
  }

  /** A task moved on without touching the database: a lock granted, or its requester gone. */
  ghost predicate Quiet(t: Task, t': Task, db: Database, generation: nat) {
    && Shaped(t') && Agrees(t', db) && Current(t', generation)
    && (Record(t').None? || Record(t') == Record(t))
    && (t'.Export? <==> t.Export?)
    && (t.Export? ==>
          && t'.freeze == t.freeze && t'.froze == t.froze && t'.egen == t.egen && t'.handed == t.handed
          && t'.archive == t.archive && Freezing(t'.ephase) == Freezing(t.ephase)
          && (t.froze ==> LockOf(t') == LockOf(t))
          && (Early(t'.ephase) || t'.ephase.Marked? <==> Early(t.ephase) || t.ephase.Marked?))
    && (t'.Import? && t'.iphase == Swapped <==> t.Import? && t.iphase == Swapped)
  }

  lemma QuietKeeps(s: State, s': State, id: nat)
    requires Inv(s) && id < |s.tasks| == |s'.tasks| && s.run == Up && Excludes(s') && Queued(s')
    requires s' == s.(tasks := s.tasks[id := s'.tasks[id]], queue := s'.queue, lockQueue := s'.lockQueue)
    requires Quiet(s.tasks[id], s'.tasks[id], s.db, s.generation)
    ensures Inv(s')
  {
    assert forall i | 0 <= i < |s.tasks| && i != id :: s'.tasks[i] == s.tasks[i];
    assert Swapping(s) ==> Swapping(s') by {
      if Swapping(s) {
        var i :| 0 <= i < |s.tasks| && s.tasks[i].Import? && s.tasks[i].iphase == Swapped;
        assert s'.tasks[i].Import? && s'.tasks[i].iphase == Swapped;
      }
    }
    assert forall i: nat :: (Owner(s', i) <==> Owner(s, i)) && (Handed(s', i) <==> Handed(s, i));
    assert forall i: nat :: PastMark(s', i) <==> PastMark(s, i);
    forall i | 0 <= i < |s.tasks| ensures Kept(s', s'.tasks[i]) {
      assert Kept(s, s.tasks[i]);
    }
  }

  lemma Pop(q: seq<nat>)
    requires Distinct(q) && q != []
    ensures Distinct(q[1..]) && q[0] !in q[1..]
    ensures forall i: nat :: i in q <==> i == q[0] || i in q[1..]
  {
    assert q == [q[0]] + q[1..];
  }

  lemma ArriveExcludes(s: State, t: Task)
    requires Excludes(s) && Enabled(s, Arrive(t))
    ensures Excludes(Apply(s, Arrive(t)))
  {
  }

  lemma ArriveQueues(s: State, t: Task)
    requires Queued(s) && Enabled(s, Arrive(t))
    ensures Queued(Apply(s, Arrive(t)))
  {
    var n, s' := |s.tasks|, Apply(s, Arrive(t));
    assert n !in s.queue;
    assert LockOf(t) != WaitsLock;
    if UseOf(t).Waits? { Push(s.queue, n); }
    assert forall i | 0 <= i < n :: s'.tasks[i] == s.tasks[i];
  }

  lemma Push(q: seq<nat>, n: nat)
    requires Distinct(q) && n !in q
    ensures Distinct(q + [n]) && forall i: nat :: i in q + [n] <==> i in q || i == n
  {
  }

  lemma ArriveRecords(s: State, t: Task)
    requires Inv(s) && Enabled(s, Arrive(t))
    ensures var s' := Apply(s, Arrive(t)); RecordsTrue(s') && Flags(s') && Owned(s')
  {
    var s' := Apply(s, Arrive(t));
    assert forall i | 0 <= i < |s.tasks| :: s'.tasks[i] == s.tasks[i];
    if Swapping(s) {
      var i :| 0 <= i < |s.tasks| && s.tasks[i].Import? && s.tasks[i].iphase == Swapped;
      assert s'.tasks[i] == s.tasks[i];
    }
    assert forall i: nat :: (Owner(s', i) <==> Owner(s, i)) && (Handed(s', i) <==> Handed(s, i));
  }

  lemma ArriveKeeps(s: State, t: Task)
    requires Inv(s) && Enabled(s, Arrive(t))
    ensures Inv(Apply(s, Arrive(t)))
  {
    var s' := Apply(s, Arrive(t));
    ArriveExcludes(s, t);
    ArriveQueues(s, t);
    ArriveRecords(s, t);
    forall i | 0 <= i < |s'.tasks| ensures Kept(s', s'.tasks[i]) {
      if i < |s.tasks| { assert Kept(s, s.tasks[i]); }
    }
  }

  ghost predicate Placed(s: State, id: nat) {
    id < |s.tasks| && Shaped(s.tasks[id]) && Agrees(s.tasks[id], s.db) && Current(s.tasks[id], s.generation)
  }

  lemma GrantLocks(s: State)
    requires Excludes(s) && Queued(s) && Enabled(s, Grant)
    ensures Excludes(Apply(s, Grant)) && Queued(Apply(s, Grant))
  {
    var t := s.tasks[s.queue[0]];
    Pop(s.queue);
    assert UseOf(Granted(t)) == Holds(UseOf(t).mode) && LockOf(Granted(t)) == LockOf(t);
  }

  lemma GrantQuiet(s: State, id: nat)
    requires Placed(s, id) && UseOf(s.tasks[id]).Waits?
    ensures Quiet(s.tasks[id], Granted(s.tasks[id]), s.db, s.generation)
  {
  }

  lemma GrantLockLocks(s: State)
    requires Excludes(s) && Queued(s) && Enabled(s, GrantLock)
    ensures Excludes(Apply(s, GrantLock)) && Queued(Apply(s, GrantLock))
  {
    GrantLockExcludes(s);
    GrantLockQueues(s);
  }

  lemma GrantLockExcludes(s: State)
    requires Excludes(s) && Queued(s) && Enabled(s, GrantLock)
    ensures Excludes(Apply(s, GrantLock))
  {
  }

  lemma GrantLockQueues(s: State)
    requires Queued(s) && Enabled(s, GrantLock)
    ensures Queued(Apply(s, GrantLock))
  {
    var id := s.lockQueue[0];
    var t := s.tasks[id].(ephase := SnapWait);
    Pop(s.lockQueue);
    assert id !in s.queue;
    Push(s.queue, id);
    assert UseOf(t).Waits? && LockOf(t) != WaitsLock;
  }

  lemma LeaveQuiet(s: State, id: nat)
    requires Placed(s, id) && CanLeave(s.tasks[id])
    ensures Quiet(s.tasks[id], Left(s.tasks[id]), s.db, s.generation)
    ensures Yields(s.tasks[id], Left(s.tasks[id])) && LockOf(Left(s.tasks[id])) == LockOf(s.tasks[id])
  {
  }

  lemma LeaveExcludes(s: State, id: nat)
    requires Excludes(s) && Placed(s, id) && Enabled(s, Leave(id))
    ensures Excludes(Apply(s, Leave(id)))
  {
    LeaveQuiet(s, id);
  }

  lemma LeaveQueues(s: State, id: nat)
    requires Queued(s) && Placed(s, id) && Enabled(s, Leave(id))
    ensures Queued(Apply(s, Leave(id)))
  {
    WithoutOnly(s.queue, id);
    LeaveQuiet(s, id);
  }

  lemma CrashFlags(s: State)
    requires Inv(s) && Enabled(s, Crash)
    ensures Flags(Apply(s, Crash)) && Archives(Apply(s, Crash))
  {
    var s' := Apply(s, Crash);
    assert forall i: nat :: Handed(s', i) <==> Handed(s, i);
    forall i | 0 <= i < |s.tasks| ensures Kept(s', s'.tasks[i]) {
      assert Kept(s, s.tasks[i]);
    }
  }

  lemma CrashKeeps(s: State)
    requires Inv(s) && Enabled(s, Crash)
    ensures Inv(Apply(s, Crash))
  {
    var s' := Apply(s, Crash);
    CrashFlags(s);
    forall i | 0 <= i < |s.tasks|
      ensures Over(s'.tasks[i]) && UseOf(s'.tasks[i]) == Idle && LockOf(s'.tasks[i]) == NoLock
      ensures Record(s'.tasks[i]).None? && Shaped(s'.tasks[i])
    {
      LostIsOver(s.tasks[i]);
    }
    assert forall i: nat :: !Owner(s', i);
  }

  lemma LostIsOver(t: Task)
    requires Shaped(t)
    ensures Over(Lost(t)) && UseOf(Lost(t)) == Idle && LockOf(Lost(t)) == NoLock
    ensures Record(Lost(t)).None? && Shaped(Lost(t))
  {
  }

  lemma BootLocks(s: State)
    requires Excludes(s) && Queued(s) && TasksOk(s) && Stopped(s) && Enabled(s, Boot)
    ensures Excludes(Apply(s, Boot)) && Queued(Apply(s, Boot)) && TasksOk(Apply(s, Boot))
  {
  }

  lemma BootFlags(s: State)
    requires Inv(s) && Enabled(s, Boot)
    ensures Flags(Apply(s, Boot)) && Owned(Apply(s, Boot))
  {
    var s' := Apply(s, Boot);
    assert forall i | 0 <= i < |s.tasks| :: Over(s.tasks[i]);
    assert forall i: nat :: !Owner(s', i) && (Handed(s', i) <==> Handed(s, i));
  }

  lemma BootKeeps(s: State)
    requires Inv(s) && Enabled(s, Boot)
    ensures Inv(Apply(s, Boot))
  {
    BootLocks(s);
    BootFlags(s);
    forall i | 0 <= i < |s.tasks| ensures Kept(Apply(s, Boot), s.tasks[i]) {
      assert Kept(s, s.tasks[i]);
    }
  }

  lemma GrantKeeps(s: State)
    requires Inv(s) && Enabled(s, Grant)
    ensures Inv(Apply(s, Grant))
  {
    assert Placed(s, s.queue[0]);
    GrantLocks(s);
    GrantQuiet(s, s.queue[0]);
    QuietKeeps(s, Apply(s, Grant), s.queue[0]);
  }

  lemma GrantLockKeeps(s: State)
    requires Inv(s) && Enabled(s, GrantLock)
    ensures Inv(Apply(s, GrantLock))
  {
    assert Placed(s, s.lockQueue[0]);
    GrantLockLocks(s);
    QuietKeeps(s, Apply(s, GrantLock), s.lockQueue[0]);
  }

  lemma LeaveKeeps(s: State, id: nat)
    requires Inv(s) && Enabled(s, Leave(id))
    ensures Inv(Apply(s, Leave(id)))
  {
    assert Placed(s, id);
    LeaveExcludes(s, id);
    LeaveQueues(s, id);
    LeaveQuiet(s, id);
    QuietKeeps(s, Apply(s, Leave(id)), id);
  }

  lemma StepKeeps(s: State, l: Label)
    requires Inv(s) && Enabled(s, l)
    ensures Inv(Apply(s, l))
  {
    match l {
      case Arrive(t) => ArriveKeeps(s, t);
      case Grant => GrantKeeps(s);
      case GrantLock => GrantLockKeeps(s);
      case Act(id, ok, rows) => ActKeeps(s, id, ok, rows);
      case Leave(id) => LeaveKeeps(s, id);
      case Crash => CrashKeeps(s);
      case Boot => BootKeeps(s);
    }
  }

  /** Every run from a fresh proxy stays inside the invariant. */
  lemma {:induction false} RunKeeps(s: State, ls: seq<Label>)
    requires Inv(s) && ValidRun(s, ls)
    ensures Inv(After(s, ls))
    decreases |ls|
  {
    if ls != [] {
      StepKeeps(s, ls[0]);
      RunKeeps(Apply(s, ls[0]), ls[1..]);
    }
  }
}
