/** What the protocol brings about: no acknowledged edit is missing, a request ends short exactly when something
    refuses it, and an export nothing disturbs is handed over with the data it was to hold. */
module FreezeEdits {
  import opened Common
  import opened Freeze
  import opened FreezeInvariant
  import opened FreezeTheorems

  // ---- edits --------------------------------------------------------------------------------------

  /** The steps that write the protected data: a write of a guarded request, and an import's swap. */
  predicate Edits(s: State, l: Label)
    requires Enabled(s, l)
  {
    l.Act? &&
    match s.tasks[l.id]
    case Request(_, guarded, writes, p, _, _, _) => guarded && p.Writing? && writes > 0
    case Import(gone, p) => p.ImportHold? && !gone && l.ok
    case _ => false
  }

  lemma EditStep(s: State, l: Label)
    requires Enabled(s, l)
    ensures Apply(s, l).db.data == if Edits(s, l) then l.rows else s.db.data
  {
    if !l.Act? {
      OthersEditNothing(s, l);
    } else if s.tasks[l.id].Export? {
      ExportEditsNothing(s, l.id, l.ok);
    }
  }

  lemma ExportEditsNothing(s: State, id: nat, ok: bool)
    requires id < |s.tasks| && s.tasks[id].Export? && Runnable(s.tasks[id])
    ensures ActExport(s, id, ok).db.data == s.db.data
  {
  }

  /** What the last edit of a run wrote, or `rows` if there was none. */
  function LastEdit(s: State, ls: seq<Label>, rows: Rows): Rows
    requires ValidRun(s, ls)
    decreases |ls|
  {
    if ls == [] then rows
    else LastEdit(Apply(s, ls[0]), ls[1..], if Edits(s, ls[0]) then ls[0].rows else rows)
  }

  /** Over any run the database holds exactly what was written to it last: every acknowledged edit is there, through
      freezes, exports, crashes and starts, and nothing else gets in. */
  lemma {:induction false} DataIsLastEdit(s: State, ls: seq<Label>)
    requires ValidRun(s, ls)
    ensures After(s, ls).db.data == LastEdit(s, ls, s.db.data)
    decreases |ls|
  {
    if ls != [] {
      EditStep(s, ls[0]);
      DataIsLastEdit(Apply(s, ls[0]), ls[1..]);
    }
  }

  predicate NothingEdits(s: State, ls: seq<Label>)
    requires ValidRun(s, ls)
    decreases |ls|
  {
    ls != [] ==> !Edits(s, ls[0]) && NothingEdits(Apply(s, ls[0]), ls[1..])
  }

  lemma {:induction false} NoLaterEdit(s: State, ls: seq<Label>, rows: Rows)
    requires ValidRun(s, ls) && NothingEdits(s, ls)
    ensures LastEdit(s, ls, rows) == rows
    decreases |ls|
  {
    if ls != [] { NoLaterEdit(Apply(s, ls[0]), ls[1..], rows); }
  }

  /** An edit lasts until the next one, and an export that takes its snapshot meanwhile has it. */
  lemma AcknowledgedEditIsArchived(s: State, id: nat, ok: bool, rows: Rows, ls: seq<Label>, x: nat, any: Rows)
    requires Enabled(s, Act(id, ok, rows)) && Edits(s, Act(id, ok, rows))
    requires var wrote := Apply(s, Act(id, ok, rows)); ValidRun(wrote, ls) && NothingEdits(wrote, ls)
    ensures var end := After(Apply(s, Act(id, ok, rows)), ls);
            && end.db.data == rows
            && (Enabled(end, Act(x, true, any)) && end.tasks[x].Export? && end.tasks[x].ephase == Snapshot ==>
                  var t := Apply(end, Act(x, true, any)).tasks[x];
                  t.Export? && t.archive.Some? && t.archive.value.data == rows)
  {
    var wrote := Apply(s, Act(id, ok, rows));
    EditStep(s, Act(id, ok, rows));
    DataIsLastEdit(wrote, ls);
    NoLaterEdit(wrote, ls, rows);
  }

  // ---- requests -----------------------------------------------------------------------------------

  /** The request ended before it had made all its writes. */
  predicate Short(s: State, id: nat) {
    id < |s.tasks| && s.tasks[id].Request? && s.tasks[id].phase.RequestOver? && s.tasks[id].writes > 0
  }

  /** A step that ends a request with writes to make. `read` is the generation at its first hold. */
  predicate Refuses(s: State, l: Label, id: nat, read: nat)
    requires Enabled(s, l) && id < |s.tasks| && s.tasks[id].Request?
  {
    var t := s.tasks[id];
    && t.writes > 0 && !t.phase.RequestOver?
    && match l
       case Crash => true
       case Leave(i) => i == id
       case Act(i, ok, _) =>
         i == id && !t.phase.Writing?
         && (!ok || (!t.phase.Out? && t.guarded && s.db.frozen)
             || (t.phase.BackHold? && t.rechecks && s.generation != read))
       case _ => false
  }

  /** The generation a request compares with, after a step. */
  function Reads(s: State, l: Label, id: nat, read: nat): nat {
    if l.Act? && l.id == id && id < |s.tasks| && s.tasks[id].Request? && s.tasks[id].phase.FirstHold?
    then s.generation else read
  }

  predicate Remembers(s: State, id: nat, read: nat) {
    && id < |s.tasks| && s.tasks[id].Request?
    && (s.tasks[id].phase.Out? || s.tasks[id].phase.BackWait? || s.tasks[id].phase.BackHold? ==>
          s.tasks[id].gen == read)
  }

  lemma ShortStep(s: State, l: Label, id: nat, read: nat)
    requires Enabled(s, l) && Remembers(s, id, read)
    ensures var s' := Apply(s, l);
            && Remembers(s', id, Reads(s, l, id, read))
            && (Short(s', id) <==> Short(s, id) || Refuses(s, l, id, read))
  {
    if l.Act? && l.id == id {
      OwnActShort(s, id, l.ok, l.rows, read);
    } else {
      OtherStepShort(s, l, id);
    }
  }

  lemma OwnActShort(s: State, id: nat, ok: bool, rows: Rows, read: nat)
    requires Enabled(s, Act(id, ok, rows)) && Remembers(s, id, read)
    ensures var s' := Apply(s, Act(id, ok, rows));
            && Remembers(s', id, Reads(s, Act(id, ok, rows), id, read))
            && (Short(s', id) <==> Refuses(s, Act(id, ok, rows), id, read))
  {
  }

  lemma OtherStepShort(s: State, l: Label, id: nat)
    requires Enabled(s, l) && !(l.Act? && l.id == id) && id < |s.tasks| && s.tasks[id].Request?
    ensures var t, t' := s.tasks[id], Apply(s, l).tasks[id];
            && t'.Request? && t'.writes == t.writes && t'.gen == t.gen
            && (t'.phase.RequestOver? <==> t.phase.RequestOver? || l.Crash? || l == Leave(id))
            && (!t'.phase.RequestOver? && t'.phase != t.phase ==>
                  (t.phase.FirstWait? && t'.phase.FirstHold?) || (t.phase.BackWait? && t'.phase.BackHold?))
  {
  }

  predicate SomethingRefuses(s: State, ls: seq<Label>, id: nat, read: nat)
    requires ValidRun(s, ls) && Remembers(s, id, read)
    decreases |ls|
  {
    ls != [] &&
    (Refuses(s, ls[0], id, read)
     || (ShortStep(s, ls[0], id, read);
         SomethingRefuses(Apply(s, ls[0]), ls[1..], id, Reads(s, ls[0], id, read))))
  }

  lemma {:induction false} ShortRun(s: State, ls: seq<Label>, id: nat, read: nat)
    requires ValidRun(s, ls) && Remembers(s, id, read)
    ensures Short(After(s, ls), id) <==> Short(s, id) || SomethingRefuses(s, ls, id, read)
    decreases |ls|
  {
    if ls != [] {
      ShortStep(s, ls[0], id, read);
      ShortRun(Apply(s, ls[0]), ls[1..], id, Reads(s, ls[0], id, read));
    }
  }

  /** From its arrival, over any run, a request ends with writes not made if and only if a step refused it: its own
      work failed, it was guarded and met a freeze, it came back to another generation, its requester left, or the
      service crashed. */
  lemma EndsShortExactlyIfRefused(s: State, t: Task, ls: seq<Label>)
    requires Enabled(s, Arrive(t)) && t.Request? && ValidRun(Apply(s, Arrive(t)), ls)
    ensures Short(After(Apply(s, Arrive(t)), ls), |s.tasks|)
            <==> SomethingRefuses(Apply(s, Arrive(t)), ls, |s.tasks|, 0)
  {
    ShortRun(Apply(s, Arrive(t)), ls, |s.tasks|, 0);
  }

  predicate IsWriting(s: State, id: nat) {
    id < |s.tasks| && s.tasks[id].Request? && s.tasks[id].phase.Writing?
  }

  /** The writes of one task in a journal. */
  function Made(journal: seq<Entry>, id: nat): nat {
    if journal == [] then 0
    else Made(journal[..|journal| - 1], id) + (if journal[|journal| - 1].writer == id then 1 else 0)
  }

  lemma MadeNext(journal: seq<Entry>, e: Entry, id: nat)
    ensures Made(journal + [e], id) == Made(journal, id) + (if e.writer == id then 1 else 0)
  {
    assert (journal + [e])[..|journal|] == journal;
  }

  /** A journal with at most one more write, made by `id`. */
  predicate Logs(j: seq<Entry>, j': seq<Entry>, id: nat) {
    j' == j || (|j'| == |j| + 1 && j'[..|j|] == j && j'[|j|].writer == id)
  }

  /** Unless an import swaps the database, a step adds nothing to the journal or one write of the task that steps. */
  lemma JournalStep(s: State, l: Label)
    requires Enabled(s, l) && !(l.Act? && s.tasks[l.id].Import? && s.tasks[l.id].iphase.ImportHold?)
    ensures Apply(s, l).db.identity == s.db.identity
    ensures if l.Act? then Logs(s.db.journal, Apply(s, l).db.journal, l.id)
            else Apply(s, l).db.journal == s.db.journal
  {
    if l.Act? && s.tasks[l.id].Export? { ExportJournal(s, l.id, l.ok); }
  }

  lemma ExportJournal(s: State, id: nat, ok: bool)
    requires id < |s.tasks| && s.tasks[id].Export? && Runnable(s.tasks[id])
    ensures var db := ActExport(s, id, ok).db; db.identity == s.db.identity && Logs(s.db.journal, db.journal, id)
  {
  }

  lemma MadeOfLogs(j: seq<Entry>, j': seq<Entry>, writer: nat, id: nat)
    requires Logs(j, j', writer)
    ensures Made(j', id) == Made(j, id) + (if writer == id then |j'| - |j| else 0)
  {
    if j' != j { assert j' == j + [j'[|j|]]; MadeNext(j, j'[|j|], id); }
  }

  /** While a request writes, the writes it has made and those it has to make add up to the same. */
  lemma WritingStep(s: State, l: Label, id: nat)
    requires Inv(s) && Enabled(s, l) && IsWriting(s, id) && IsWriting(Apply(s, l), id)
    ensures var s' := Apply(s, l);
            && s'.db.identity == s.db.identity
            && Made(s'.db.journal, id) + s'.tasks[id].writes == Made(s.db.journal, id) + s.tasks[id].writes
  {
    var s' := Apply(s, l);
    JournalStep(s, l);
    if l.Act? {
      MadeOfLogs(s.db.journal, s'.db.journal, l.id, id);
      if l.id == id { OwnWrite(s, id, l.ok, l.rows); } else { OtherStepShort(s, l, id); }
    } else {
      OtherStepShort(s, l, id);
    }
  }

  /** A request at its writes makes the next one, or has none left and ends. */
  lemma OwnWrite(s: State, id: nat, ok: bool, rows: Rows)
    requires Enabled(s, Act(id, ok, rows)) && IsWriting(s, id)
    ensures var s' := Apply(s, Act(id, ok, rows));
            && s'.tasks[id].Request? && (s'.tasks[id].phase.RequestOver? <==> s.tasks[id].writes == 0)
            && s.tasks[id].writes - s'.tasks[id].writes == |s'.db.journal| - |s.db.journal|
            && (s.tasks[id].writes > 0 ==>
                  && IsWriting(s', id) && s'.tasks[id].writes == s.tasks[id].writes - 1
                  && s'.db.journal == s.db.journal + [Entry(id, s.tasks[id].from, s.tasks[id].rechecks)])
  {
  }

  lemma WritingEnds(s: State, l: Label, id: nat)
    requires Enabled(s, l) && IsWriting(s, id) && !IsWriting(Apply(s, l), id)
    ensures var t := Apply(s, l).tasks[id];
            t.Request? && t.phase.RequestOver? && (s.tasks[id].writes > 0 ==> l.Crash?)
  {
    if l.Act? && l.id == id { OwnWrite(s, id, l.ok, l.rows); } else { OtherStepShort(s, l, id); }
  }

  lemma {:induction false} OverStays(s: State, ls: seq<Label>, id: nat)
    requires ValidRun(s, ls) && id < |s.tasks| && s.tasks[id].Request? && s.tasks[id].phase.RequestOver?
    ensures !IsWriting(After(s, ls), id)
    decreases |ls|
  {
    if ls != [] {
      OtherStepShort(s, ls[0], id);
      OverStays(Apply(s, ls[0]), ls[1..], id);
    }
  }

  /** From the moment a request starts to write to the moment it has no write left, whatever interleaves, every write
      it had to make is in the journal of one and the same database; it ends with a write left only in a crash. */
  lemma {:induction false} EveryWriteIsMade(s: State, ls: seq<Label>, id: nat)
    requires Inv(s) && ValidRun(s, ls) && IsWriting(s, id) && IsWriting(After(s, ls), id)
    ensures var s' := After(s, ls);
            && s'.db.identity == s.db.identity
            && Made(s'.db.journal, id) == Made(s.db.journal, id) + s.tasks[id].writes - s'.tasks[id].writes
    decreases |ls|
  {
    if ls != [] {
      var s1 := Apply(s, ls[0]);
      if !IsWriting(s1, id) {
        WritingEnds(s, ls[0], id);
        OverStays(s1, ls[1..], id);
      }
      WritingStep(s, ls[0], id);
      StepKeeps(s, ls[0]);
      EveryWriteIsMade(s1, ls[1..], id);
    }
  }

  // ---- exports ------------------------------------------------------------------------------------

  /** Nothing goes wrong for export `id`: its own steps succeed, its requester stays, the service does not crash. */
  predicate Undisturbed(l: Label, id: nat) { !l.Crash? && l != Leave(id) && (l.Act? && l.id == id ==> l.ok) }

  predicate AllUndisturbed(ls: seq<Label>, id: nat) { forall i | 0 <= i < |ls| :: Undisturbed(ls[i], id) }

  /** The archive is taken at the snapshot and kept from then on. */
  predicate HasArchive(p: ExportPhase) {
    p.Packaging? || p.RecordWait? || p.RecordHold? || p.Ready? || p.HandWait? || p.HandHold? || p.ExportOver?
  }

  /** An export on its way, or handed over. */
  predicate OnItsWay(s: State, id: nat) {
    && id < |s.tasks| && s.tasks[id].Export? && !s.tasks[id].gone
    && var t := s.tasks[id];
       && !t.ephase.Lifting? && !t.ephase.UndoWait? && !t.ephase.UndoHold? && !t.ephase.UndoLifting?
       && (t.ephase.ExportOver? ==> t.handed) && (HasArchive(t.ephase) <==> t.archive.Some?)
  }

  lemma OnItsWayStep(s: State, l: Label, id: nat)
    requires Enabled(s, l) && OnItsWay(s, id) && Undisturbed(l, id)
    ensures OnItsWay(Apply(s, l), id)
  {
    if l.Act? && l.id == id { OwnExportStep(s, id, l.rows); } else { OtherExportStep(s, l, id); }
  }

  lemma OwnExportStep(s: State, id: nat, rows: Rows)
    requires Enabled(s, Act(id, true, rows)) && OnItsWay(s, id)
    ensures OnItsWay(Apply(s, Act(id, true, rows)), id)
  {
  }

  lemma OtherExportStep(s: State, l: Label, id: nat)
    requires Enabled(s, l) && OnItsWay(s, id) && Undisturbed(l, id) && !(l.Act? && l.id == id)
    ensures OnItsWay(Apply(s, l), id) && Apply(s, l).tasks[id].archive == s.tasks[id].archive
  {
  }

  /** The database as it was at the snapshot of export `id`. */
  function AtSnapshot(s: State, ls: seq<Label>, id: nat, was: Option<Archive>): Option<Archive>
    requires ValidRun(s, ls)
    decreases |ls|
  {
    if ls == [] then was
    else
      AtSnapshot(Apply(s, ls[0]), ls[1..], id,
                 if ls[0].Act? && ls[0].id == id && s.tasks[id].Export? && s.tasks[id].ephase.Snapshot?
                 then Some(Archive(s.db.identity, s.db.data, s.db.freezer)) else was)
  }

  lemma ArchiveStep(s: State, l: Label, id: nat)
    requires Enabled(s, l) && OnItsWay(s, id) && Undisturbed(l, id)
    ensures OnItsWay(Apply(s, l), id)
    ensures Apply(s, l).tasks[id].archive
            == if l.Act? && l.id == id && s.tasks[id].ephase.Snapshot?
               then Some(Archive(s.db.identity, s.db.data, s.db.freezer)) else s.tasks[id].archive
  {
    OnItsWayStep(s, l, id);
    if l.Act? && l.id == id { OwnArchive(s, id, l.rows); } else { OtherExportStep(s, l, id); }
  }

  lemma OwnArchive(s: State, id: nat, rows: Rows)
    requires Enabled(s, Act(id, true, rows)) && s.tasks[id].Export?
    ensures var t := Apply(s, Act(id, true, rows)).tasks[id];
            && t.Export?
            && t.archive == if s.tasks[id].ephase.Snapshot? then Some(Archive(s.db.identity, s.db.data, s.db.freezer))
                            else s.tasks[id].archive
  {
  }

  lemma {:induction false} ExportRun(s: State, ls: seq<Label>, id: nat)
    requires ValidRun(s, ls) && OnItsWay(s, id) && AllUndisturbed(ls, id)
    ensures OnItsWay(After(s, ls), id) && After(s, ls).tasks[id].archive == AtSnapshot(s, ls, id, s.tasks[id].archive)
    decreases |ls|
  {
    if ls != [] {
      ArchiveStep(s, ls[0], id);
      ExportRun(Apply(s, ls[0]), ls[1..], id);
    }
  }

  /** An export whose steps succeed and whose requester stays, in a service that does not crash, is handed over when
      it ends, whatever else runs: its archive is the database as it was at its snapshot. With `WorkDrains` it does
      end. */
  lemma UndisturbedExportIsHandedOver(s: State, t: Task, ls: seq<Label>)
    requires Enabled(s, Arrive(t)) && t.Export? && ValidRun(Apply(s, Arrive(t)), ls)
    requires AllUndisturbed(ls, |s.tasks|)
    ensures var id, came := |s.tasks|, Apply(s, Arrive(t));
            var end := After(came, ls);
            && id < |end.tasks| && end.tasks[id].Export?
            && (Over(end.tasks[id]) ==>
                  end.tasks[id].handed && end.tasks[id].archive.Some?
                  && end.tasks[id].archive == AtSnapshot(came, ls, id, None))
  {
    ExportRun(Apply(s, Arrive(t)), ls, |s.tasks|);
  }

  /** An export leaves its record, its hand-over and its undo in the journal, and only in its own database. */
  lemma ExportIsRecorded(s: State, id: nat, ok: bool, rows: Rows)
    requires Enabled(s, Act(id, ok, rows)) && s.tasks[id].Export? && s.tasks[id].archive.Some?
    requires var p := s.tasks[id].ephase; (p.RecordHold? && !s.tasks[id].gone) || p.HandHold? || p.UndoHold?
    ensures Apply(s, Act(id, ok, rows)).db.journal
            == s.db.journal + (if s.tasks[id].egen == s.generation
                               then [Entry(id, s.tasks[id].archive.value.identity, true)] else [])
  {
  }

  // ---- work that is given up ----------------------------------------------------------------------

  /** An import or an export whose requester left before it touched anything. */
  predicate LeftEarly(s: State, id: nat) {
    && id < |s.tasks|
    && match s.tasks[id]
       case Import(gone, p) => gone && (p.ImportWait? || p.ImportHold? || p.ImportOver?)
       case Export(_, gone, froze, p, _, archive, handed) =>
         gone && !froze && archive.None? && !handed
         && (p.Checking? || p.LockWait? || p.SnapWait? || p.SnapHold? || p.ExportOver?)
       case _ => false
  }

  lemma LeftEarlyStep(s: State, l: Label, id: nat)
    requires Enabled(s, l) && LeftEarly(s, id)
    ensures LeftEarly(Apply(s, l), id)
    ensures l.Act? && l.id == id ==> Apply(s, l).db == s.db
  {
  }

  predicate Leaves(s: State, ls: seq<Label>, id: nat)
    requires ValidRun(s, ls)
    decreases |ls|
  {
    ls != [] ==> (ls[0].Act? && ls[0].id == id ==> Apply(s, ls[0]).db == s.db) && Leaves(Apply(s, ls[0]), ls[1..], id)
  }

  lemma {:induction false} LeftEarlyRun(s: State, ls: seq<Label>, id: nat)
    requires ValidRun(s, ls) && LeftEarly(s, id)
    ensures Leaves(s, ls, id) && LeftEarly(After(s, ls), id)
    decreases |ls|
  {
    if ls != [] {
      LeftEarlyStep(s, ls[0], id);
      LeftEarlyRun(Apply(s, ls[0]), ls[1..], id);
    }
  }

  /** An import whose requester leaves before its swap, and an export whose requester leaves before its snapshot, change
      nothing in the database over any later run: nothing is swapped in, no freeze is set and no archive is made. */
  lemma LeavingEarlyChangesNothing(s: State, id: nat, ls: seq<Label>)
    requires Reachable(s) && Enabled(s, Leave(id)) && ValidRun(Apply(s, Leave(id)), ls)
    requires match s.tasks[id]
             case Import(_, p) => p.ImportWait? || p.ImportHold?
             case Export(_, _, _, p, _, _, _) => Early(p)
             case _ => false
    ensures Leaves(Apply(s, Leave(id)), ls, id) && LeftEarly(After(Apply(s, Leave(id)), ls), id)
  {
    ReachableInv(s);
    assert Shaped(s.tasks[id]);
    LeaveIsEarly(s, id);
    LeftEarlyRun(Apply(s, Leave(id)), ls, id);
  }

  lemma LeaveIsEarly(s: State, id: nat)
    requires Enabled(s, Leave(id)) && Shaped(s.tasks[id])
    requires match s.tasks[id]
             case Import(_, p) => p.ImportWait? || p.ImportHold?
             case Export(_, _, _, p, _, _, _) => Early(p)
             case _ => false
    ensures LeftEarly(Apply(s, Leave(id)), id)
  {
  }

  /** An administrator's unfreeze ends with both flags down, whatever ran between its two writes. */
  lemma UnfreezeClearsBothFlags(s: State, id: nat, ok: bool, rows: Rows)
    requires Reachable(s) && Enabled(s, Act(id, ok, rows)) && s.tasks[id] == Unfreeze(UnfreezeHalf)
    ensures var s' := Apply(s, Act(id, ok, rows)); !s'.db.frozen && !s'.db.pending && Over(s'.tasks[id])
  {
    ReachableInv(s);
    assert Agrees(s.tasks[id], s.db);
  }

  // ---- first come, first served -------------------------------------------------------------------

  /** Who is ahead of a task in a queue. */
  function Ahead(q: seq<nat>, id: nat): nat { if q == [] || q[0] == id then 0 else 1 + Ahead(q[1..], id) }

  lemma {:induction false} AheadOfAppended(q: seq<nat>, id: nat, x: nat)
    requires id in q
    ensures Ahead(q + [x], id) == Ahead(q, id)
  {
    if q[0] != id {
      assert (q + [x])[1..] == q[1..] + [x];
      AheadOfAppended(q[1..], id, x);
    }
  }

  lemma {:induction false} AheadWithout(q: seq<nat>, id: nat, x: nat)
    requires id in q && id != x
    ensures id in Without(q, x) && Ahead(Without(q, x), id) <= Ahead(q, id)
  {
    if q[0] == x {
      AheadWithout(q[1..], id, x);
      assert Without(q, x) == Without(q[1..], x);
    } else if q[0] != id {
      AheadWithout(q[1..], id, x);
      assert Without(q, x)[1..] == Without(q[1..], x);
    }
  }

  /** A step that is not the task's own, and neither ends the service nor makes its requester leave. */
  predicate OfOthers(l: Label, id: nat) { !l.Crash? && l != Leave(id) && !(l.Act? && l.id == id) }

  lemma AheadStep(s: State, l: Label, id: nat)
    requires Queued(s) && Enabled(s, l) && OfOthers(l, id) && id in s.queue
    ensures if id in Apply(s, l).queue then Ahead(Apply(s, l).queue, id) <= Ahead(s.queue, id)
            else id < |Apply(s, l).tasks| && UseOf(Apply(s, l).tasks[id]).Holds?
  {
    match l
    case Arrive(_) => AheadOfAppended(s.queue, id, |s.tasks|);
    case Grant => Pop(s.queue);
    case GrantLock => AheadOfAppended(s.queue, id, s.lockQueue[0]);
    case Act(i, _, _) => AheadOfAppended(s.queue, id, i);
    case Leave(i) =>
      AheadWithout(s.queue, id, i);
      AheadOfAppended(Without(s.queue, i), id, i);
    case _ =>
  }

  lemma HoldsOn(s: State, l: Label, id: nat)
    requires Queued(s) && Enabled(s, l) && OfOthers(l, id) && id < |s.tasks| && UseOf(s.tasks[id]).Holds?
    ensures id < |Apply(s, l).tasks| && UseOf(Apply(s, l).tasks[id]).Holds?
  {
  }

  lemma {:induction false} HoldsOnRun(s: State, ls: seq<Label>, id: nat)
    requires Inv(s) && ValidRun(s, ls) && (forall i | 0 <= i < |ls| :: OfOthers(ls[i], id))
    requires id < |s.tasks| && UseOf(s.tasks[id]).Holds?
    ensures Inv(After(s, ls)) && id !in After(s, ls).queue
    decreases |ls|
  {
    if ls != [] {
      StepKeeps(s, ls[0]);
      HoldsOn(s, ls[0], id);
      HoldsOnRun(Apply(s, ls[0]), ls[1..], id);
    }
  }

  /** Work that waits for the gate is never overtaken: over any run in which it still waits, no more are ahead of it
      than before. */
  lemma {:induction false} NeverOvertaken(s: State, ls: seq<Label>, id: nat)
    requires Inv(s) && ValidRun(s, ls) && (forall i | 0 <= i < |ls| :: OfOthers(ls[i], id))
    requires id in s.queue && id in After(s, ls).queue
    ensures Ahead(After(s, ls).queue, id) <= Ahead(s.queue, id)
    decreases |ls|
  {
    if ls != [] {
      var s' := Apply(s, ls[0]);
      AheadStep(s, ls[0], id);
      StepKeeps(s, ls[0]);
      if id !in s'.queue { HoldsOnRun(s', ls[1..], id); }
      NeverOvertaken(s', ls[1..], id);
    }
  }
}
