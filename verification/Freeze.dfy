/** The freeze / export / import protocol as a step relation.

    Every piece of work is one entry of `tasks`, named by its index for good. An export keeps one
    index from its passphrase check to its hand-over or its undo, because the export lock and the
    freeze it set travel with it. Who holds the gate and the export lock is read off the phases:
    a task holds a lock exactly while it holds the guard.

    Environment steps are arrivals, requesters going away, crashes and starts. A crash keeps the
    database and loses everything else. */
module Freeze {

  import opened Common

  /** Servers, groups, assignments, saved credentials and settings: what a freeze protects. */
  type Rows = map<string, string>

  /** One write made by work under a hold: who wrote, the database its reads came from, and whether the writer
      compares generations when it comes back. */
  datatype Entry = Entry(writer: nat, from: nat, rechecked: bool)

  /** The database file. `identity` is new for every database put in place. `freezer` and `journal`
      are history: the export that last marked this database, and the writes made to it. */
  datatype Database = Database(
    identity: nat,
    data: Rows,
    frozen: bool,
    pending: bool,
    freezer: nat,
    journal: seq<Entry>)

  datatype Mode = Shared | Exclusive
  datatype GateUse = Idle | Waits(mode: Mode) | Holds(mode: Mode)
  datatype LockUse = NoLock | WaitsLock | HoldsLock

  datatype RequestPhase = FirstWait | FirstHold | Out | BackWait | BackHold | Writing | RequestOver
  datatype UnfreezePhase = UnfreezeWait | UnfreezeHold | UnfreezeHalf | UnfreezeOver
  datatype ImportPhase = ImportWait | ImportHold | Swapped | ImportOver
  datatype ExportPhase =
    | Checking                                      // the passphrase, before anything waits
    | LockWait                                      // one export at a time
    | SnapWait | SnapHold | Marked | Snapshot       // under the gate, the flags one at a time
    | Lifting                                       // a failed snapshot, `frozen` already cleared
    | Packaging                                     // the gate released
    | RecordWait | RecordHold                       // the activity record
    | Ready                                         // the archive waits for its requester
    | HandWait | HandHold                           // the hand-over
    | UndoWait | UndoHold | UndoLifting             // the freeze undone
    | ExportOver

  /** What a freezing export copied, and the freeze in force when it did. */
  datatype Archive = Archive(identity: nat, data: Rows, freezer: nat)

  datatype Task =
    /** A request or a background pass. `guarded` work refuses a frozen proxy and may change `data`;
        `away` work leaves the gate after its first hold and comes back. All but the activity record of a
        refused single sign-on `rechecks` the generation then; that record changes none of the protected data. */
    | Request(away: bool, guarded: bool, writes: nat, phase: RequestPhase, gen: nat, from: nat, rechecks: bool)
    | Unfreeze(uphase: UnfreezePhase)
    | Export(freeze: bool, gone: bool, froze: bool, ephase: ExportPhase, egen: nat,
             archive: Option<Archive>, handed: bool)
    | Import(igone: bool, iphase: ImportPhase)

  datatype Run = Down | Starting | Up

  datatype State = State(
    run: Run,
    db: Database,
    generation: nat,
    tasks: seq<Task>,
    queue: seq<nat>,        // waiting for the gate, first come first served
    lockQueue: seq<nat>,    // waiting for the export lock
    identities: nat)        // identities given out so far

  predicate Over(t: Task) {
    match t
    case Request(_, _, _, p, _, _, _) => p == RequestOver
    case Unfreeze(p) => p == UnfreezeOver
    case Export(_, _, _, p, _, _, _) => p == ExportOver
    case Import(_, p) => p == ImportOver
  }

  /** How a task in this phase uses the gate. */
  function UseOf(t: Task): GateUse {
    match t
    case Request(_, _, _, p, _, _, _) => (
      match p
      case FirstWait | BackWait => Waits(Shared)
      case FirstHold | BackHold | Writing => Holds(Shared)
      case Out | RequestOver => Idle)
    case Unfreeze(p) => (
      match p
      case UnfreezeWait => Waits(Shared)
      case UnfreezeHold | UnfreezeHalf => Holds(Shared)
      case UnfreezeOver => Idle)
    case Import(_, p) => (
      match p
      case ImportWait => Waits(Exclusive)
      case ImportHold | Swapped => Holds(Exclusive)
      case ImportOver => Idle)
    case Export(freeze, _, _, p, _, _, _) =>
      var m := if freeze then Exclusive else Shared;
      match p
      case SnapWait => Waits(m)
      case SnapHold | Marked | Snapshot | Lifting => Holds(m)
      case RecordWait | HandWait => Waits(Shared)
      case RecordHold | HandHold => Holds(Shared)
      case UndoWait => Waits(Exclusive)
      case UndoHold | UndoLifting => Holds(Exclusive)
      case Checking | LockWait | Packaging | Ready | ExportOver => Idle
  }

  /** How it uses the export lock. Past the export task itself, only a freeze keeps it. */
  function LockOf(t: Task): LockUse {
    if !t.Export? then NoLock else
      match t.ephase
      case LockWait => WaitsLock
      case SnapWait | SnapHold | Marked | Snapshot | Lifting | Packaging | RecordWait | RecordHold =>
        HoldsLock
      case Ready | HandWait | HandHold | UndoWait | UndoHold | UndoLifting =>
        if t.froze then HoldsLock else NoLock
      case Checking | ExportOver => NoLock
  }

  predicate Fresh(t: Task) {
    match t
    case Request(away, guarded, _, p, _, _, rechecks) => p == FirstWait && (rechecks || (away && !guarded))
    case Unfreeze(p) => p == UnfreezeWait
    case Export(_, gone, froze, p, _, archive, handed) =>
      p == Checking && !gone && !froze && archive == None && !handed
    case Import(gone, p) => p == ImportWait && !gone
  }

  datatype Label =
    | Arrive(task: Task)
    | Grant                                   // the gate, to the head of its queue
    | GrantLock                               // the export lock, likewise
    | Act(id: nat, ok: bool, rows: Rows)      // the next step of one task; `ok` and `rows` are the world's
    | Leave(id: nat)                          // a requester goes away
    | Crash
    | Boot

  predicate CanGrant(s: State, m: Mode) {
    forall i | 0 <= i < |s.tasks| ::
      UseOf(s.tasks[i]).Holds? ==> m == Shared && UseOf(s.tasks[i]) == Holds(Shared)
  }

  predicate LockFree(s: State) {
    forall i | 0 <= i < |s.tasks| :: LockOf(s.tasks[i]) != HoldsLock
  }

  /** A task that is neither finished nor waiting for a lock can take its own next step. */
  predicate Runnable(t: Task) {
    !Over(t) && !UseOf(t).Waits? && LockOf(t) != WaitsLock
  }

  /** Where a requester going away is noticed. No handler awaits while it holds the gate, and the
      hand-over does not await once it has its hold. */
  predicate CanLeave(t: Task) {
    match t
    case Request(_, _, _, p, _, _, _) => p == FirstWait || p == Out || p == BackWait
    case Unfreeze(p) => p == UnfreezeWait
    case Export(_, gone, _, p, _, _, _) => !gone && p != HandHold && p != ExportOver
    case Import(gone, p) => !gone && p != ImportOver
  }

  predicate Enabled(s: State, l: Label) {
    match l
    case Arrive(t) => s.run == Up && Fresh(t)
    case Grant =>
      s.run == Up && s.queue != [] && s.queue[0] < |s.tasks| && UseOf(s.tasks[s.queue[0]]).Waits?
      && CanGrant(s, UseOf(s.tasks[s.queue[0]]).mode)
    case GrantLock =>
      s.run == Up && s.lockQueue != [] && s.lockQueue[0] < |s.tasks|
      && LockOf(s.tasks[s.lockQueue[0]]) == WaitsLock && LockFree(s)
    case Act(id, _, _) => s.run == Up && id < |s.tasks| && Runnable(s.tasks[id])
    case Leave(id) => s.run == Up && id < |s.tasks| && CanLeave(s.tasks[id])
    case Crash => s.run != Down
    case Boot => s.run != Up
  }

  /** What one step of one task changes. */
  datatype Effect = Effect(task: Task, db: Database, generation: nat)

  function Log(db: Database, id: nat, from: nat, rechecked: bool): Database {
    db.(journal := db.journal + [Entry(id, from, rechecked)])
  }

  function ActRequest(s: State, id: nat, ok: bool, rows: Rows): (e: Effect)
    requires id < |s.tasks| && s.tasks[id].Request? && Runnable(s.tasks[id])
  {
    var t := s.tasks[id];
    var over := Effect(t.(phase := RequestOver), s.db, s.generation);
    match t.phase
    case FirstHold =>
      if !ok || (t.guarded && s.db.frozen) then over
      else Effect(t.(phase := if t.away then Out else Writing, gen := s.generation, from := s.db.identity),
                  s.db, s.generation)
    case Out => if ok then Effect(t.(phase := BackWait), s.db, s.generation) else over
    case BackHold =>
      if (t.rechecks && s.generation != t.gen) || !ok || (t.guarded && s.db.frozen) then over
      else Effect(t.(phase := Writing), s.db, s.generation)
    case Writing =>
      if t.writes == 0 then over
      else Effect(t.(writes := t.writes - 1),
                  Log(if t.guarded then s.db.(data := rows) else s.db, id, t.from, t.rechecks), s.generation)
  }

  function ActUnfreeze(s: State, id: nat, ok: bool): (e: Effect)
    requires id < |s.tasks| && s.tasks[id].Unfreeze? && Runnable(s.tasks[id])
  {
    match s.tasks[id].uphase
    case UnfreezeHold =>
      if ok then Effect(Unfreeze(UnfreezeHalf), s.db.(frozen := false), s.generation)
      else Effect(Unfreeze(UnfreezeOver), s.db, s.generation)
    case UnfreezeHalf => Effect(Unfreeze(UnfreezeOver), s.db.(pending := false), s.generation)
  }

  /** The staged copy has both flags cleared before it is swapped in; the generation follows. */
  function ActImport(s: State, id: nat, ok: bool, rows: Rows): (e: Effect)
    requires id < |s.tasks| && s.tasks[id].Import? && Runnable(s.tasks[id])
  {
    var t := s.tasks[id];
    match t.iphase
    case ImportHold =>
      if t.igone || !ok then Effect(t.(iphase := ImportOver), s.db, s.generation)
      else Effect(t.(iphase := Swapped), Database(s.identities, rows, false, false, 0, []), s.generation)
    case Swapped => Effect(t.(iphase := ImportOver), s.db, s.generation + 1)
  }

  /** An archive dropped short of the response: a freeze it set is undone, and only such a freeze. */
  function Dropped(t: Task): Task
    requires t.Export?
  {
    t.(ephase := if t.froze then UndoWait else ExportOver)
  }

  function ActExport(s: State, id: nat, ok: bool): (e: Effect)
    requires id < |s.tasks| && s.tasks[id].Export? && Runnable(s.tasks[id])
  {
    var t := s.tasks[id];
    var db := s.db;
    var g := s.generation;
    var from := if t.archive.Some? then t.archive.value.identity else 0;
    match t.ephase
    case Checking => Effect(t.(ephase := if ok then LockWait else ExportOver), db, g)
    case SnapHold =>
      if t.gone || !ok then Effect(t.(ephase := ExportOver), db, g)
      else if t.freeze && !db.frozen then
        Effect(t.(ephase := Marked, froze := true), db.(pending := true, freezer := id), g)
      else Effect(t.(ephase := Snapshot), db, g)
    case Marked => Effect(t.(ephase := Snapshot), db.(frozen := true), g)
    case Snapshot =>
      if ok then
        Effect(t.(ephase := Packaging, egen := g,
                  archive := Some(Archive(db.identity, db.data, db.freezer))), db, g)
      else if t.froze then Effect(t.(ephase := Lifting), db.(frozen := false), g)
      else Effect(t.(ephase := ExportOver), db, g)
    case Lifting => Effect(t.(ephase := ExportOver), db.(pending := false), g)
    case Packaging => Effect(if ok then t.(ephase := RecordWait) else Dropped(t), db, g)
    case RecordHold =>
      if t.gone then Effect(Dropped(t), db, g)
      else Effect(t.(ephase := Ready), if g == t.egen then Log(db, id, from, true) else db, g)
    case Ready =>
      if t.gone then Effect(Dropped(t), db, g)
      else if t.froze then Effect(t.(ephase := HandWait), db, g)
      else Effect(t.(ephase := ExportOver, handed := true), db, g)
    case HandHold =>
      Effect(t.(ephase := ExportOver, handed := true),
             if g == t.egen then Log(db.(pending := false), id, from, true) else db, g)
    case UndoHold =>
      if g == t.egen then Effect(t.(ephase := UndoLifting), Log(db.(frozen := false), id, from, true), g)
      else Effect(t.(ephase := ExportOver), db, g)
    case UndoLifting => Effect(t.(ephase := ExportOver), db.(pending := false), g)
  }

  function ActOn(s: State, id: nat, ok: bool, rows: Rows): Effect
    requires id < |s.tasks| && Runnable(s.tasks[id])
  {
    match s.tasks[id]
    case Request(_, _, _, _, _, _, _) => ActRequest(s, id, ok, rows)
    case Unfreeze(_) => ActUnfreeze(s, id, ok)
    case Export(_, _, _, _, _, _, _) => ActExport(s, id, ok)
    case Import(_, _) => ActImport(s, id, ok, rows)
  }

  function Without(q: seq<nat>, id: nat): (r: seq<nat>) {
    if q == [] then [] else (if q[0] == id then [] else [q[0]]) + Without(q[1..], id)
  }

  /** Store a task that has just stepped, at the end of whichever queue it now waits in. */
  function Settle(s: State, id: nat, e: Effect): State
    requires id < |s.tasks|
  {
    s.(db := e.db, generation := e.generation, tasks := s.tasks[id := e.task],
       queue := if UseOf(e.task).Waits? then s.queue + [id] else s.queue,
       lockQueue := if LockOf(e.task) == WaitsLock then s.lockQueue + [id] else s.lockQueue,
       identities := if e.db.identity == s.identities then s.identities + 1 else s.identities)
  }

  function Granted(t: Task): Task
    requires UseOf(t).Waits?
  {
    match t
    case Request(_, _, _, p, _, _, _) => t.(phase := if p == FirstWait then FirstHold else BackHold)
    case Unfreeze(_) => Unfreeze(UnfreezeHold)
    case Import(_, _) => t.(iphase := ImportHold)
    case Export(_, _, _, p, _, _, _) =>
      t.(ephase := if p == SnapWait then SnapHold else if p == RecordWait then RecordHold
                   else if p == HandWait then HandHold else UndoHold)
  }

  /** A requester that left. Plain requests end; migration work runs on and is told; an archive
      waiting for its hand-over is dropped. */
  function Left(t: Task): Task
    requires CanLeave(t)
  {
    match t
    case Request(_, _, _, _, _, _, _) => t.(phase := RequestOver)
    case Unfreeze(_) => Unfreeze(UnfreezeOver)
    case Import(_, _) => t.(igone := true)
    case Export(_, _, _, p, _, _, _) =>
      if p == HandWait then Dropped(t).(gone := true) else t.(gone := true)
  }

  function LeaveStep(s: State, id: nat): State
    requires id < |s.tasks| && CanLeave(s.tasks[id])
  {
    var t, t' := s.tasks[id], Left(s.tasks[id]);
    if UseOf(t') == UseOf(t) then s.(tasks := s.tasks[id := t'])
    else
      Settle(s.(queue := Without(s.queue, id)), id, Effect(t', s.db, s.generation))
  }

  /** What a crash leaves of a task: nothing runs, and what was handed over stays handed over. */
  function Lost(t: Task): Task {
    match t
    case Request(_, _, _, _, _, _, _) => t.(phase := RequestOver)
    case Unfreeze(_) => Unfreeze(UnfreezeOver)
    case Import(_, _) => t.(iphase := ImportOver)
    case Export(_, _, _, _, _, _, _) => t.(ephase := ExportOver)
  }

  /** A start that finds a pending freeze lifts it, one flag at a time, before serving. */
  function BootStep(s: State): State {
    match s.run
    case Down => if s.db.pending then s.(run := Starting, db := s.db.(frozen := false)) else s.(run := Up)
    case Starting => s.(run := Up, db := s.db.(pending := false))
    case Up => s
  }

  function Apply(s: State, l: Label): State
    requires Enabled(s, l)
  {
    match l
    case Arrive(t) =>
      s.(tasks := s.tasks + [t], queue := if UseOf(t).Waits? then s.queue + [|s.tasks|] else s.queue)
    case Grant =>
      var id := s.queue[0];
      s.(tasks := s.tasks[id := Granted(s.tasks[id])], queue := s.queue[1..])
    case GrantLock =>
      var id := s.lockQueue[0];
      Settle(s.(lockQueue := s.lockQueue[1..]), id,
             Effect(s.tasks[id].(ephase := SnapWait), s.db, s.generation))
    case Act(id, ok, rows) => Settle(s, id, ActOn(s, id, ok, rows))
    case Leave(id) => LeaveStep(s, id)
    case Crash =>
      State(Down, s.db, 0, seq(|s.tasks|, i requires 0 <= i < |s.tasks| => Lost(s.tasks[i])), [], [],
            s.identities)
    case Boot => BootStep(s)
  }

  /** A proxy with a database no export has frozen yet. */
  predicate Init(s: State) {
    s.run == Down && !s.db.frozen && !s.db.pending && s.generation == 0 && s.tasks == []
    && s.queue == [] && s.lockQueue == [] && s.db.identity < s.identities && s.db.journal == []
  }

  predicate ValidRun(s: State, ls: seq<Label>)
    decreases |ls|
  {
    ls != [] ==> Enabled(s, ls[0]) && ValidRun(Apply(s, ls[0]), ls[1..])
  }

  /** Where a run ends. */
  function After(s: State, ls: seq<Label>): State
    requires ValidRun(s, ls)
    decreases |ls|
  {
    if ls == [] then s else After(Apply(s, ls[0]), ls[1..])
  }
}
