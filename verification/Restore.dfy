/**
 * The resumable restore (restore/restore.go:158-359, 669-747; database/restore_db.go:211-265): one restore job, its
 * stored record and manifest, and the run that works through it. Each step makes one write to the restore database, so
 * that a crash can fall between any two writes. Database writes themselves are taken to succeed.
 */
module Restore {
  import opened Common
  import opened Records

  datatype FileState = Pending | InProgress | Done | ItemFailed | Skipped

  /** A row of the manifest `restore_files`, without the columns that only the download reads. */
  datatype Item = Item(kind: Kind, size: int, deleteMarker: bool, state: FileState)

  datatype JobState = Started | Stopping | Finished | Cancelled | Failed | Crashed | Stopped

  datatype Column = Files | Dirs | Symlinks | FailedFiles | SkippedMarkers | BytesRestored

  /** `restore_counters`; the in-memory counters have the same names, but bytes are only counted in the database. */
  datatype Counters = Counters(files: nat, dirs: nat, symlinks: nat, failed: nat, skipped: nat, bytes: nat)

  const ZERO := Counters(0, 0, 0, 0, 0, 0)

  function Get(c: Counters, col: Column): nat {
    match col
    case Files => c.files
    case Dirs => c.dirs
    case Symlinks => c.symlinks
    case FailedFiles => c.failed
    case SkippedMarkers => c.skipped
    case BytesRestored => c.bytes
  }

  /** `BumpCounter`, and `IncrementCounter` in memory */
  function Bumped(c: Counters, col: Column, amount: nat): (d: Counters)
    ensures forall x :: Get(d, x) == Get(c, x) + (if x == col then amount else 0)
  {
    match col
    case Files => c.(files := c.files + amount)
    case Dirs => c.(dirs := c.dirs + amount)
    case Symlinks => c.(symlinks := c.symlinks + amount)
    case FailedFiles => c.(failed := c.failed + amount)
    case SkippedMarkers => c.(skipped := c.skipped + amount)
    case BytesRestored => c.(bytes := c.bytes + amount)
  }

  /** The column that counts restored items of a kind; items of unknown kind are never restored. */
  function ColumnOf(kind: Kind): Column {
    match kind case File => Files case Dir => Dirs case Symlink => Symlinks case Unknown => FailedFiles
  }

  function SizeOf(item: Item): nat {
    if item.kind == File && item.size > 0 then item.size else 0
  }

  /** What a restored item adds to each column. */
  function Weight(item: Item, col: Column): nat {
    if col == BytesRestored then SizeOf(item) else if col == ColumnOf(item.kind) then 1 else 0
  }

  /** The columns that equal what the rows add up to; failures and skips can repeat, so those columns may exceed it. */
  predicate Backed(col: Column) {
    col != FailedFiles && col != SkippedMarkers
  }

  function ItemCount(c: Counters): nat {
    c.files + c.dirs + c.symlinks
  }

  datatype Record = Record(state: JobState, items: seq<Item>, counters: Counters)

  /** Where a run stands between two writes. */
  datatype Pc = Init | Load | Top | MarkerCounted | Attempting | DoneWritten | CountWritten | FailedWritten | Ending(result: JobState)

  /** The volatile part of a run: in-memory counters and the local variables of `Do`. */
  datatype Run = Run(pc: Pc, mem: Counters, pending: seq<nat>, k: nat, restoredAny: bool, cancelled: bool)

  /** `lost` and `crashes` are history: the counts that crashes have swallowed, and how many crashes there were. */
  datatype World = World(up: bool, record: Option<Record>, run: Option<Run>, lost: Counters, crashes: nat)

  const START := World(true, None, None, ZERO, 0)

  /** `IsResumableState` */
  predicate Resumable(s: JobState) {
    s in {Cancelled, Failed, Crashed, Stopped}
  }

  // ----- steps -------------------------------------------------------------------------------------

  datatype Attempt = Restored | NotRestored | GaveUp

  /** How far a resume gets before it reaches the manifest. */
  datatype ResumeFate = CannotOpen | FailsEarly | TargetUnknown | GoesOn

  datatype Action =
    | StartJob(fails: bool)
    | WriteManifest(items: seq<Item>, fails: bool)
    | LoadPending(order: seq<nat>)
    | LoadFails
    | BeginItem
    | CountedMarker
    | EndAttempt(outcome: Attempt)
    | WriteCount
    | WriteBytes
    | WriteFailed
    | EndLoop
    | Finalize
    | RequestStop
    | Resume(fate: ResumeFate)
    | Crash
    | Recover

  /** `LoadPendingManifest`: every row that is not done, in some order. */
  ghost predicate IsPending(items: seq<Item>, order: seq<nat>) {
    && (forall j | 0 <= j < |order| :: order[j] < |items| && items[order[j]].state != Done)
    && (forall i, j | 0 <= i < j < |order| :: order[i] != order[j])
    && (forall i | 0 <= i < |items| && items[i].state != Done :: i in order)
  }

  /** The row the run is at. */
  function Current(r: Record, u: Run): Option<Item> {
    if u.k < |u.pending| && u.pending[u.k] < |r.items| then Some(r.items[u.pending[u.k]]) else None
  }

  function SetState(r: Record, u: Run, s: FileState): Record
    requires Current(r, u).Some?
  {
    r.(items := r.items[u.pending[u.k] := r.items[u.pending[u.k]].(state := s)])
  }

  function Bump(r: Record, col: Column, amount: nat): Record {
    r.(counters := Bumped(r.counters, col, amount))
  }

  function Count(u: Run, col: Column): Run {
    u.(mem := Bumped(u.mem, col, 1))
  }

  function Advance(u: Run): Run {
    u.(pc := Top, k := u.k + 1)
  }

  /** The top of the loop: stop when cancelled, count a delete marker, or mark the row as in progress. */
  function BeginStep(r: Record, u: Run): (Record, Run)
    requires Current(r, u).Some?
  {
    if u.cancelled then (r, u.(pc := Ending(Cancelled)))
    else if Current(r, u).value.deleteMarker then
      (Bump(r, SkippedMarkers, 1), Count(u.(pc := MarkerCounted), SkippedMarkers))
    else (SetState(r, u, InProgress), u.(pc := Attempting))
  }

  /** The end of `restoreOne`, and the write of the row's new state; only a file can be cancelled half-way. */
  function AttemptStep(r: Record, u: Run, outcome: Attempt): (Record, Run)
    requires Current(r, u).Some?
  {
    var item := Current(r, u).value;
    if outcome == NotRestored || item.kind == Unknown then
      (SetState(r, u, ItemFailed), Count(u.(pc := FailedWritten), FailedFiles))
    else if outcome == GaveUp && item.kind == File then (r, u.(pc := Ending(Cancelled)))
    else (SetState(r, u, Done), Count(u.(pc := DoneWritten), ColumnOf(item.kind)))
  }

  function CountStep(r: Record, u: Run): (Record, Run)
    requires Current(r, u).Some?
  {
    var item := Current(r, u).value;
    (Bump(r, ColumnOf(item.kind), 1), if SizeOf(item) == 0 then Advance(u).(restoredAny := true) else u.(pc := CountWritten))
  }

  function BytesStep(r: Record, u: Run): (Record, Run)
    requires Current(r, u).Some?
  {
    (Bump(r, BytesRestored, SizeOf(Current(r, u).value)), Advance(u).(restoredAny := true))
  }

  function EndStep(u: Run): Run {
    u.(pc := Ending(if u.cancelled then Cancelled else if u.restoredAny then Finished else Failed))
  }

  /** A step inside the loop; an action that does not fit the program counter changes nothing. */
  function LoopStep(r: Record, u: Run, a: Action): (Record, Run) {
    if Current(r, u).None? then
      if u.pc == Top && a == EndLoop then (r, EndStep(u)) else (r, u)
    else if u.pc == Top && a == BeginItem then BeginStep(r, u)
    else if u.pc == MarkerCounted && a == CountedMarker then (SetState(r, u, Skipped), Advance(u))
    else if u.pc == Attempting && a.EndAttempt? then AttemptStep(r, u, a.outcome)
    else if u.pc == DoneWritten && a == WriteCount then CountStep(r, u)
    else if u.pc == CountWritten && a == WriteBytes then BytesStep(r, u)
    else if u.pc == FailedWritten && a == WriteFailed then (Bump(r, FailedFiles, 1), Advance(u))
    else (r, u)
  }

  predicate InLoop(pc: Pc) {
    pc != Init && pc != Load && !pc.Ending?
  }

  /** `InsertManifestBatch` writes every row as pending. */
  function Unstarted(items: seq<Item>): seq<Item> {
    seq(|items|, i requires 0 <= i < |items| => items[i].(state := Pending))
  }

  /** The steps before and after the loop. */
  function EdgeStep(w: World, r: Record, u: Run, a: Action): World {
    if u.pc == Init && a.WriteManifest? then
      if a.fails || a.items == [] then w.(run := Some(u.(pc := Ending(Failed))))
      else w.(record := Some(r.(items := Unstarted(a.items))), run := Some(u.(pc := Load)))
    else if u.pc == Load && a.LoadPending? then
      w.(run := Some(u.(pc := if a.order == [] then Ending(Finished) else Top, pending := a.order, k := 0)))
    else if u.pc == Load && a == LoadFails then w.(run := Some(u.(pc := Ending(Failed))))
    else if u.pc.Ending? && a == Finalize then w.(record := Some(r.(state := u.pc.result)), run := None)
    else w
  }

  function RunStep(w: World, a: Action): World {
    if !w.up || w.run.None? || w.record.None? then w
    else if !InLoop(w.run.value.pc) then EdgeStep(w, w.record.value, w.run.value, a)
    else
      var (r, u) := LoopStep(w.record.value, w.run.value, a);
      w.(record := Some(r), run := Some(u))
  }

  /** What the run has written to a row but not counted yet. */
  function Uncounted(r: Record, u: Run, col: Column): nat {
    var item := Current(r, u);
    if item.None? then 0
    else if u.pc == DoneWritten && Backed(col) then Weight(item.value, col)
    else if u.pc == CountWritten && col == BytesRestored then SizeOf(item.value)
    else if u.pc == FailedWritten && col == FailedFiles then 1
    else 0
  }

  function InFlight(w: World, col: Column): nat {
    if w.record.None? || w.run.None? then 0 else Uncounted(w.record.value, w.run.value, col)
  }

  /** What crashes have swallowed once the run is lost now. */
  function LostNow(w: World): Counters {
    Counters(w.lost.files + InFlight(w, Files), w.lost.dirs + InFlight(w, Dirs), w.lost.symlinks + InFlight(w, Symlinks),
             w.lost.failed + InFlight(w, FailedFiles), 0, w.lost.bytes + InFlight(w, BytesRestored))
  }

  /** A job that fails before its row is inserted leaves nothing behind; job ids are never reused. */
  function StartStep(w: World, fails: bool): World {
    if !w.up || w.record.Some? || fails then w
    else w.(record := Some(Record(Started, [], ZERO)), run := Some(Run(Init, ZERO, [], 0, false, false)))
  }

  /**
   * `Resume` and the cleanup after it. A refused resume preserves the record; one that cannot open the restore database
   * fails before it looks at the record, and the cleanup then marks the job as failed whatever its state was.
   */
  function ResumeStep(w: World, fate: ResumeFate): World {
    if !w.up || w.run.Some? || w.record.None? then w
    else
      var r := w.record.value;
      if fate == CannotOpen then w.(record := Some(r.(state := Failed)))
      else if !Resumable(r.state) || fate == TargetUnknown then w
      else if fate == FailsEarly then w.(record := Some(r.(state := Failed)))
      else w.(record := Some(r.(state := Started)), run := Some(Run(Load, r.counters, [], 0, false, false)))
  }

  function StopStep(w: World): World {
    if w.run.Some? then w.(run := Some(w.run.value.(cancelled := true))) else w
  }

  function CrashStep(w: World): World {
    w.(up := false, run := None, lost := LostNow(w), crashes := w.crashes + 1)
  }

  /** `findAndMarkCrashedRestoreJobs`, when the daemon starts again. */
  function RecoverStep(w: World): World {
    if w.up then w
    else if w.record.Some? && w.record.value.state in {Started, Stopping}
    then w.(up := true, record := Some(w.record.value.(state := Crashed)))
    else w.(up := true)
  }

  function Step(w: World, a: Action): World {
    if a.StartJob? then StartStep(w, a.fails)
    else if a.Resume? then ResumeStep(w, a.fate)
    else if a == RequestStop then StopStep(w)
    else if a == Crash then CrashStep(w)
    else if a == Recover then RecoverStep(w)
    else RunStep(w, a)
  }

  // ----- counting rows -----------------------------------------------------------------------------

  /** What a manifest row should have added to a column. */
  function Share(item: Item, col: Column): nat {
    match item.state
    case Done => if Backed(col) then Weight(item, col) else 0
    case ItemFailed => if col == FailedFiles then 1 else 0
    case Skipped => if col == SkippedMarkers then 1 else 0
    case _ => 0
  }

  /** What the rows of the manifest add up to. */
  function Total(items: seq<Item>, col: Column): nat {
    if |items| == 0 then 0 else Total(items[..|items| - 1], col) + Share(items[|items| - 1], col)
  }

  lemma {:induction false} TotalUpdate(items: seq<Item>, i: nat, item: Item, col: Column)
    requires i < |items|
    ensures Total(items[i := item], col) == Total(items, col) - Share(items[i], col) + Share(item, col)
  {
    var n := |items| - 1;
    if i < n {
      TotalUpdate(items[..n], i, item, col);
      assert items[i := item][..n] == items[..n][i := item];
    } else {
      assert items[i := item][..n] == items[..n];
    }
  }

  lemma {:induction false} NothingYet(items: seq<Item>, col: Column)
    requires forall i | 0 <= i < |items| :: items[i].state == Pending
    ensures Total(items, col) == 0
  {
    if |items| > 0 {
      NothingYet(items[..|items| - 1], col);
    }
  }

  /** How many rows have this state and kind. */
  function Tally(items: seq<Item>, s: FileState, kind: Kind): nat {
    if |items| == 0 then 0
    else
      var last := items[|items| - 1];
      Tally(items[..|items| - 1], s, kind) + (if last.state == s && last.kind == kind then 1 else 0)
  }

  /** The sizes of the files that are done, added up. */
  function DoneBytes(items: seq<Item>): nat {
    if |items| == 0 then 0
    else
      var last := items[|items| - 1];
      DoneBytes(items[..|items| - 1]) + (if last.state == Done && last.kind == File && last.size >= 0 then last.size else 0)
  }

  /** What the totals are totals of. */
  lemma {:induction false} TotalsMean(items: seq<Item>)
    ensures Total(items, Files) == Tally(items, Done, File) && Total(items, Dirs) == Tally(items, Done, Dir)
    ensures Total(items, Symlinks) == Tally(items, Done, Symlink) && Total(items, BytesRestored) == DoneBytes(items)
    ensures Total(items, FailedFiles) ==
            Tally(items, ItemFailed, File) + Tally(items, ItemFailed, Dir) + Tally(items, ItemFailed, Symlink) + Tally(items, ItemFailed, Unknown)
    ensures Total(items, SkippedMarkers) ==
            Tally(items, Skipped, File) + Tally(items, Skipped, Dir) + Tally(items, Skipped, Symlink) + Tally(items, Skipped, Unknown)
  {
    if |items| > 0 {
      TotalsMean(items[..|items| - 1]);
    }
  }

  // ----- the invariant -----------------------------------------------------------------------------

  predicate Terminal(s: FileState) {
    s == Done || s == ItemFailed || s == Skipped
  }

  /** A marker that is counted before its row is written as skipped. */
  function Early(r: Record, u: Run, col: Column): nat {
    var item := Current(r, u);
    if u.pc == MarkerCounted && col == SkippedMarkers && item.Some? && item.value.state != Skipped then 1 else 0
  }

  /** How far a column, with what is still to be counted, is ahead of the rows. */
  function Gap(r: Record, u: Run, col: Column): int {
    Get(r.counters, col) + Uncounted(r, u, col) - Total(r.items, col) - Early(r, u, col)
  }

  function GapOf(r: Record, run: Option<Run>, col: Column): int {
    if run.Some? then Gap(r, run.value, col) else Get(r.counters, col) - Total(r.items, col)
  }

  /** A backed column, with what crashes swallowed, is exactly even with the rows; the other two are not behind. */
  ghost predicate Even(r: Record, run: Option<Run>, lost: Counters, col: Column) {
    if Backed(col) then GapOf(r, run, col) + Get(lost, col) == 0 else GapOf(r, run, col) + Get(lost, col) >= 0
  }

  ghost predicate Balanced(r: Record, run: Option<Run>, lost: Counters) {
    forall col {:trigger Even(r, run, lost, col)} :: Even(r, run, lost, col)
  }

  /** A crash swallows at most one item, restored or failed. */
  ghost predicate LossOk(w: World) {
    && ItemCount(w.lost) + w.lost.failed <= w.crashes && w.lost.skipped == 0
    && (w.crashes == 0 || w.record.None? ==> w.lost == ZERO)
  }

  /** The counts the run has made in memory but not yet in the database. */
  function MemAhead(r: Record, u: Run, col: Column): nat {
    var item := Current(r, u);
    if u.pc == DoneWritten && item.Some? && col == ColumnOf(item.value.kind) then 1
    else if u.pc == FailedWritten && col == FailedFiles then 1
    else 0
  }

  ghost predicate MemAt(r: Record, u: Run, col: Column) {
    col != BytesRestored ==> Get(u.mem, col) == Get(r.counters, col) + MemAhead(r, u, col)
  }

  ghost predicate MemOk(r: Record, u: Run) {
    forall col {:trigger MemAt(r, u, col)} :: MemAt(r, u, col)
  }

  /** The run works through the rows that were not done: those behind it are settled, those ahead are not done. */
  ghost predicate PendingOk(r: Record, u: Run) {
    && u.k <= |u.pending|
    && (forall j | 0 <= j < |u.pending| :: u.pending[j] < |r.items|)
    && (forall i, j | 0 <= i < j < |u.pending| :: u.pending[i] != u.pending[j])
    && (forall i | 0 <= i < |r.items| && i !in u.pending :: r.items[i].state == Done)
    && (forall j | 0 <= j < u.k :: Terminal(r.items[u.pending[j]].state))
    && (forall j | u.k < j < |u.pending| :: r.items[u.pending[j]].state != Done)
    && (u.k < |u.pending| ==>
          match u.pc
          case Attempting => r.items[u.pending[u.k]].state == InProgress
          case DoneWritten => r.items[u.pending[u.k]].state == Done
          case CountWritten => r.items[u.pending[u.k]].state == Done
          case FailedWritten => r.items[u.pending[u.k]].state == ItemFailed
          case _ => r.items[u.pending[u.k]].state != Done)
    && (u.pc != Top ==> u.k < |u.pending|)
  }

  ghost predicate AllSettled(r: Record) {
    forall i | 0 <= i < |r.items| :: Terminal(r.items[i].state)
  }

  ghost predicate RunOk(r: Record, u: Run) {
    && r.state == Started && MemOk(r, u)
    && (u.pc == Init ==> r.items == [])
    && (InLoop(u.pc) ==> PendingOk(r, u))
    && (u.pc.Ending? ==> u.pc.result in {Finished, Cancelled, Failed} && (u.pc.result == Finished ==> AllSettled(r)))
  }

  /** What holds of the stored record: its counts, and what its state promises. */
  ghost predicate RecordOk(w: World) {
    w.record.Some? ==>
      var r := w.record.value;
      && Balanced(r, w.run, w.lost)
      && (r.state == Finished ==> AllSettled(r))
      && (w.up && w.run.None? ==> r.state == Finished || Resumable(r.state))
  }

  ghost predicate Inv(w: World) {
    && LossOk(w) && RecordOk(w)
    && (w.run.Some? ==> w.up && w.record.Some? && RunOk(w.record.value, w.run.value))
  }

  /** A reload offers exactly the rows that are not done. */
  ghost predicate ActionOk(w: World, a: Action) {
    a.LoadPending? && w.record.Some? ==> IsPending(w.record.value.items, a.order)
  }

  // ----- every step of the loop keeps it -----------------------------------------------------------

  /** Settling the current row moves the run to the next one. */
  lemma AdvanceKeepsPending(r: Record, u: Run)
    requires PendingOk(r, u) && u.k < |u.pending| && Terminal(r.items[u.pending[u.k]].state)
    ensures PendingOk(r, Advance(u))
  {}

  /** Writing the state of the current row touches no other row of the run. */
  lemma SetStateKeepsPending(r: Record, u: Run, s: FileState, pc: Pc)
    requires PendingOk(r, u) && Current(r, u).Some?
    requires match pc
             case Attempting => s == InProgress
             case DoneWritten => s == Done
             case FailedWritten => s == ItemFailed
             case MarkerCounted => s == Skipped
             case _ => false
    ensures PendingOk(SetState(r, u, s), u.(pc := pc))
  {
    var r' := SetState(r, u, s);
    assert forall j | 0 <= j < |u.pending| && j != u.k :: u.pending[j] != u.pending[u.k];
    assert forall j | 0 <= j < |u.pending| && j != u.k :: r'.items[u.pending[j]] == r.items[u.pending[j]];
  }

  /** A step leaves a backed column as far ahead of the rows as it was, and the other two no less. */
  ghost predicate KeepsGap(r: Record, u: Run, r': Record, u': Run, col: Column) {
    if Backed(col) then Gap(r', u', col) == Gap(r, u, col) else Gap(r', u', col) >= Gap(r, u, col)
  }

  lemma MemAfter(r: Record, u: Run, r': Record, u': Run)
    requires MemOk(r, u)
    requires forall col | col != BytesRestored ::
               Get(u'.mem, col) - Get(r'.counters, col) - MemAhead(r', u', col) == Get(u.mem, col) - Get(r.counters, col) - MemAhead(r, u, col)
    ensures MemOk(r', u')
  {
    forall col ensures MemAt(r', u', col) {
      assert MemAt(r, u, col);
    }
  }

  /** Writing a state to the current row, and what that does to the totals. */
  lemma {:induction false} SetStateTotal(r: Record, u: Run, s: FileState, col: Column)
    requires Current(r, u).Some?
    ensures var item := Current(r, u).value;
            && Current(SetState(r, u, s), u) == Some(item.(state := s))
            && Total(SetState(r, u, s).items, col) == Total(r.items, col) - Share(item, col) + Share(item.(state := s), col)
  {
    TotalUpdate(r.items, u.pending[u.k], Current(r, u).value.(state := s), col);
  }

  lemma BeginKeeps(r: Record, u: Run)
    requires RunOk(r, u) && u.pc == Top && Current(r, u).Some?
    ensures var (r', u') := BeginStep(r, u); RunOk(r', u')
  {
    var (r', u') := BeginStep(r, u);
    MemAfter(r, u, r', u');
    if !u.cancelled && !Current(r, u).value.deleteMarker {
      SetStateKeepsPending(r, u, InProgress, Attempting);
    }
  }

  lemma BeginGap(r: Record, u: Run, col: Column)
    requires Current(r, u).Some? && Current(r, u).value.state != Done && u.pc == Top
    ensures var (r', u') := BeginStep(r, u); KeepsGap(r, u, r', u', col)
  {
    SetStateTotal(r, u, InProgress, col);
  }

  lemma MarkerKeeps(r: Record, u: Run)
    requires RunOk(r, u) && u.pc == MarkerCounted && Current(r, u).Some?
    ensures RunOk(SetState(r, u, Skipped), Advance(u))
  {
    SetStateKeepsPending(r, u, Skipped, MarkerCounted);
    AdvanceKeepsPending(SetState(r, u, Skipped), u);
    MemAfter(r, u, SetState(r, u, Skipped), Advance(u));
  }

  lemma MarkerGap(r: Record, u: Run, col: Column)
    requires Current(r, u).Some? && Current(r, u).value.state != Done && u.pc == MarkerCounted
    ensures KeepsGap(r, u, SetState(r, u, Skipped), Advance(u), col)
  {
    SetStateTotal(r, u, Skipped, col);
  }

  lemma FailureKeeps(r: Record, u: Run)
    requires RunOk(r, u) && u.pc == Attempting && Current(r, u).Some?
    ensures RunOk(SetState(r, u, ItemFailed), Count(u.(pc := FailedWritten), FailedFiles))
  {
    SetStateKeepsPending(r, u, ItemFailed, FailedWritten);
    MemAfter(r, u, SetState(r, u, ItemFailed), Count(u.(pc := FailedWritten), FailedFiles));
  }

  lemma SuccessKeeps(r: Record, u: Run)
    requires RunOk(r, u) && u.pc == Attempting && Current(r, u).Some?
    ensures RunOk(SetState(r, u, Done), Count(u.(pc := DoneWritten), ColumnOf(Current(r, u).value.kind)))
  {
    SetStateKeepsPending(r, u, Done, DoneWritten);
    SetStateTotal(r, u, Done, Files);
    MemAfter(r, u, SetState(r, u, Done), Count(u.(pc := DoneWritten), ColumnOf(Current(r, u).value.kind)));
  }

  lemma AttemptKeeps(r: Record, u: Run, outcome: Attempt)
    requires RunOk(r, u) && u.pc == Attempting && Current(r, u).Some?
    ensures var (r', u') := AttemptStep(r, u, outcome); RunOk(r', u')
  {
    var (r', u') := AttemptStep(r, u, outcome);
    if u'.pc == FailedWritten {
      FailureKeeps(r, u);
    } else if u'.pc == DoneWritten {
      SuccessKeeps(r, u);
    } else {
      MemAfter(r, u, r', u');
    }
  }

  /** Writing the row's state balances with what is then still to be counted. */
  lemma WrittenGap(r: Record, u: Run, s: FileState, u': Run, col: Column)
    requires Current(r, u).Some? && Current(r, u).value.state == InProgress && u.pc == Attempting && (s == Done || s == ItemFailed)
    requires u'.pending == u.pending && u'.k == u.k && u'.pc == if s == Done then DoneWritten else FailedWritten
    ensures KeepsGap(r, u, SetState(r, u, s), u', col)
  {
    SetStateTotal(r, u, s, col);
    assert Current(SetState(r, u, s), u') == Current(SetState(r, u, s), u);
  }

  lemma AttemptGap(r: Record, u: Run, outcome: Attempt, col: Column)
    requires Current(r, u).Some? && Current(r, u).value.state == InProgress && u.pc == Attempting
    ensures var (r', u') := AttemptStep(r, u, outcome); KeepsGap(r, u, r', u', col)
  {
    var (r', u') := AttemptStep(r, u, outcome);
    if u'.pc == FailedWritten {
      WrittenGap(r, u, ItemFailed, u', col);
    } else if u'.pc == DoneWritten {
      WrittenGap(r, u, Done, u', col);
    }
  }

  lemma CountKeeps(r: Record, u: Run)
    requires RunOk(r, u) && u.pc == DoneWritten && Current(r, u).Some?
    ensures var (r', u') := CountStep(r, u); RunOk(r', u')
  {
    AdvanceKeepsPending(r, u);
    var (r', u') := CountStep(r, u);
    MemAfter(r, u, r', u');
  }

  lemma CountGap(r: Record, u: Run, col: Column)
    requires Current(r, u).Some? && u.pc == DoneWritten
    ensures var (r', u') := CountStep(r, u); KeepsGap(r, u, r', u', col)
  {}

  lemma BytesKeeps(r: Record, u: Run)
    requires RunOk(r, u) && u.pc == CountWritten && Current(r, u).Some?
    ensures var (r', u') := BytesStep(r, u); RunOk(r', u')
  {
    AdvanceKeepsPending(r, u);
    var (r', u') := BytesStep(r, u);
    MemAfter(r, u, r', u');
  }

  lemma BytesGap(r: Record, u: Run, col: Column)
    requires Current(r, u).Some? && u.pc == CountWritten
    ensures var (r', u') := BytesStep(r, u); KeepsGap(r, u, r', u', col)
  {}

  lemma FailedKeeps(r: Record, u: Run)
    requires RunOk(r, u) && u.pc == FailedWritten && Current(r, u).Some?
    ensures RunOk(Bump(r, FailedFiles, 1), Advance(u))
  {
    AdvanceKeepsPending(r, u);
    MemAfter(r, u, Bump(r, FailedFiles, 1), Advance(u));
  }

  lemma FailedGap(r: Record, u: Run, col: Column)
    requires Current(r, u).Some? && u.pc == FailedWritten
    ensures KeepsGap(r, u, Bump(r, FailedFiles, 1), Advance(u), col)
  {}

  lemma EndKeeps(r: Record, u: Run)
    requires RunOk(r, u) && u.pc == Top && Current(r, u).None?
    ensures RunOk(r, EndStep(u))
  {
    MemAfter(r, u, r, EndStep(u));
    forall i | 0 <= i < |r.items| ensures Terminal(r.items[i].state) {
      if i in u.pending {
        var j :| 0 <= j < |u.pending| && u.pending[j] == i;
      }
    }
  }

  lemma LoopStepRun(r: Record, u: Run, a: Action)
    requires RunOk(r, u) && InLoop(u.pc)
    ensures var (r', u') := LoopStep(r, u, a); RunOk(r', u')
  {
    if Current(r, u).None? {
      if u.pc == Top && a == EndLoop {
        EndKeeps(r, u);
      }
    } else if u.pc == Top && a == BeginItem {
      BeginKeeps(r, u);
    } else if u.pc == MarkerCounted && a == CountedMarker {
      MarkerKeeps(r, u);
    } else if u.pc == Attempting && a.EndAttempt? {
      AttemptKeeps(r, u, a.outcome);
    } else if u.pc == DoneWritten && a == WriteCount {
      CountKeeps(r, u);
    } else if u.pc == CountWritten && a == WriteBytes {
      BytesKeeps(r, u);
    } else if u.pc == FailedWritten && a == WriteFailed {
      FailedKeeps(r, u);
    }
  }

  /** What the place of the run says of its row. */
  lemma CurrentState(r: Record, u: Run)
    requires PendingOk(r, u) && Current(r, u).Some?
    ensures (u.pc == Top || u.pc == MarkerCounted ==> Current(r, u).value.state != Done)
    ensures (u.pc == Attempting ==> Current(r, u).value.state == InProgress)
  {}

  lemma LoopStepGap(r: Record, u: Run, a: Action, col: Column)
    requires PendingOk(r, u) && InLoop(u.pc)
    ensures var (r', u') := LoopStep(r, u, a); KeepsGap(r, u, r', u', col)
  {
    if Current(r, u).Some? {
      CurrentState(r, u);
      if u.pc == Top && a == BeginItem {
        BeginGap(r, u, col);
      } else if u.pc == MarkerCounted && a == CountedMarker {
        MarkerGap(r, u, col);
      } else if u.pc == Attempting && a.EndAttempt? {
        AttemptGap(r, u, a.outcome, col);
      } else if u.pc == DoneWritten && a == WriteCount {
        CountGap(r, u, col);
      } else if u.pc == CountWritten && a == WriteBytes {
        BytesGap(r, u, col);
      } else if u.pc == FailedWritten && a == WriteFailed {
        FailedGap(r, u, col);
      }
    }
  }

  /** Each write of the loop keeps what holds of the run, and how far every column is ahead of the rows. */
  lemma LoopStepKeeps(r: Record, u: Run, a: Action, col: Column)
    requires RunOk(r, u) && InLoop(u.pc)
    ensures var (r', u') := LoopStep(r, u, a); RunOk(r', u') && KeepsGap(r, u, r', u', col)
  {
    LoopStepRun(r, u, a);
    LoopStepGap(r, u, a, col);
  }

  // ----- every step keeps it -----------------------------------------------------------------------

  /** The counts stay even when neither rows nor counters nor what is to be counted change. */
  lemma StaysEven(r: Record, run: Option<Run>, r': Record, run': Option<Run>, lost: Counters)
    requires Balanced(r, run, lost) && forall col :: GapOf(r', run', col) == GapOf(r, run, col)
    ensures Balanced(r', run', lost)
  {
    forall col ensures Even(r', run', lost, col) {
      assert Even(r, run, lost, col);
    }
  }

  /** A run that moves to a fit and even place keeps the invariant. */
  lemma RunMoves(w: World, r: Record, u: Run)
    requires LossOk(w) && w.up && w.record.Some? && RunOk(r, u) && Balanced(r, Some(u), w.lost)
    ensures Inv(w.(record := Some(r), run := Some(u)))
  {}

  lemma ManifestKeeps(w: World, items: seq<Item>)
    requires Inv(w) && w.run.Some? && w.run.value.pc == Init
    ensures Inv(w.(record := Some(w.record.value.(items := Unstarted(items))), run := Some(w.run.value.(pc := Load))))
  {
    var r, u := w.record.value, w.run.value;
    var r', u' := r.(items := Unstarted(items)), u.(pc := Load);
    forall col ensures Gap(r', u', col) == Gap(r, u, col) {
      NothingYet(r.items, col);
      NothingYet(r'.items, col);
    }
    StaysEven(r, Some(u), r', Some(u'), w.lost);
    MemAfter(r, u, r', u');
  }

  lemma LoadKeeps(w: World, order: seq<nat>)
    requires Inv(w) && w.run.Some? && w.run.value.pc == Load && IsPending(w.record.value.items, order)
    ensures Inv(w.(run := Some(w.run.value.(pc := if order == [] then Ending(Finished) else Top, pending := order, k := 0))))
  {
    var r, u := w.record.value, w.run.value;
    var u' := u.(pc := if order == [] then Ending(Finished) else Top, pending := order, k := 0);
    StaysEven(r, Some(u), r, Some(u'), w.lost);
    MemAfter(r, u, r, u');
    if order == [] {
      NothingLeftIffAllDone(r, order);
    } else {
      assert PendingOk(r, u');
    }
  }

  /** A run that gives up outside its loop. */
  lemma GiveUpKeeps(w: World)
    requires Inv(w) && w.run.Some? && !InLoop(w.run.value.pc)
    ensures Inv(w.(run := Some(w.run.value.(pc := Ending(Failed)))))
  {
    var r, u := w.record.value, w.run.value;
    StaysEven(r, Some(u), r, Some(u.(pc := Ending(Failed))), w.lost);
    MemAfter(r, u, r, u.(pc := Ending(Failed)));
  }

  lemma FinalizeKeeps(w: World)
    requires Inv(w) && w.run.Some? && w.run.value.pc.Ending?
    ensures Inv(w.(record := Some(w.record.value.(state := w.run.value.pc.result)), run := None))
  {
    StaysEven(w.record.value, w.run, w.record.value.(state := w.run.value.pc.result), None, w.lost);
  }

  /** The end of a run, the start of one and the loading of its manifest. */
  lemma EdgeStepKeeps(w: World, a: Action)
    requires Inv(w) && ActionOk(w, a) && w.run.Some? && !InLoop(w.run.value.pc)
    ensures Inv(EdgeStep(w, w.record.value, w.run.value, a))
  {
    var u := w.run.value;
    if u.pc == Init && a.WriteManifest? {
      if a.fails || a.items == [] {
        GiveUpKeeps(w);
      } else {
        ManifestKeeps(w, a.items);
      }
    } else if u.pc == Load && a.LoadPending? {
      LoadKeeps(w, a.order);
    } else if u.pc == Load && a == LoadFails {
      GiveUpKeeps(w);
    } else if u.pc.Ending? && a == Finalize {
      FinalizeKeeps(w);
    }
  }

  lemma LoopKeepsInv(w: World, a: Action)
    requires Inv(w) && w.run.Some? && InLoop(w.run.value.pc)
    ensures var (r, u) := LoopStep(w.record.value, w.run.value, a); Inv(w.(record := Some(r), run := Some(u)))
  {
    var r, u := w.record.value, w.run.value;
    var (r', u') := LoopStep(r, u, a);
    LoopStepRun(r, u, a);
    forall col ensures Even(r', Some(u'), w.lost, col) {
      assert Even(r, Some(u), w.lost, col);
      LoopStepGap(r, u, a, col);
    }
  }

  lemma StartKeeps(w: World, fails: bool)
    requires Inv(w)
    ensures Inv(StartStep(w, fails))
  {
    if w.up && w.record.None? && !fails {
      var w' := StartStep(w, fails);
      var r, u := w'.record.value, w'.run.value;
      forall col ensures Even(r, Some(u), w.lost, col) {
        NothingYet(r.items, col);
      }
      forall col ensures MemAt(r, u, col) {}
    }
  }

  lemma ResumeKeeps(w: World, fate: ResumeFate)
    requires Inv(w)
    ensures Inv(ResumeStep(w, fate))
  {
    if w.up && w.run.None? && w.record.Some? {
      var w' := ResumeStep(w, fate);
      StaysEven(w.record.value, None, w'.record.value, w'.run, w.lost);
      if w'.run.Some? {
        forall col ensures MemAt(w'.record.value, w'.run.value, col) {}
      }
    }
  }

  lemma StopRun(r: Record, u: Run)
    requires RunOk(r, u)
    ensures RunOk(r, u.(cancelled := true))
  {
    MemAfter(r, u, r, u.(cancelled := true));
  }

  lemma StopBalance(r: Record, u: Run, lost: Counters)
    requires Balanced(r, Some(u), lost)
    ensures Balanced(r, Some(u.(cancelled := true)), lost)
  {
    assert Current(r, u.(cancelled := true)) == Current(r, u);
    StaysEven(r, Some(u), r, Some(u.(cancelled := true)), lost);
  }

  lemma StopKeeps(w: World)
    requires Inv(w)
    ensures Inv(StopStep(w))
  {
    if w.run.Some? {
      StopRun(w.record.value, w.run.value);
      StopBalance(w.record.value, w.run.value, w.lost);
      RunMoves(w, w.record.value, w.run.value.(cancelled := true));
    }
  }

  lemma CrashBalance(w: World, col: Column)
    requires w.record.Some? && Even(w.record.value, w.run, w.lost, col) && w.lost.skipped == 0
    ensures Even(w.record.value, None, LostNow(w), col)
  {
    InFlightIsOne(w);
    assert Get(LostNow(w), col) == Get(w.lost, col) + InFlight(w, col);
  }

  lemma CrashLoss(w: World)
    requires LossOk(w)
    ensures LossOk(CrashStep(w))
  {
    InFlightIsOne(w);
  }

  lemma CrashRecord(w: World)
    requires RecordOk(w) && w.lost.skipped == 0
    ensures RecordOk(CrashStep(w))
  {
    if w.record.Some? {
      forall col ensures Even(w.record.value, None, LostNow(w), col) {
        assert Even(w.record.value, w.run, w.lost, col);
        CrashBalance(w, col);
      }
    }
  }

  lemma CrashKeeps(w: World)
    requires Inv(w)
    ensures Inv(CrashStep(w))
  {
    CrashLoss(w);
    CrashRecord(w);
  }

  /** A run is never about to count more than one item. */
  lemma InFlightIsOne(w: World)
    ensures InFlight(w, Files) + InFlight(w, Dirs) + InFlight(w, Symlinks) + InFlight(w, FailedFiles) <= 1
    ensures InFlight(w, SkippedMarkers) == 0
    ensures w.record.None? ==> forall col :: InFlight(w, col) == 0
  {}

  lemma RecoverKeeps(w: World)
    requires Inv(w)
    ensures Inv(RecoverStep(w))
  {
    if !w.up && w.record.Some? {
      StaysEven(w.record.value, None, RecoverStep(w).record.value, None, w.lost);
    }
  }

  lemma RunStepKeeps(w: World, a: Action)
    requires Inv(w) && ActionOk(w, a)
    ensures Inv(RunStep(w, a))
  {
    if w.up && w.run.Some? {
      if InLoop(w.run.value.pc) {
        LoopKeepsInv(w, a);
      } else {
        EdgeStepKeeps(w, a);
      }
    }
  }

  lemma StepKeepsInv(w: World, a: Action)
    requires Inv(w) && ActionOk(w, a)
    ensures Inv(Step(w, a))
  {
    if a.StartJob? {
      StartKeeps(w, a.fails);
    } else if a.Resume? {
      ResumeKeeps(w, a.fate);
    } else if a == RequestStop {
      StopKeeps(w);
    } else if a == Crash {
      CrashKeeps(w);
    } else if a == Recover {
      RecoverKeeps(w);
    } else {
      RunStepKeeps(w, a);
    }
  }

  // ----- what follows ------------------------------------------------------------------------------

  /** The row is in the record, unchanged. */
  ghost predicate Keeps(w: World, w': World, i: nat)
    requires w.record.Some? && i < |w.record.value.items|
  {
    w'.record.Some? && |w'.record.value.items| == |w.record.value.items| && w'.record.value.items[i] == w.record.value.items[i]
  }

  lemma LoopKeepsDone(r: Record, u: Run, a: Action, i: nat)
    requires PendingOk(r, u) && InLoop(u.pc) && i < |r.items| && r.items[i].state == Done
    ensures var (r', u') := LoopStep(r, u, a);
            && |r'.items| == |r.items| && r'.items[i] == r.items[i]
            && (a == BeginItem && u.pc == Top && u'.pc == Attempting ==> u'.k < |u'.pending| && u'.pending[u'.k] != i)
  {
    if Current(r, u).Some? {
      CurrentState(r, u);
    }
  }

  /** A row that is done stays done, and a step never sets out to restore it again. */
  lemma DoneIsFinal(w: World, a: Action, i: nat)
    requires Inv(w) && w.record.Some? && i < |w.record.value.items| && w.record.value.items[i].state == Done
    ensures Keeps(w, Step(w, a), i)
    ensures var w' := Step(w, a);
            a == BeginItem && w.run.Some? && w.run.value.pc == Top && w'.run.Some? && w'.run.value.pc == Attempting ==>
              w'.run.value.k < |w'.run.value.pending| && w'.run.value.pending[w'.run.value.k] != i
  {
    if w.run.Some? && InLoop(w.run.value.pc) {
      LoopKeepsDone(w.record.value, w.run.value, a, i);
    }
  }

  /**
   * A resume of a job that is not running and cannot be resumed leaves everything as it is exactly if it could open the
   * restore database: one that cannot open it fails before it looks at the record, and the cleanup then overwrites it.
   */
  lemma RefusedResume(w: World, fate: ResumeFate)
    requires Inv(w) && w.up && w.run.None? && w.record.Some? && !Resumable(w.record.value.state)
    ensures Step(w, Resume(fate)) == w <==> fate != CannotOpen
  {}

  function RunAll(w: World, acts: seq<Action>): World
    decreases |acts|
  {
    if |acts| == 0 then w else RunAll(Step(w, acts[0]), acts[1..])
  }

  ghost predicate ActsOk(w: World, acts: seq<Action>)
    decreases |acts|
  {
    |acts| > 0 ==> ActionOk(w, acts[0]) && ActsOk(Step(w, acts[0]), acts[1..])
  }

  lemma {:induction false} RunKeepsInv(w: World, acts: seq<Action>)
    requires Inv(w) && ActsOk(w, acts)
    ensures Inv(RunAll(w, acts))
    decreases |acts|
  {
    if |acts| > 0 {
      StepKeepsInv(w, acts[0]);
      RunKeepsInv(Step(w, acts[0]), acts[1..]);
    }
  }

  /** Once done, a row is done for ever: no later step, crash or resume undoes or repeats it. */
  lemma {:induction false} DoneForEver(w: World, acts: seq<Action>, i: nat)
    requires Inv(w) && ActsOk(w, acts)
    requires w.record.Some? && i < |w.record.value.items| && w.record.value.items[i].state == Done
    ensures Keeps(w, RunAll(w, acts), i)
    decreases |acts|
  {
    if |acts| > 0 {
      DoneIsFinal(w, acts[0], i);
      StepKeepsInv(w, acts[0]);
      DoneForEver(Step(w, acts[0]), acts[1..], i);
    }
  }

  lemma FinishedStays(w: World, a: Action)
    requires Inv(w) && w.record.Some? && w.record.value.state == Finished && a != Resume(CannotOpen)
    ensures Step(w, a).record == w.record
  {}

  /** A finished record never changes, whatever happens, as long as no resume fails to open the restore database. */
  lemma {:induction false} FinishedForEver(w: World, acts: seq<Action>)
    requires Inv(w) && ActsOk(w, acts) && w.record.Some? && w.record.value.state == Finished
    requires forall k | 0 <= k < |acts| :: acts[k] != Resume(CannotOpen)
    ensures RunAll(w, acts).record == w.record
    decreases |acts|
  {
    if |acts| > 0 {
      FinishedStays(w, acts[0]);
      StepKeepsInv(w, acts[0]);
      FinishedForEver(Step(w, acts[0]), acts[1..]);
    }
  }

  lemma MemoryMatches(r: Record, u: Run)
    requires MemOk(r, u) && u.pc == Top
    ensures u.mem.(bytes := 0) == r.counters.(bytes := 0)
  {
    assert MemAt(r, u, Files) && MemAt(r, u, Dirs) && MemAt(r, u, Symlinks) && MemAt(r, u, FailedFiles) && MemAt(r, u, SkippedMarkers);
  }

  /** How many rows that can be counted are done. */
  function DoneItems(r: Record): nat {
    Total(r.items, Files) + Total(r.items, Dirs) + Total(r.items, Symlinks)
  }

  /** What the counters say of the rows when no item is under way, after so many crashes. */
  ghost predicate CountersTell(r: Record, crashes: nat) {
    && ItemCount(r.counters) <= DoneItems(r) <= ItemCount(r.counters) + crashes
    && Total(r.items, FailedFiles) <= r.counters.failed + crashes
    && Total(r.items, SkippedMarkers) <= r.counters.skipped
    && (crashes == 0 ==> forall col | Backed(col) :: Get(r.counters, col) == Total(r.items, col))
  }

  lemma CountsAddUp(w: World)
    requires Inv(w) && w.record.Some? && (w.run.None? || w.run.value.pc == Top)
    ensures CountersTell(w.record.value, w.crashes)
  {
    var r := w.record.value;
    forall col ensures GapOf(r, w.run, col) == Get(r.counters, col) - Total(r.items, col) {}
    assert Even(r, w.run, w.lost, Files) && Even(r, w.run, w.lost, Dirs) && Even(r, w.run, w.lost, Symlinks);
    assert Even(r, w.run, w.lost, FailedFiles) && Even(r, w.run, w.lost, SkippedMarkers);
    if w.crashes == 0 {
      forall col | Backed(col) ensures Get(r.counters, col) == Total(r.items, col) {
        assert Even(r, w.run, w.lost, col);
      }
    }
  }

  /** What the invariant promises, spelled out. */
  ghost predicate Promises(w: World) {
    w.record.Some? ==>
      var r := w.record.value;
      && (r.state == Finished ==> forall i | 0 <= i < |r.items| :: r.items[i].state !in {Pending, InProgress})
      && (w.up && w.run.None? ==> r.state == Finished || Resumable(r.state))
      && (w.run.Some? && w.run.value.pc == Top ==> w.run.value.mem.(bytes := 0) == r.counters.(bytes := 0))
      && (w.run.None? || w.run.value.pc == Top ==> CountersTell(r, w.crashes))
  }

  lemma InvMeans(w: World)
    requires Inv(w)
    ensures Promises(w)
  {
    if w.record.Some? && (w.run.None? || w.run.value.pc == Top) {
      CountsAddUp(w);
      if w.run.Some? {
        MemoryMatches(w.record.value, w.run.value);
      }
    }
  }

  /**
   * The restore over every sequence of start, item outcome, stop, failure, crash, recovery and resume: a finished job
   * has no row pending or in progress; a job that is not running is finished or can be resumed; between items the
   * counters in memory equal those in the database; the done rows exceed the counted items by at most one per crash, and
   * without crashes items and bytes of the done rows equal the counters exactly; failed rows exceed the counted failures
   * by at most one per crash, and skipped rows never exceed the counted skips.
   */
  lemma {:induction false} RestoreInvariant(w: World, acts: seq<Action>)
    requires w == START && ActsOk(w, acts)
    ensures Promises(RunAll(w, acts))
  {
    RunKeepsInv(w, acts);
    InvMeans(RunAll(w, acts));
  }

  /** A resume finds nothing left to do, and calls the job finished, exactly when every row of its manifest is done. */
  lemma NothingLeftIffAllDone(r: Record, order: seq<nat>)
    requires IsPending(r.items, order)
    ensures order == [] <==> forall i | 0 <= i < |r.items| :: r.items[i].state == Done
  {
    if order != [] {
      assert r.items[order[0]].state != Done;
    }
  }

  /**
   * In every reachable world: a resume of a job ends as `finished` at once, restoring nothing, exactly when every row of
   * its manifest is done, which includes a manifest that was never written.
   */
  lemma {:induction false} ResumeFinishesIff(start: World, acts: seq<Action>, order: seq<nat>)
    requires start == START && ActsOk(start, acts)
    requires var w := RunAll(start, acts);
             && w.up && w.run.None? && w.record.Some? && Resumable(w.record.value.state) && IsPending(w.record.value.items, order)
    ensures var w := RunAll(start, acts);
            var loaded := Step(Step(w, Resume(GoesOn)), LoadPending(order));
            && loaded.record == Some(w.record.value.(state := Started)) && loaded.run.Some?
            && (loaded.run.value.pc == Ending(Finished) <==> forall i | 0 <= i < |w.record.value.items| :: w.record.value.items[i].state == Done)
            && (loaded.run.value.pc == Ending(Finished) ==> Step(loaded, Finalize).record == Some(w.record.value.(state := Finished)))
            && (loaded.run.value.pc != Ending(Finished) ==> loaded.run.value.pc == Top && loaded.run.value.pending == order != [])
  {
    NothingLeftIffAllDone(RunAll(start, acts).record.value, order);
  }

  /**
   * So a job that stopped before its manifest was written (here because no file matched) is resumed to `finished`
   * without having restored anything.
   */
  lemma EmptyJobFinishes()
    ensures var w := Step(Step(Step(START, StartJob(false)), WriteManifest([], false)), Finalize);
            var end := Step(Step(Step(w, Resume(GoesOn)), LoadPending([])), Finalize);
            w == START.(record := Some(Record(Failed, [], ZERO))) && end == START.(record := Some(Record(Finished, [], ZERO)))
  {
    var w := START.(record := Some(Record(Failed, [], ZERO)));
    assert Step(Step(Step(START, StartJob(false)), WriteManifest([], false)), Finalize) == w;
    var w1 := w.(record := Some(Record(Started, [], ZERO)), run := Some(Run(Load, ZERO, [], 0, false, false)));
    assert Step(w, Resume(GoesOn)) == w1;
  }

  /** And a resume that cannot open the database turns that finished job into a failed one, which can be resumed again. */
  lemma FinishedBecomesFailed()
    ensures var w := Step(Step(Step(START, StartJob(false)), WriteManifest([], false)), Finalize);
            var end := Step(Step(Step(w, Resume(GoesOn)), LoadPending([])), Finalize);
            && end.record == Some(Record(Finished, [], ZERO))
            && Step(end, Resume(CannotOpen)).record == Some(Record(Failed, [], ZERO)) && Resumable(Failed)
  {
    EmptyJobFinishes();
  }

  /** A job that cannot be recorded, or whose id has a record already, leaves everything as it was. */
  lemma StartRefused(w: World, fails: bool)
    requires fails || w.record.Some? || !w.up
    ensures Step(w, StartJob(fails)) == w
  {}

  /** Recovery brings the daemon up again; an interrupted job becomes crashed, and nothing else of the record changes. */
  lemma RecoverEffects(w: World)
    requires !w.up
    ensures var w' := Step(w, Recover);
            && w'.up && w'.run == w.run && w'.lost == w.lost && w'.crashes == w.crashes
            && (w.record.None? ==> w'.record.None?)
            && (w.record.Some? ==>
                  var r := w.record.value;
                  w'.record == Some(r.(state := if r.state == Started || r.state == Stopping then Crashed else r.state)))
  {}

  /** How often a run has crashed. */
  function Crashes(acts: seq<Action>): nat {
    if |acts| == 0 then 0 else Crashes(acts[..|acts| - 1]) + (if acts[|acts| - 1] == Crash then 1 else 0)
  }

  lemma {:induction false} RunAllSnoc(w: World, acts: seq<Action>)
    requires |acts| > 0
    ensures RunAll(w, acts) == Step(RunAll(w, acts[..|acts| - 1]), acts[|acts| - 1])
    decreases |acts|
  {
    if |acts| > 1 {
      RunAllSnoc(Step(w, acts[0]), acts[1..]);
      assert acts[1..][..|acts| - 2] == acts[..|acts| - 1][1..];
    }
  }

  /** The crashes that bound the uncounted items are those of the run, and after a crash the daemon is down without a run. */
  lemma {:induction false} CrashesAreCounted(w: World, acts: seq<Action>)
    ensures RunAll(w, acts).crashes == w.crashes + Crashes(acts)
    ensures |acts| > 0 && acts[|acts| - 1] == Crash ==> !RunAll(w, acts).up && RunAll(w, acts).run.None?
  {
    if |acts| > 0 {
      RunAllSnoc(w, acts);
      CrashesAreCounted(w, acts[..|acts| - 1]);
    }
  }

  /** A run that fails before its loop stores `failed` and leaves rows and counters as they were. */
  lemma FailsBeforeLoop(w: World, items: seq<Item>)
    requires w.up && w.run.Some? && w.record.Some?
    ensures var failed := w.(record := Some(w.record.value.(state := Failed)), run := None);
            && (w.run.value.pc == Init ==> Step(Step(w, WriteManifest(items, true)), Finalize) == failed)
            && (w.run.value.pc == Load ==> Step(Step(w, LoadFails), Finalize) == failed)
  {
    var ending := w.(run := Some(w.run.value.(pc := Ending(Failed))));
    assert w.run.value.pc == Init ==> Step(w, WriteManifest(items, true)) == ending;
    assert w.run.value.pc == Load ==> Step(w, LoadFails) == ending;
  }

  /** A resume of a job that can be resumed never touches its rows and counters; it starts a run exactly if nothing fails. */
  lemma ResumeEffects(w: World, fate: ResumeFate)
    requires w.up && w.run.None? && w.record.Some? && Resumable(w.record.value.state)
    ensures var r, w' := w.record.value, Step(w, Resume(fate));
            && w'.record.Some? && w'.record.value == r.(state := w'.record.value.state)
            && (w'.run.Some? <==> fate == GoesOn)
            && (w'.record.value.state == match fate case GoesOn => Started case TargetUnknown => r.state case _ => Failed)
  {}
}
