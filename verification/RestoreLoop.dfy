/**
 * The loop of a restore over its manifest (restore/restore.go:184-261): what one item and the whole loop do when no crash
 * falls between their writes, what the outcome of each attempt comes to, and the methods that do it in place.
 */
module RestoreLoop {
  import opened Common
  import opened Records
  import opened Restore

  // ----- the loop itself ---------------------------------------------------------------------------

  /** The writes that follow an attempt. */
  function Counting(r: Record, u: Run): (Record, Run)
    requires Current(r, u).Some?
  {
    if u.pc.Ending? then (r, u)
    else if u.pc == FailedWritten then (Bump(r, FailedFiles, 1), Advance(u))
    else
      var (r', u') := CountStep(r, u);
      if u'.pc == CountWritten then BytesStep(r', u') else (r', u')
  }

  /** All the steps of one item, undisturbed by crashes. */
  function ItemRun(r: Record, u: Run, attempt: Attempt): (Record, Run)
    requires Current(r, u).Some?
  {
    var (r1, u1) := BeginStep(r, u);
    if u1.pc == MarkerCounted then (SetState(r1, u1, Skipped), Advance(u1))
    else if u1.pc.Ending? then (r1, u1)
    else
      var (r2, u2) := AttemptStep(r1, u1, attempt);
      Counting(r2, u2)
  }

  /** The run has moved on by one item, or has ended because it was cancelled; only one row has changed. */
  ghost predicate MovedOn(r: Record, u: Run, r': Record, u': Run)
    requires u.k < |u.pending|
  {
    && |r'.items| == |r.items|
    && (forall j | 0 <= j < |r.items| && j != u.pending[u.k] :: r'.items[j] == r.items[j])
    && u'.pending == u.pending && (u'.pc == Ending(Cancelled) || (u'.pc == Top && u'.k == u.k + 1))
  }

  lemma CountingKeeps(r: Record, u: Run, col: Column)
    requires RunOk(r, u) && u.pc in {DoneWritten, FailedWritten} && Current(r, u).Some?
    ensures var (r', u') := Counting(r, u); RunOk(r', u') && KeepsGap(r, u, r', u', col)
  {
    if u.pc == FailedWritten {
      FailedKeeps(r, u);
      FailedGap(r, u, col);
    } else {
      CountKeeps(r, u);
      CountGap(r, u, col);
      var (r', u') := CountStep(r, u);
      if u'.pc == CountWritten {
        BytesKeeps(r', u');
        BytesGap(r', u', col);
      }
    }
  }

  lemma AttemptRunKeeps(r: Record, u: Run, attempt: Attempt, col: Column)
    requires RunOk(r, u) && u.pc == Attempting && Current(r, u).Some?
    ensures var (r1, u1) := AttemptStep(r, u, attempt);
            var (r', u') := Counting(r1, u1);
            RunOk(r', u') && KeepsGap(r, u, r', u', col)
  {
    var (r1, u1) := AttemptStep(r, u, attempt);
    CurrentState(r, u);
    AttemptKeeps(r, u, attempt);
    AttemptGap(r, u, attempt, col);
    if u1.pc in {DoneWritten, FailedWritten} {
      CountingKeeps(r1, u1, col);
    }
  }

  lemma ItemRunKeeps(r: Record, u: Run, attempt: Attempt, col: Column)
    requires RunOk(r, u) && u.pc == Top && Current(r, u).Some?
    ensures var (r', u') := ItemRun(r, u, attempt);
            RunOk(r', u') && KeepsGap(r, u, r', u', col)
  {
    var (r1, u1) := BeginStep(r, u);
    CurrentState(r, u);
    BeginKeeps(r, u);
    BeginGap(r, u, col);
    if u1.pc == MarkerCounted {
      CurrentState(r1, u1);
      MarkerKeeps(r1, u1);
      MarkerGap(r1, u1, col);
    } else if u1.pc == Attempting {
      AttemptRunKeeps(r1, u1, attempt, col);
    }
  }

  lemma ItemRunMoves(r: Record, u: Run, attempt: Attempt)
    requires u.pc == Top && Current(r, u).Some?
    ensures var (r', u') := ItemRun(r, u, attempt); MovedOn(r, u, r', u')
  {
    var (r1, u1) := BeginStep(r, u);
    if u1.pc == Attempting {
      var (r2, u2) := AttemptStep(r1, u1, attempt);
      CountingMoves(r2, u2);
    }
  }

  lemma CountingMoves(r: Record, u: Run)
    requires Current(r, u).Some? && u.pc in {DoneWritten, FailedWritten, Ending(Cancelled)}
    ensures var (r', u') := Counting(r, u);
            && r'.items == r.items && u'.pending == u.pending
            && (u'.pc == Ending(Cancelled) || (u'.pc == Top && u'.k == u.k + 1))
  {}

  /** The whole loop: `stop(k)` tells whether the job is cancelled when item `k` is reached, `attempt(k)` how it ends. */
  function LoopRun(r: Record, u: Run, stop: nat -> bool, attempt: nat -> Attempt): (Record, Run)
    requires forall j | 0 <= j < |u.pending| :: u.pending[j] < |r.items|
    requires u.pc == Top && u.k <= |u.pending|
    decreases |u.pending| - u.k
  {
    var v := u.(cancelled := stop(u.k));
    if u.k == |u.pending| then (r, EndStep(v))
    else
      ItemRunMoves(r, v, attempt(u.k));
      var (r', u') := ItemRun(r, v, attempt(u.k));
      if u'.pc == Top then LoopRun(r', u', stop, attempt) else (r', u')
  }

  /** Every row that was done is as it was. */
  ghost predicate DoneKept(r: Record, r': Record) {
    |r'.items| == |r.items| && forall i | 0 <= i < |r.items| && r.items[i].state == Done :: r'.items[i] == r.items[i]
  }

  /** One turn of the loop, with the stop flag as it is found. */
  lemma TurnKeeps(r: Record, u: Run, stopped: bool, attempt: Attempt, col: Column)
    requires RunOk(r, u) && u.pc == Top && Current(r, u).Some?
    ensures var v := u.(cancelled := stopped);
            var (r', u') := ItemRun(r, v, attempt);
            RunOk(r', u') && MovedOn(r, v, r', u') && KeepsGap(r, u, r', u', col) && DoneKept(r, r')
  {
    var v := u.(cancelled := stopped);
    assert Current(r, v) == Current(r, u);
    MemAfter(r, u, r, v);
    CurrentState(r, u);
    ItemRunMoves(r, v, attempt);
    ItemRunKeeps(r, v, attempt, col);
  }

  lemma LastTurnKeeps(r: Record, u: Run, stopped: bool, col: Column)
    requires RunOk(r, u) && u.pc == Top && u.k == |u.pending|
    ensures var u' := EndStep(u.(cancelled := stopped)); RunOk(r, u') && KeepsGap(r, u, r, u', col)
  {
    MemAfter(r, u, r, u.(cancelled := stopped));
    EndKeeps(r, u.(cancelled := stopped));
  }

  /**
   * The loop without crashes: it ends finished, cancelled or failed; finished only when every row is settled; memory and
   * database agree; no count is made without a done row and no done row is left uncounted; what was done is untouched.
   */
  lemma {:induction false} LoopRunSound(r: Record, u: Run, stop: nat -> bool, attempt: nat -> Attempt, col: Column)
    requires RunOk(r, u) && u.pc == Top
    ensures var (r', u') := LoopRun(r, u, stop, attempt);
            RunOk(r', u') && u'.pc.Ending? && KeepsGap(r, u, r', u', col) && DoneKept(r, r')
    decreases |u.pending| - u.k
  {
    if u.k == |u.pending| {
      LastTurnKeeps(r, u, stop(u.k), col);
    } else {
      TurnKeeps(r, u, stop(u.k), attempt(u.k), col);
      var (r', u') := ItemRun(r, u.(cancelled := stop(u.k)), attempt(u.k));
      if u'.pc == Top {
        LoopRunSound(r', u', stop, attempt, col);
      }
    }
  }

  // ----- what the outcome of each attempt comes to -----------------------------------------------------

  /** The attempt restores the item: its kind is known and it did not fail; directories and links cannot be given up. */
  predicate Succeeds(item: Item, attempt: Attempt) {
    item.kind != Unknown && (attempt == Restored || (attempt == GaveUp && item.kind != File))
  }

  /** The download of a file is given up half-way, because the job was cancelled. */
  predicate GivenUp(item: Item, attempt: Attempt) {
    !item.deleteMarker && item.kind == File && attempt == GaveUp
  }

  /** The state that a row should end up in. */
  function Outcome(item: Item, attempt: Attempt): FileState {
    if item.deleteMarker then Skipped
    else if GivenUp(item, attempt) then InProgress
    else if Succeeds(item, attempt) then Done else ItemFailed
  }

  /**
   * One item of a job that is not cancelled: its row is done exactly if the attempt restored it, failed exactly if the
   * attempt failed or the kind is unknown, skipped if it is a delete marker, and in progress if it was given up, which ends
   * the job as cancelled. The job has restored something exactly if it had before or this item is done.
   */
  lemma ItemOutcome(r: Record, u: Run, attempt: Attempt)
    requires u.pc == Top && Current(r, u).Some? && !u.cancelled
    ensures var item := Current(r, u).value;
            var (r', u') := ItemRun(r, u, attempt);
            && r'.items == r.items[u.pending[u.k] := item.(state := Outcome(item, attempt))]
            && (u'.pc == Ending(Cancelled) <==> GivenUp(item, attempt))
            && (u'.pc == Top ==> u'.restoredAny == (u.restoredAny || Outcome(item, attempt) == Done) && !u'.cancelled)
  {
    var (r1, u1) := BeginStep(r, u);
    if u1.pc == Attempting {
      assert Current(r1, u1) == Some(Current(r, u).value.(state := InProgress));
      assert r1.items[u.pending[u.k] := Current(r, u).value] == r.items;
      var (r2, u2) := AttemptStep(r1, u1, attempt);
      assert r2.items == if u2.pc.Ending? then r1.items
                      else r.items[u.pending[u.k] := Current(r, u).value.(state := if u2.pc == DoneWritten then Done else ItemFailed)];
    }
  }

  ghost predicate PendingIn(items: seq<Item>, pending: seq<nat>) {
    && (forall j | 0 <= j < |pending| :: pending[j] < |items|)
    && (forall i, j | 0 <= i < j < |pending| :: pending[i] != pending[j])
  }

  /** The loop does not get past this place: the job is found stopped there, or the download of the item is given up. */
  ghost predicate Interrupts(items: seq<Item>, pending: seq<nat>, stop: nat -> bool, attempt: nat -> Attempt, j: nat)
    requires PendingIn(items, pending)
  {
    stop(j) || (j < |pending| && GivenUp(items[pending[j]], attempt(j)))
  }

  ghost predicate Ends(items: seq<Item>, items': seq<Item>, i: nat, attempt: Attempt)
    requires i < |items| == |items'|
  {
    items'[i] == items[i].(state := Outcome(items[i], attempt))
  }

  /** The pending items from `k` to `n` have ended as their attempts say, and all other rows are as they were. */
  ghost predicate Settled(items: seq<Item>, items': seq<Item>, pending: seq<nat>, attempt: nat -> Attempt, k: nat, n: nat)
    requires PendingIn(items, pending) && n <= |pending|
  {
    && |items'| == |items|
    && (forall j | k <= j < n :: Ends(items, items', pending[j], attempt(j)))
    && (forall i | 0 <= i < |items| && (forall j | k <= j < n :: pending[j] != i) :: items'[i] == items[i])
  }

  /** One of these items is restored. */
  ghost predicate Restores(items: seq<Item>, pending: seq<nat>, attempt: nat -> Attempt, k: nat, n: nat)
    requires PendingIn(items, pending) && n <= |pending|
  {
    exists j | k <= j < n :: Outcome(items[pending[j]], attempt(j)) == Done
  }

  /** What follows the first item is the same before and after it. */
  lemma SettledTail(items: seq<Item>, m: seq<Item>, items': seq<Item>, pending: seq<nat>, attempt: nat -> Attempt, k: nat, n: nat)
    requires PendingIn(items, pending) && k < n <= |pending|
    requires m == items[pending[k] := items[pending[k]].(state := Outcome(items[pending[k]], attempt(k)))]
    requires Settled(m, items', pending, attempt, k + 1, n)
    ensures Settled(items, items', pending, attempt, k, n)
  {
    forall j | k < j < n ensures m[pending[j]] == items[pending[j]] {}
    forall j | k <= j < n ensures Ends(items, items', pending[j], attempt(j)) {
      if j > k {
        assert Ends(m, items', pending[j], attempt(j));
      }
    }
  }

  lemma RestoresTail(items: seq<Item>, m: seq<Item>, pending: seq<nat>, attempt: nat -> Attempt, k: nat, n: nat)
    requires PendingIn(items, pending) && k < n <= |pending|
    requires |m| == |items| && forall i | 0 <= i < |m| && i != pending[k] :: m[i] == items[i]
    ensures Restores(items, pending, attempt, k, n) <==> Outcome(items[pending[k]], attempt(k)) == Done || Restores(m, pending, attempt, k + 1, n)
  {
    if Restores(m, pending, attempt, k + 1, n) {
      var j :| k < j < n && Outcome(m[pending[j]], attempt(j)) == Done;
      assert Outcome(items[pending[j]], attempt(j)) == Done;
    }
    if Restores(items, pending, attempt, k, n) && Outcome(items[pending[k]], attempt(k)) != Done {
      var j :| k <= j < n && Outcome(items[pending[j]], attempt(j)) == Done;
      assert Outcome(m[pending[j]], attempt(j)) == Done;
    }
  }

  /** The place where the loop ends: the first that interrupts it, or behind the last item. */
  ghost predicate EndsAt(items: seq<Item>, pending: seq<nat>, stop: nat -> bool, attempt: nat -> Attempt, k: nat, n: nat)
    requires PendingIn(items, pending)
  {
    && k <= n <= |pending| && (n == |pending| || Interrupts(items, pending, stop, attempt, n))
    && forall j | k <= j < n :: !Interrupts(items, pending, stop, attempt, j)
  }

  /** The result of a loop that ends there. */
  ghost function LoopResult(items: seq<Item>, pending: seq<nat>, stop: nat -> bool, attempt: nat -> Attempt, any: bool, k: nat, n: nat): JobState
    requires PendingIn(items, pending) && n <= |pending|
  {
    if Interrupts(items, pending, stop, attempt, n) then Cancelled
    else if any || Restores(items, pending, attempt, k, n) then Finished else Failed
  }

  lemma EndsAtLater(items: seq<Item>, m: seq<Item>, pending: seq<nat>, stop: nat -> bool, attempt: nat -> Attempt, k: nat, n: nat)
    requires PendingIn(items, pending) && k < n && EndsAt(items, pending, stop, attempt, k, n)
    requires |m| == |items| && forall i | 0 <= i < |m| && i != pending[k] :: m[i] == items[i]
    ensures PendingIn(m, pending) && EndsAt(m, pending, stop, attempt, k + 1, n)
    ensures Interrupts(m, pending, stop, attempt, n) <==> Interrupts(items, pending, stop, attempt, n)
  {
    forall j | k < j <= n ensures Interrupts(m, pending, stop, attempt, j) <==> Interrupts(items, pending, stop, attempt, j) {
      if j < |pending| {
        assert m[pending[j]] == items[pending[j]];
      }
    }
  }

  /** The last place of the loop. */
  lemma {:induction false} LoopEnds(r: Record, u: Run, stop: nat -> bool, attempt: nat -> Attempt)
    requires PendingIn(r.items, u.pending) && u.pc == Top && EndsAt(r.items, u.pending, stop, attempt, u.k, u.k)
    ensures var (r', u') := LoopRun(r, u, stop, attempt);
            && u'.pc == Ending(LoopResult(r.items, u.pending, stop, attempt, u.restoredAny, u.k, u.k))
            && Settled(r.items, r'.items, u.pending, attempt, u.k, if stop(u.k) || u.k == |u.pending| then u.k else u.k + 1)
  {
    var v := u.(cancelled := stop(u.k));
    if u.k < |u.pending| && !stop(u.k) {
      ItemOutcome(r, v, attempt(u.k));
      var (r', u') := ItemRun(r, v, attempt(u.k));
      assert Ends(r.items, r'.items, u.pending[u.k], attempt(u.k));
    }
  }

  /**
   * The whole loop without crashes, told from the attempts alone. Every item up to the place where the loop ends is done
   * exactly if its attempt restored it, failed if not, skipped if it is a delete marker; all other rows are as they were.
   * The result is `cancelled` exactly if the loop was interrupted, and otherwise `finished` exactly if something was restored.
   */
  lemma {:induction false} LoopOutcome(r: Record, u: Run, stop: nat -> bool, attempt: nat -> Attempt, n: nat)
    requires PendingIn(r.items, u.pending) && u.pc == Top && EndsAt(r.items, u.pending, stop, attempt, u.k, n)
    ensures var (r', u') := LoopRun(r, u, stop, attempt);
            && u'.pc == Ending(LoopResult(r.items, u.pending, stop, attempt, u.restoredAny, u.k, n))
            && Settled(r.items, r'.items, u.pending, attempt, u.k, if stop(n) || n == |u.pending| then n else n + 1)
    decreases n - u.k
  {
    if u.k == n {
      LoopEnds(r, u, stop, attempt);
    } else {
      var v := u.(cancelled := stop(u.k));
      assert !Interrupts(r.items, u.pending, stop, attempt, u.k);
      ItemOutcome(r, v, attempt(u.k));
      ItemRunMoves(r, v, attempt(u.k));
      var (m, w) := ItemRun(r, v, attempt(u.k));
      EndsAtLater(r.items, m.items, u.pending, stop, attempt, u.k, n);
      LoopOutcome(m, w, stop, attempt, n);
      var (r', u') := LoopRun(m, w, stop, attempt);
      assert LoopRun(r, u, stop, attempt) == (r', u');
      SettledTail(r.items, m.items, r'.items, u.pending, attempt, u.k, if stop(n) || n == |u.pending| then n else n + 1);
      RestoresTail(r.items, m.items, u.pending, attempt, u.k, n);
    }
  }

  // ----- the loop as steps of the protocol --------------------------------------------------------------

  /** A run that works on its manifest, seen as a world. */
  function At(w: World, r: Record, u: Run): World {
    w.(record := Some(r), run := Some(u))
  }

  /** The writes of the loop, one after the other, are steps of the protocol; one that does not fit changes nothing. */
  function Writes(w: World): World {
    Step(Step(Step(w, WriteCount), WriteBytes), WriteFailed)
  }

  function ItemSteps(w: World, attempt: Attempt): World {
    Writes(Step(Step(Step(w, BeginItem), CountedMarker), EndAttempt(attempt)))
  }

  lemma IdleWrites(w: World)
    requires w.up && w.run.Some? && w.record.Some? && (w.run.value.pc == Top || w.run.value.pc.Ending?)
    ensures Writes(w) == w
  {
    assert At(w, w.record.value, w.run.value) == w;
  }

  lemma DoneIsCounted(w: World, r: Record, u: Run)
    requires w.up && Current(r, u).Some? && u.pc == DoneWritten
    ensures var (r', u') := Counting(r, u); Writes(At(w, r, u)) == At(w, r', u')
  {
    var (r1, u1) := CountStep(r, u);
    assert Step(At(w, r, u), WriteCount) == At(w, r1, u1);
    if u1.pc == CountWritten {
      var (r2, u2) := BytesStep(r1, u1);
      assert Step(At(w, r1, u1), WriteBytes) == At(w, r2, u2);
      assert Step(At(w, r2, u2), WriteFailed) == At(w, r2, u2);
    } else {
      assert Step(Step(At(w, r1, u1), WriteBytes), WriteFailed) == At(w, r1, u1);
    }
  }

  lemma FailureIsCounted(w: World, r: Record, u: Run)
    requires w.up && Current(r, u).Some? && u.pc == FailedWritten
    ensures var (r', u') := Counting(r, u); Writes(At(w, r, u)) == At(w, r', u')
  {
    assert Step(Step(At(w, r, u), WriteCount), WriteBytes) == At(w, r, u);
  }

  lemma AttemptIsSteps(w: World, r: Record, u: Run, attempt: Attempt)
    requires w.up && Current(r, u).Some? && u.pc == Attempting
    ensures var (r1, u1) := AttemptStep(r, u, attempt);
            var (r', u') := Counting(r1, u1);
            Writes(Step(Step(At(w, r, u), CountedMarker), EndAttempt(attempt))) == At(w, r', u')
  {
    var (r1, u1) := AttemptStep(r, u, attempt);
    assert Step(At(w, r, u), CountedMarker) == At(w, r, u);
    assert Step(At(w, r, u), EndAttempt(attempt)) == At(w, r1, u1);
    if u1.pc.Ending? {
      IdleWrites(At(w, r1, u1));
    } else if u1.pc == DoneWritten {
      DoneIsCounted(w, r1, u1);
    } else {
      FailureIsCounted(w, r1, u1);
    }
  }

  /** One item as the loop works on it is a sequence of steps of the protocol, between any two of which a crash may fall. */
  lemma ItemRunIsSteps(w: World, r: Record, u: Run, attempt: Attempt)
    requires w.up && Current(r, u).Some? && u.pc == Top
    ensures var (r', u') := ItemRun(r, u, attempt); ItemSteps(At(w, r, u), attempt) == At(w, r', u')
  {
    var (r1, u1) := BeginStep(r, u);
    assert Step(At(w, r, u), BeginItem) == At(w, r1, u1);
    if u1.pc == Attempting {
      AttemptIsSteps(w, r1, u1, attempt);
    } else if u1.pc == MarkerCounted {
      MarkerIsSteps(w, r1, u1, attempt);
    } else {
      assert Step(Step(At(w, r1, u1), CountedMarker), EndAttempt(attempt)) == At(w, r1, u1);
      IdleWrites(At(w, r1, u1));
    }
  }

  lemma MarkerIsSteps(w: World, r: Record, u: Run, attempt: Attempt)
    requires w.up && Current(r, u).Some? && u.pc == MarkerCounted
    ensures Writes(Step(Step(At(w, r, u), CountedMarker), EndAttempt(attempt))) == At(w, SetState(r, u, Skipped), Advance(u))
  {
    var r2, u2 := SetState(r, u, Skipped), Advance(u);
    assert Step(At(w, r, u), CountedMarker) == At(w, r2, u2);
    assert Step(At(w, r2, u2), EndAttempt(attempt)) == At(w, r2, u2);
    IdleWrites(At(w, r2, u2));
  }

  /** A stop that was requested is found at the next item, or behind the last one, and ends the job as cancelled. */
  lemma StopIsHonoured(w: World)
    requires w.up && w.run.Some? && w.record.Some? && w.run.value.pc == Top
    ensures var end := Step(Step(Step(w, RequestStop), if Current(w.record.value, w.run.value).Some? then BeginItem else EndLoop), Finalize);
            end == w.(record := Some(w.record.value.(state := Cancelled)), run := None)
  {
    var r, u := w.record.value, w.run.value.(cancelled := true);
    assert Step(w, RequestStop) == At(w, r, u) && Current(r, u) == Current(r, w.run.value);
    var a := if Current(r, u).Some? then BeginItem else EndLoop;
    assert Step(At(w, r, u), a) == At(w, r, u.(pc := Ending(Cancelled)));
  }

  /** A job as it is about to work on its manifest for the first time. */
  function Fresh(items: seq<Item>, order: seq<nat>): World {
    Step(Step(Step(START, StartJob(false)), WriteManifest(items, false)), LoadPending(order))
  }

  lemma FreshIs(items: seq<Item>, order: seq<nat>)
    requires items != [] && order != []
    ensures Fresh(items, order) == At(START, Record(Started, Unstarted(items), ZERO), Run(Top, ZERO, order, 0, false, false))
  {
    var r := Record(Started, [], ZERO);
    var u := Run(Init, ZERO, [], 0, false, false);
    assert Step(START, StartJob(false)) == At(START, r, u);
    var r' := r.(items := Unstarted(items));
    assert Step(At(START, r, u), WriteManifest(items, false)) == At(START, r', u.(pc := Load));
  }

  /** Settling rows changes nothing but their states. */
  lemma SettledKeepsFields(items: seq<Item>, items': seq<Item>, pending: seq<nat>, attempt: nat -> Attempt, n: nat, i: nat)
    requires PendingIn(items, pending) && n <= |pending| && Settled(items, items', pending, attempt, 0, n) && i < |items|
    ensures items'[i] == items[i].(state := items'[i].state)
  {
    if j :| 0 <= j < n && pending[j] == i {
      assert Ends(items, items', pending[j], attempt(j));
    }
  }

  /** The end of a run stores its result and nothing else. */
  lemma FinalizeWrites(w: World, r: Record, u: Run)
    requires w.up && u.pc.Ending?
    ensures Step(At(w, r, u), Finalize) == w.(record := Some(r.(state := u.pc.result)), run := None)
  {}

  lemma {:induction false} FreshLoop(items: seq<Item>, order: seq<nat>, stop: nat -> bool, attempt: nat -> Attempt, n: nat)
    requires PendingIn(items, order) && EndsAt(items, order, stop, attempt, 0, n)
    ensures PendingIn(Unstarted(items), order)
    ensures var (r, u) := LoopRun(Record(Started, Unstarted(items), ZERO), Run(Top, ZERO, order, 0, false, false), stop, attempt);
            && u.pc == Ending(LoopResult(items, order, stop, attempt, false, 0, n))
            && Settled(Unstarted(items), r.items, order, attempt, 0, if stop(n) || n == |order| then n else n + 1)
            && forall i | 0 <= i < |items| :: r.items[i] == items[i].(state := r.items[i].state)
  {
    var rows, start := Unstarted(items), Run(Top, ZERO, order, 0, false, false);
    SameButState(items, rows, order, stop, attempt, n);
    LoopOutcome(Record(Started, rows, ZERO), start, stop, attempt, n);
    var (r, u) := LoopRun(Record(Started, rows, ZERO), start, stop, attempt);
    forall i | 0 <= i < |items| ensures r.items[i] == items[i].(state := r.items[i].state) {
      SettledKeepsFields(rows, r.items, order, attempt, if stop(n) || n == |order| then n else n + 1, i);
    }
  }

  /**
   * A whole new job without crashes, from its start to its stored record: each row of the manifest it was given has ended
   * as its attempt says, and the state of the job is the result of the loop.
   */
  lemma {:induction false} FreshJobOutcome(items: seq<Item>, order: seq<nat>, stop: nat -> bool, attempt: nat -> Attempt, n: nat)
    returns (r: Record, u: Run)
    requires items != [] && order != [] && PendingIn(items, order)
    requires EndsAt(items, order, stop, attempt, 0, n)
    ensures var start := Run(Top, ZERO, order, 0, false, false);
            && Fresh(items, order) == At(START, Record(Started, Unstarted(items), ZERO), start)
            && PendingIn(Unstarted(items), order)
            && (r, u) == LoopRun(Record(Started, Unstarted(items), ZERO), start, stop, attempt)
    ensures Settled(Unstarted(items), r.items, order, attempt, 0, if stop(n) || n == |order| then n else n + 1)
    ensures forall i | 0 <= i < |items| :: r.items[i] == items[i].(state := r.items[i].state)
    ensures Step(At(START, r, u), Finalize) == START.(record := Some(r.(state := LoopResult(items, order, stop, attempt, false, 0, n))))
  {
    FreshIs(items, order);
    FreshLoop(items, order, stop, attempt, n);
    var (r', u') := LoopRun(Record(Started, Unstarted(items), ZERO), Run(Top, ZERO, order, 0, false, false), stop, attempt);
    r, u := r', u';
    FinalizeWrites(START, r, u);
  }

  /** What the attempts come to does not depend on the states the rows start in. */
  lemma SameButState(items: seq<Item>, rows: seq<Item>, order: seq<nat>, stop: nat -> bool, attempt: nat -> Attempt, n: nat)
    requires |rows| == |items| && forall i | 0 <= i < |items| :: rows[i] == items[i].(state := rows[i].state)
    requires PendingIn(items, order) && EndsAt(items, order, stop, attempt, 0, n)
    ensures PendingIn(rows, order) && EndsAt(rows, order, stop, attempt, 0, n)
    ensures LoopResult(rows, order, stop, attempt, false, 0, n) == LoopResult(items, order, stop, attempt, false, 0, n)
  {
    forall j | 0 <= j <= n ensures Interrupts(rows, order, stop, attempt, j) <==> Interrupts(items, order, stop, attempt, j) {}
    forall j | 0 <= j < n ensures Outcome(rows[order[j]], attempt(j)) == Outcome(items[order[j]], attempt(j)) {}
  }

  /** The stored record and the in-memory counters of the job that `Do` works on. */
  class RestoreJob {
    var items: seq<Item>
    var counters: Counters
    var mem: Counters

    ghost function Rec(): Record
      reads this
    {
      Record(Started, items, counters)
    }

    constructor (items: seq<Item>, counters: Counters)
      ensures this.items == items && this.counters == counters && mem == counters
    {
      this.items, this.counters, mem := items, counters, counters;
    }

    /** `SetFileState` */
    method SetFileState(i: nat, s: FileState)
      requires i < |items|
      modifies this`items
      ensures items == old(items)[i := old(items)[i].(state := s)]
    {
      items := items[i := items[i].(state := s)];
    }

    /** What follows the attempt: the row's new state and the counters. */
    method FinishItem(i: nat, attempt: Attempt, ghost u: Run) returns (restored: bool, cancelled: bool)
      requires i < |items| && u.k < |u.pending| && u.pending[u.k] == i && u.mem == mem && u.pc == Attempting
      modifies this
      ensures var (r1, u1) := AttemptStep(old(Rec()), u, attempt);
              var (r2, u2) := Counting(r1, u1);
              && Rec() == r2 && u2.mem == mem && restored == (u1.pc == DoneWritten)
              && u2 == if cancelled then u.(pc := Ending(Cancelled)) else u.(pc := Top, k := u.k + 1, mem := mem, restoredAny := u.restoredAny || restored)
      ensures var item := old(items)[i];
              && restored == Succeeds(item, attempt) && cancelled == (item.kind == File && attempt == GaveUp)
              && items == if cancelled then old(items) else old(items)[i := item.(state := if restored then Done else ItemFailed)]
    {
      var item := items[i];
      if attempt == NotRestored || item.kind == Unknown {
        mem := Bumped(mem, FailedFiles, 1);
        SetFileState(i, ItemFailed);
        counters := Bumped(counters, FailedFiles, 1);
        return false, false;
      }
      if attempt == GaveUp && item.kind == File {
        return false, true;
      }
      mem := Bumped(mem, ColumnOf(item.kind), 1);
      SetFileState(i, Done);
      counters := Bumped(counters, ColumnOf(item.kind), 1);
      if SizeOf(item) > 0 {
        counters := Bumped(counters, BytesRestored, SizeOf(item));
      }
      return true, false;
    }

    /** The body of the loop for one item, from the top to the last write. */
    method RestoreItem(pending: seq<nat>, k: nat, any: bool, attempt: Attempt) returns (restored: bool, cancelled: bool)
      requires k < |pending| && pending[k] < |items|
      modifies this
      ensures var u := Run(Top, old(mem), pending, k, any, false);
              var after := if cancelled then Run(Ending(Cancelled), mem, pending, k, any, false)
                           else Run(Top, mem, pending, k + 1, any || restored, false);
              (Rec(), after) == ItemRun(old(Rec()), u, attempt)
      ensures var item := old(items)[pending[k]];
              && items == old(items)[pending[k] := item.(state := Outcome(item, attempt))]
              && restored == (Outcome(item, attempt) == Done) && cancelled == GivenUp(item, attempt)
    {
      ItemOutcome(Rec(), Run(Top, mem, pending, k, any, false), attempt);
      var i := pending[k];
      if items[i].deleteMarker {
        mem := Bumped(mem, SkippedMarkers, 1);
        counters := Bumped(counters, SkippedMarkers, 1);
        SetFileState(i, Skipped);
        return false, false;
      }
      SetFileState(i, InProgress);
      restored, cancelled := FinishItem(i, attempt, Run(Attempting, mem, pending, k, any, false));
    }

    /** The main loop of `Do`. */
    method RestoreItems(pending: seq<nat>, stop: nat -> bool, attempt: nat -> Attempt) returns (result: JobState)
      requires forall j | 0 <= j < |pending| :: pending[j] < |items|
      modifies this
      ensures var (r, u) := LoopRun(old(Rec()), Run(Top, old(mem), pending, 0, false, false), stop, attempt);
              r == Rec() && u.pc == Ending(result) && u.mem == mem
      ensures PendingIn(old(items), pending) ==> forall n: nat | EndsAt(old(items), pending, stop, attempt, 0, n) ::
                && result == LoopResult(old(items), pending, stop, attempt, false, 0, n)
                && Settled(old(items), items, pending, attempt, 0, if stop(n) || n == |pending| then n else n + 1)
    {
      if PendingIn(items, pending) {
        forall n: nat | EndsAt(items, pending, stop, attempt, 0, n)
          ensures var (r, u) := LoopRun(Rec(), Run(Top, mem, pending, 0, false, false), stop, attempt);
                  && u.pc == Ending(LoopResult(items, pending, stop, attempt, false, 0, n))
                  && Settled(items, r.items, pending, attempt, 0, if stop(n) || n == |pending| then n else n + 1)
        {
          LoopOutcome(Rec(), Run(Top, mem, pending, 0, false, false), stop, attempt, n);
        }
      }
      var k, any := 0, false;
      ghost var goal := LoopRun(Rec(), Run(Top, mem, pending, 0, false, false), stop, attempt);
      while k < |pending|
        invariant k <= |pending| && |items| == |old(items)|
        invariant LoopRun(Rec(), Run(Top, mem, pending, k, any, false), stop, attempt) == goal
      {
        ghost var r, u := Rec(), Run(Top, mem, pending, k, any, false);
        LoopRunUnfolds(r, u, stop, attempt);
        if stop(k) {
          assert goal == (r, u.(cancelled := true, pc := Ending(Cancelled)));
          return Cancelled;
        }
        var restored, cancelled := RestoreItem(pending, k, any, attempt(k));
        ghost var next := ItemRun(r, u, attempt(k));
        assert goal == if next.1.pc == Top then LoopRun(next.0, next.1, stop, attempt) else next;
        assert next.0 == Rec() && next.1.mem == mem;
        if cancelled {
          return Cancelled;
        }
        k, any := k + 1, any || restored;
        assert next.1 == Run(Top, mem, pending, k, any, false);
      }
      return if stop(k) then Cancelled else if any then Finished else Failed;
    }
  }

  /** One turn of the loop. */
  lemma {:induction false} LoopRunUnfolds(r: Record, u: Run, stop: nat -> bool, attempt: nat -> Attempt)
    requires forall j | 0 <= j < |u.pending| :: u.pending[j] < |r.items|
    requires u.pc == Top && u.k < |u.pending| && !u.cancelled
    ensures var (r', u') := ItemRun(r, u, attempt(u.k));
            && |r'.items| == |r.items|
            && (u'.pc == Top ==> u'.pending == u.pending && u'.k == u.k + 1)
            && LoopRun(r, u, stop, attempt) ==
               if stop(u.k) then (r, u.(cancelled := true, pc := Ending(Cancelled)))
               else if u'.pc == Top then LoopRun(r', u', stop, attempt) else (r', u')
  {
    ItemRunMoves(r, u, attempt(u.k));
    if stop(u.k) {
      assert ItemRun(r, u.(cancelled := true), attempt(u.k)) == (r, u.(cancelled := true, pc := Ending(Cancelled)));
    } else {
      assert u.(cancelled := false) == u;
    }
  }
}
