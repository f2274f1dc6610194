/** Incremental equals full: what the collection of a job holds once `Do` has succeeded for its paths. */
module LedgerJobs {
  import opened Common
  import opened Records
  import opened Ledger
  import opened LedgerTables
  import opened LedgerEffects
  import opened LedgerTransactions
  import opened LedgerHistory

  /** One path of a job: what the run observes of it, and what `Do` meets. */
  datatype Item = Item(path: string, disk: Disk, env: DoEnv)

  function EventOf(item: Item, cfg: Config, job: string): Event {
    Back(item.path, item.disk, cfg, job, item.env)
  }

  /** `Do` succeeded: it committed, or found the path up to date and extended the collection on every target. */
  predicate Succeeds(out: DoOutcome) {
    out == Backed(Committed) || out == UpToDate(true)
  }

  /** What a call of `Do` meets: fresh versions and uuids, and on these targets nothing to skip. */
  ghost predicate ItemOk(st: State, item: Item, cfg: Config, targets: seq<string>, job: string, good: seq<string>) {
    EventOk(st, targets, EventOf(item, cfg, job)) && EventSkipFree(st, EventOf(item, cfg, job), good)
  }

  function ItemOutcome(st: State, item: Item, cfg: Config, targets: seq<string>, job: string): DoOutcome
    requires |item.env.targets| == |targets|
  {
    DoPath(st, item.path, item.disk, cfg, targets, job, item.env).1
  }

  function After(st: State, item: Item, cfg: Config, targets: seq<string>, job: string): State
    requires |item.env.targets| == |targets|
  {
    DoPath(st, item.path, item.disk, cfg, targets, job, item.env).0
  }

  // ----- one path --------------------------------------------------------------------------------

  /** What the tables say of a path, on a target and in a job, is unchanged. */
  ghost predicate SameFor(a: State, b: State, job: string, path: string, target: string) {
    && RowsOf(b.db.rows, path, target) == RowsOf(a.db.rows, path, target)
    && Held(b.db, job, path, target) == Held(a.db, job, path, target)
    && (path in b.db.files <==> path in a.db.files)
    && (path in a.db.files ==> b.db.files[path] == a.db.files[path])
  }

  /** `Do` leaves every other path alone. */
  lemma DoFrame(st: State, item: Item, cfg: Config, targets: seq<string>, job: string, j: string, p: string, t: string)
    requires TablesOk(st) && EventOk(st, targets, EventOf(item, cfg, job)) && p != item.path
    ensures SameFor(st, After(st, item, cfg, targets, job), j, p, t)
  {
    var c := CallOf(st, EventOf(item, cfg, job));
    if c.Some? {
      Nothing(st, c.value, targets, item.env.targets, item.env.tx);
      if Transact(st, c.value, targets, item.env.targets, item.env.tx).1 == Committed {
        All(st, c.value, targets, item.env.targets, item.env.tx, j, p, t);
      }
    } else {
      CollectKeeps(st, item.path, job, targets, item.env.targets);
      CollectShows(st, item.path, job, targets, item.env.targets, j, p, t);
    }
  }

  /** The row that stands for the path on a target: live, and the newest there. */
  ghost predicate Stands(st: State, path: string, target: string, r: Row) {
    var rs := RowsOf(st.db.rows, path, target);
    rs != [] && rs[|rs| - 1] == r && !r.deleteMarker && path in st.db.files && r.props == st.db.files[path]
  }

  /** With the tables in step, every target of a path in `files` has a newest live row, and it stands for the path. */
  lemma {:induction false} NewestLiveStands(st: State, good: seq<string>, path: string, t: string)
    requires Inv(st, good) && path in st.db.files && t in good
    ensures var r := Newest(st.db.rows, path, t, true); r.Some? && Stands(st, path, t, r.value)
  {
    assert Tells(st.db.files, path, RowsOf(st.db.rows, path, t));
    NewestLiveIsLast(st.db.rows, path, t);
  }

  lemma {:induction false} CollectHolds(st: State, path: string, job: string, targets: seq<string>, envs: seq<TargetEnv>, good: seq<string>, i: nat)
    requires Inv(st, good) && Distinct(targets) && path in st.db.files && i < |targets| == |envs| && targets[i] in good
    requires Held(st.db, job, path, targets[i]) == []
    ensures var (st', complete) := Collect(st, path, job, targets, envs);
            var held := Held(st'.db, job, path, targets[i]);
            && st' == st.(db := st.db.(coll := st'.db.coll))
            && |held| == (if envs[i].lookupErr || envs[i].collectErr then 0 else 1)
            && (held != [] ==> Stands(st', path, targets[i], held[0]))
            && (complete ==> held != [])
  {
    CollectKeeps(st, path, job, targets, envs);
    CollectShows(st, path, job, targets, envs, job, path, targets[i]);
    PickedAt(st.db.rows, targets, envs, path, i);
    NewestLiveStands(st, good, path, targets[i]);
  }

  /** When no target was ever skipped, the collection is complete exactly if none of the queries failed. */
  lemma {:induction false} CollectComplete(st: State, path: string, job: string, targets: seq<string>, envs: seq<TargetEnv>)
    requires Inv(st, targets) && path in st.db.files && |targets| == |envs|
    ensures Collect(st, path, job, targets, envs).1 <==>
            forall k | 0 <= k < |targets| :: !envs[k].lookupErr && !envs[k].collectErr
  {
    CollectKeeps(st, path, job, targets, envs);
    forall k | 0 <= k < |targets| ensures Newest(st.db.rows, path, targets[k], true).Some? {
      NewestLiveStands(st, targets, path, targets[k]);
    }
  }

  lemma {:induction false} UpToDateBranch(st: State, item: Item, cfg: Config, targets: seq<string>, job: string)
    requires |item.env.targets| == |targets|
    requires DoPath(st, item.path, item.disk, cfg, targets, job, item.env).1.UpToDate?
    ensures item.path in st.db.files && Agrees(st.db.files[item.path], item.disk, cfg)
    ensures var (st', complete) := Collect(st, item.path, job, targets, item.env.targets);
            DoPath(st, item.path, item.disk, cfg, targets, job, item.env) == (st', UpToDate(complete))
  {
    UpToDateIffAgrees(item.disk, st.db.files[item.path], cfg);
  }

  /**
   * The up-to-date branch reports success whatever its queries did. The job's collection gains the row of each target
   * whose two queries worked and of no other.
   */
  lemma UpToDateHolds(st: State, item: Item, cfg: Config, targets: seq<string>, job: string, good: seq<string>, i: nat)
    requires Inv(st, good) && EventOk(st, targets, EventOf(item, cfg, job)) && i < |targets| && targets[i] in good
    requires ItemOutcome(st, item, cfg, targets, job).UpToDate?
    requires Held(st.db, job, item.path, targets[i]) == []
    ensures var (st', out) := DoPath(st, item.path, item.disk, cfg, targets, job, item.env);
            var held := Held(st'.db, job, item.path, targets[i]);
            && st' == st.(db := st.db.(coll := st'.db.coll))
            && |held| == (if item.env.targets[i].lookupErr || item.env.targets[i].collectErr then 0 else 1)
            && (held != [] ==> Stands(st', item.path, targets[i], held[0]) && Agrees(held[0].props, item.disk, cfg))
            && (out.complete ==> held != [])
  {
    UpToDateBranch(st, item, cfg, targets, job);
    CollectHolds(st, item.path, job, targets, item.env.targets, good, i);
  }

  /** When no target was ever skipped, the branch is complete exactly if none of its queries failed. */
  lemma UpToDateComplete(st: State, item: Item, cfg: Config, targets: seq<string>, job: string)
    requires Inv(st, targets) && EventOk(st, targets, EventOf(item, cfg, job))
    requires ItemOutcome(st, item, cfg, targets, job).UpToDate?
    ensures ItemOutcome(st, item, cfg, targets, job).complete <==>
            forall k | 0 <= k < |targets| :: !item.env.targets[k].lookupErr && !item.env.targets[k].collectErr
  {
    UpToDateBranch(st, item, cfg, targets, job);
    CollectComplete(st, item.path, job, targets, item.env.targets);
  }

  /** A `Do` that neither commits nor finds the path up to date records nothing. */
  lemma FailedDoRecordsNothing(st: State, item: Item, cfg: Config, targets: seq<string>, job: string)
    requires TablesOk(st) && EventOk(st, targets, EventOf(item, cfg, job))
    requires !ItemOutcome(st, item, cfg, targets, job).UpToDate? && ItemOutcome(st, item, cfg, targets, job) != Backed(Committed)
    ensures After(st, item, cfg, targets, job).db == st.db
  {
    var c := CallOf(st, EventOf(item, cfg, job));
    if c.Some? {
      Nothing(st, c.value, targets, item.env.targets, item.env.tx);
    }
  }

  /** A `Do` that finds its job cancelled, or cannot read the record, does nothing. */
  lemma StoppedDoDoesNothing(st: State, item: Item, cfg: Config, targets: seq<string>, job: string)
    requires |item.env.targets| == |targets|
    ensures item.env.cancelled ==> ItemOutcome(st, item, cfg, targets, job) == Stopped && After(st, item, cfg, targets, job) == st
    ensures !item.env.cancelled && item.env.queryErr ==> ItemOutcome(st, item, cfg, targets, job) == Refused && After(st, item, cfg, targets, job) == st
  {}

  /** The record `Do` makes, compared with the disk. */
  lemma DecideAgrees(st: State, item: Item, cfg: Config, job: string)
    requires item.disk.md5 != Some("")
    requires CallOf(st, EventOf(item, cfg, job)).Some?
    ensures Agrees(CallOf(st, EventOf(item, cfg, job)).value.rec, item.disk, cfg) <==>
            Readable(item.disk, cfg) && !FlipLosesChecksum(st, item, cfg)
  {
    if item.path in st.db.files {
      UpdatedRecordAgrees(item.disk, st.db.files[item.path], cfg, job);
    } else {
      FullRecordAgrees(item.disk, cfg, if item.env.fallback.Some? then item.env.fallback.value else "", job);
    }
  }

  /** The encryption setting flipped while checksums are on, so the detector never computed the checksum. */
  predicate FlipLosesChecksum(st: State, item: Item, cfg: Config) {
    cfg.checksum && item.path in st.db.files && EncryptionFlip(item.disk, st.db.files[item.path], cfg)
  }

  /** The one row that the job's collection is due on a target after `Do` succeeded. */
  ghost predicate RecordsDisk(st: State, st': State, item: Item, cfg: Config, job: string, target: string) {
    var held := Held(st'.db, job, item.path, target);
    && |held| == 1 && Stands(st', item.path, target, held[0])
    && (Agrees(held[0].props, item.disk, cfg) <==> Readable(item.disk, cfg) && !FlipLosesChecksum(st, item, cfg))
  }

  lemma {:induction false} CommitStands(st: State, c: Call, targets: seq<string>, envs: seq<TargetEnv>, tx: TxEnv, t: string)
    requires TablesOk(st) && EnvOk(st, c.path, targets, envs) && c.op != Delete && SkipFree(c, [t]) && t in targets
    requires Transact(st, c, targets, envs, tx).1 == Committed
    requires Held(st.db, c.job, c.path, t) == []
    ensures var st' := Transact(st, c, targets, envs, tx).0;
            var held := Held(st'.db, c.job, c.path, t);
            && |held| == 1 && Stands(st', c.path, t, held[0]) && held[0].props == c.rec
            && RowFor(held[0], c, t, RowsOf(st.db.rows, c.path, t)) && Stores(st'.store, held[0], c)
  {
    All(st, c, targets, envs, tx, c.job, c.path, t);
    assert !(c.op in {New, ContentUpdate} && Skips(c, t));
  }

  /** `Do` succeeding without finding the path up to date. */
  lemma CommitBranch(st: State, item: Item, cfg: Config, targets: seq<string>, job: string)
    requires |item.env.targets| == |targets|
    requires Succeeds(DoPath(st, item.path, item.disk, cfg, targets, job, item.env).1)
    requires !DoPath(st, item.path, item.disk, cfg, targets, job, item.env).1.UpToDate?
    ensures var c := CallOf(st, EventOf(item, cfg, job));
            && c.Some?
            && DoPath(st, item.path, item.disk, cfg, targets, job, item.env).0 ==
               Transact(st, c.value, targets, item.env.targets, item.env.tx).0
            && Transact(st, c.value, targets, item.env.targets, item.env.tx).1 == Committed
  {}

  /**
   * Whichever branch ran, after any history: when `Do` succeeds the job's collection holds one live row for the path on
   * every target that was never skipped, and that row agrees with the disk on every field the detector compares.
   */
  lemma DoRecordsDisk(st: State, item: Item, cfg: Config, targets: seq<string>, job: string, good: seq<string>, i: nat)
    requires Inv(st, good) && ItemOk(st, item, cfg, targets, job, good) && i < |targets| && targets[i] in good
    requires Succeeds(ItemOutcome(st, item, cfg, targets, job))
    requires Held(st.db, job, item.path, targets[i]) == []
    ensures RecordsDisk(st, After(st, item, cfg, targets, job), item, cfg, job, targets[i])
  {
    if ItemOutcome(st, item, cfg, targets, job).UpToDate? {
      UpToDateHolds(st, item, cfg, targets, job, good, i);
      UpToDateBranch(st, item, cfg, targets, job);
    } else {
      CommitBranch(st, item, cfg, targets, job);
      DecideCall(st, item.path, item.disk, cfg, job, item.env);
      DecideAgrees(st, item, cfg, job);
      CommitStands(st, CallOf(st, EventOf(item, cfg, job)).value, targets, item.env.targets, item.env.tx, targets[i]);
    }
  }

  // ----- a whole job -----------------------------------------------------------------------------

  function JobRun(st: State, items: seq<Item>, cfg: Config, targets: seq<string>, job: string): State
    requires forall i | 0 <= i < |items| :: |items[i].env.targets| == |targets|
    decreases |items|
  {
    if |items| == 0 then st else JobRun(After(st, items[0], cfg, targets, job), items[1..], cfg, targets, job)
  }

  /** What the calls of `Do` in the job meet; any of them may fail or be cancelled. */
  ghost predicate JobOk(st: State, items: seq<Item>, cfg: Config, targets: seq<string>, job: string, good: seq<string>)
    decreases |items|
  {
    |items| > 0 ==>
      && ItemOk(st, items[0], cfg, targets, job, good)
      && JobOk(After(st, items[0], cfg, targets, job), items[1..], cfg, targets, job, good)
  }

  /** How the call for one path of the job ends. */
  function OutcomeOf(st: State, items: seq<Item>, cfg: Config, targets: seq<string>, job: string, i: nat): DoOutcome
    requires i < |items| && forall i | 0 <= i < |items| :: |items[i].env.targets| == |targets|
    decreases i
  {
    if i == 0 then ItemOutcome(st, items[0], cfg, targets, job)
    else OutcomeOf(After(st, items[0], cfg, targets, job), items[1..], cfg, targets, job, i - 1)
  }

  ghost predicate DistinctPaths(items: seq<Item>) {
    forall i, j | 0 <= i < j < |items| :: items[i].path != items[j].path
  }

  lemma {:induction false} JobFrame(st: State, items: seq<Item>, cfg: Config, targets: seq<string>, job: string, good: seq<string>,
                                    j: string, p: string, t: string)
    requires forall i | 0 <= i < |items| :: |items[i].env.targets| == |targets|
    requires TablesOk(st) && JobOk(st, items, cfg, targets, job, good) && forall i | 0 <= i < |items| :: items[i].path != p
    ensures SameFor(st, JobRun(st, items, cfg, targets, job), j, p, t)
    decreases |items|
  {
    if |items| > 0 {
      StepKeepsTables(st, targets, EventOf(items[0], cfg, job));
      DoFrame(st, items[0], cfg, targets, job, j, p, t);
      JobFrame(After(st, items[0], cfg, targets, job), items[1..], cfg, targets, job, good, j, p, t);
    }
  }

  lemma RecordsDiskFrame(a: State, a': State, b: State, b': State, item: Item, cfg: Config, job: string, t: string)
    requires SameFor(a, a', job, item.path, t) && SameFor(b, b', job, item.path, t)
    requires RecordsDisk(a', b, item, cfg, job, t)
    ensures RecordsDisk(a, b', item, cfg, job, t)
  {}

  /** What the first call of a job records stays as it is until the end of the job. */
  lemma {:induction false} FirstRecordsDisk(st: State, items: seq<Item>, cfg: Config, targets: seq<string>, job: string,
                                            good: seq<string>, k: nat)
    requires forall i | 0 <= i < |items| :: |items[i].env.targets| == |targets|
    requires Inv(st, good) && JobOk(st, items, cfg, targets, job, good) && DistinctPaths(items)
    requires |items| > 0 && k < |targets| && targets[k] in good && Held(st.db, job, items[0].path, targets[k]) == []
    requires Succeeds(ItemOutcome(st, items[0], cfg, targets, job))
    ensures RecordsDisk(st, JobRun(st, items, cfg, targets, job), items[0], cfg, job, targets[k])
  {
    var m, end := After(st, items[0], cfg, targets, job), JobRun(st, items, cfg, targets, job);
    DoRecordsDisk(st, items[0], cfg, targets, job, good, k);
    StepKeepsTables(st, targets, EventOf(items[0], cfg, job));
    JobFrame(m, items[1..], cfg, targets, job, good, job, items[0].path, targets[k]);
    RecordsDiskFrame(st, st, m, end, items[0], cfg, job, targets[k]);
  }

  /** After its first call, the rest of a job is a job, and its paths are as they were. */
  lemma {:induction false} RestIsAJob(st: State, items: seq<Item>, cfg: Config, targets: seq<string>, job: string, good: seq<string>,
                                      i: nat, t: string)
    requires forall i | 0 <= i < |items| :: |items[i].env.targets| == |targets|
    requires Inv(st, good) && Among(good, targets) && JobOk(st, items, cfg, targets, job, good) && DistinctPaths(items) && 0 < i < |items|
    ensures var m := After(st, items[0], cfg, targets, job);
            && Inv(m, good) && JobOk(m, items[1..], cfg, targets, job, good) && DistinctPaths(items[1..])
            && SameFor(st, m, job, items[i].path, t)
  {
    StepKeepsInv(st, targets, EventOf(items[0], cfg, job), good);
    DoFrame(st, items[0], cfg, targets, job, job, items[i].path, t);
  }

  /**
   * After a whole job, in which any number of other paths may have failed, its collection records the disk for every
   * path whose `Do` succeeded, on every target that was never skipped.
   */
  lemma {:induction false} JobRecordsDisk(st: State, items: seq<Item>, cfg: Config, targets: seq<string>, job: string,
                                          good: seq<string>, i: nat, k: nat)
    requires forall i | 0 <= i < |items| :: |items[i].env.targets| == |targets|
    requires Inv(st, good) && Among(good, targets) && JobOk(st, items, cfg, targets, job, good) && DistinctPaths(items)
    requires i < |items| && k < |targets| && targets[k] in good && Held(st.db, job, items[i].path, targets[k]) == []
    requires Succeeds(OutcomeOf(st, items, cfg, targets, job, i))
    ensures RecordsDisk(st, JobRun(st, items, cfg, targets, job), items[i], cfg, job, targets[k])
    decreases |items|
  {
    if i == 0 {
      FirstRecordsDisk(st, items, cfg, targets, job, good, k);
    } else {
      RestIsAJob(st, items, cfg, targets, job, good, i, targets[k]);
      JobRecordsDisk(After(st, items[0], cfg, targets, job), items[1..], cfg, targets, job, good, i - 1, k);
      var end := JobRun(st, items, cfg, targets, job);
      RecordsDiskFrame(st, After(st, items[0], cfg, targets, job), end, end, items[i], cfg, job, targets[k]);
    }
  }

  /** A job keeps the invariant, however its calls end. */
  lemma {:induction false} JobKeepsInv(st: State, items: seq<Item>, cfg: Config, targets: seq<string>, job: string, good: seq<string>)
    requires forall i | 0 <= i < |items| :: |items[i].env.targets| == |targets|
    requires Inv(st, good) && Among(good, targets) && JobOk(st, items, cfg, targets, job, good)
    ensures Inv(JobRun(st, items, cfg, targets, job), good)
    decreases |items|
  {
    if |items| > 0 {
      StepKeepsInv(st, targets, EventOf(items[0], cfg, job), good);
      JobKeepsInv(After(st, items[0], cfg, targets, job), items[1..], cfg, targets, job, good);
    }
  }

  /** The two jobs walk the same paths and observe the same disk. */
  ghost predicate SameDisk(a: seq<Item>, b: seq<Item>) {
    |a| == |b| && forall i | 0 <= i < |a| :: a[i].path == b[i].path && a[i].disk == b[i].disk
  }

  /**
   * Incremental equals full. Take any history, run a job over it, and compare its collection with that of a first backup
   * of the same disk into empty stores: for every path that both managed to back up, and every target never skipped,
   * each holds one live row, and the two rows are the same in every field that the detector determines, unless the
   * encryption setting flipped with checksums on.
   */
  lemma {:induction false} IncrementalEqualsFull(st: State, items: seq<Item>, full: seq<Item>, cfg: Config, targets: seq<string>, job: string,
                              good: seq<string>, i: nat, k: nat)
    requires forall i | 0 <= i < |items| :: |items[i].env.targets| == |targets|
    requires forall i | 0 <= i < |full| :: |full[i].env.targets| == |targets|
    requires SameDisk(items, full) && DistinctPaths(items) && i < |items| && k < |targets| && targets[k] in good
    requires Inv(st, good) && Among(good, targets) && Held(st.db, job, items[i].path, targets[k]) == []
    requires JobOk(st, items, cfg, targets, job, good) && JobOk(EMPTY, full, cfg, targets, job, good)
    requires Succeeds(OutcomeOf(st, items, cfg, targets, job, i)) && Succeeds(OutcomeOf(EMPTY, full, cfg, targets, job, i))
    requires Readable(items[i].disk, cfg) && items[i].disk.md5 != Some("")
    ensures var mine := Held(JobRun(st, items, cfg, targets, job).db, job, items[i].path, targets[k]);
            var theirs := Held(JobRun(EMPTY, full, cfg, targets, job).db, job, items[i].path, targets[k]);
            && |mine| == 1 && |theirs| == 1 && !mine[0].deleteMarker && !theirs[0].deleteMarker
            && (SameRecord(mine[0].props, theirs[0].props, items[i].disk, cfg) <==> !FlipLosesChecksum(st, items[i], cfg))
  {
    EmptyInv(good);
    JobRecordsDisk(st, items, cfg, targets, job, good, i, k);
    JobRecordsDisk(EMPTY, full, cfg, targets, job, good, i, k);
    JobKeepsInv(st, items, cfg, targets, job, good);
    JobKeepsInv(EMPTY, full, cfg, targets, job, good);
    var mine := Held(JobRun(st, items, cfg, targets, job).db, job, items[i].path, targets[k])[0].props;
    var theirs := Held(JobRun(EMPTY, full, cfg, targets, job).db, job, items[i].path, targets[k])[0].props;
    AgreeingRecordsAreTheSame(mine, theirs, items[i].disk, cfg);
  }
}
