/**
 * Incremental equals full in every field. The detector does not compare owner and permissions, nor with checksums size
 * and modification time: it relies on the change time, which moves whenever one of them does (backup/backup.go:631-632).
 */
module LedgerFields {
  import opened Common
  import opened Records
  import opened Ledger
  import opened LedgerEffects
  import opened LedgerTransactions
  import opened LedgerHistory
  import opened LedgerJobs

  /** Everything that the jobs of a history have observed: paths, and what was found there. */
  type Seen = iset<(string, Disk)>

  /** What an inode tells beside its times of change and its content. */
  predicate SameAttributes(a: Disk, b: Disk) {
    a.kind == b.kind && a.size == b.size && a.mtime == b.mtime && a.link == b.link && a.owner == b.owner && a.perms == b.perms
  }

  /** The change time of a path moves whenever one of its attributes does. */
  ghost predicate ChangeTimeTells(seen: Seen) {
    forall p, a, b | (p, a) in seen && (p, b) in seen && a.ctime.Some? && a.ctime == b.ctime :: SameAttributes(a, b)
  }

  /** The record says of the path what was observed, in every field but checksum, encryption and job. */
  predicate MadeFrom(rec: Props, disk: Disk) {
    && rec.kind == disk.kind && rec.link == (if disk.kind == Symlink && disk.link.Some? then disk.link.value else "")
    && rec.size == (if disk.kind == Dir then 0 else disk.size) && rec.mtime == disk.mtime
    && rec.ctime == (if disk.ctime.Some? then disk.ctime.value else ZERO_TIME)
    && rec.owner == disk.owner && rec.perms == disk.perms
  }

  ghost predicate Comes(seen: Seen, path: string, rec: Props) {
    exists d :: (path, d) in seen && MadeFrom(rec, d)
  }

  /** Every record was made from something observed at its path. */
  ghost predicate Observed(files: map<string, Props>, seen: Seen) {
    forall p | p in files :: Comes(seen, p, files[p])
  }

  // ----- every step keeps it -----------------------------------------------------------------------

  /** The record `Do` hands to a transaction is made from what it observed. */
  lemma DecideMakes(st: State, item: Item, cfg: Config, job: string)
    requires CallOf(st, EventOf(item, cfg, job)).Some?
    ensures var c := CallOf(st, EventOf(item, cfg, job)).value;
            MadeFrom(c.rec, item.disk) && c.path == item.path && c.op != Delete
  {}

  /** What a transaction leaves in `files`. */
  lemma TransactFiles(st: State, c: Call, targets: seq<string>, envs: seq<TargetEnv>, tx: TxEnv)
    requires TablesOk(st) && EnvOk(st, c.path, targets, envs)
    ensures var (st', out) := Transact(st, c, targets, envs, tx);
            if out == Committed then FilesStep(st.db.files, c) == Ok(st'.db.files) else st'.db.files == st.db.files
  {
    Nothing(st, c, targets, envs, tx);
    if Transact(st, c, targets, envs, tx).1 == Committed {
      CommitShows(st, c, targets, envs, tx, "", "", "");
    }
  }

  ghost predicate EventSeen(ev: Event, seen: Seen) {
    ev.Back? ==> (ev.path, ev.disk) in seen
  }

  lemma StepKeepsObserved(st: State, targets: seq<string>, ev: Event, seen: Seen)
    requires TablesOk(st) && EnvOk(st, ev.path, targets, EnvsOf(ev)) && EventSeen(ev, seen) && Observed(st.db.files, seen)
    ensures Observed(Step(st, targets, ev).db.files, seen)
  {
    var c := CallOf(st, ev);
    if c.Some? {
      TransactFiles(st, c.value, targets, EnvsOf(ev), if ev.Back? then ev.env.tx else ev.tx);
      if ev.Back? {
        DecideMakes(st, Item(ev.path, ev.disk, ev.env), ev.cfg, ev.job);
        assert Comes(seen, ev.path, c.value.rec);
      }
    } else if ev.Back? {
      CollectKeeps(st, ev.path, ev.job, targets, ev.env.targets);
    }
  }

  /** Over every run, skipped targets, failures and deletions included, each record was made from something observed. */
  lemma {:induction false} RunKeepsObserved(st: State, targets: seq<string>, evs: seq<Event>, good: seq<string>, seen: Seen)
    requires forall i | 0 <= i < |evs| :: |EnvsOf(evs[i])| == |targets|
    requires RunOk(st, targets, evs, good) && TablesOk(st) && Observed(st.db.files, seen)
    requires forall i | 0 <= i < |evs| :: EventSeen(evs[i], seen)
    ensures Observed(RunAll(st, targets, evs).db.files, seen)
    decreases |evs|
  {
    if |evs| > 0 {
      StepKeepsTables(st, targets, evs[0]);
      StepKeepsObserved(st, targets, evs[0], seen);
      RunKeepsObserved(Step(st, targets, evs[0]), targets, evs[1..], good, seen);
    }
  }

  // ----- one path ----------------------------------------------------------------------------------

  ghost predicate FilesMake(st: State, path: string, disk: Disk) {
    path in st.db.files && MadeFrom(st.db.files[path], disk)
  }

  /** Found up to date, the record was made from something observed at the same change time. */
  lemma UpToDateMakes(st: State, item: Item, cfg: Config, targets: seq<string>, job: string, seen: Seen)
    requires |item.env.targets| == |targets| && ItemOutcome(st, item, cfg, targets, job).UpToDate?
    requires ChangeTimeTells(seen) && (item.path, item.disk) in seen && Observed(st.db.files, seen)
    ensures FilesMake(st, item.path, item.disk)
  {
    UpToDateBranch(st, item, cfg, targets, job);
    var rec := st.db.files[item.path];
    assert ReadableBack(rec) && item.disk.ctime == Some(rec.ctime);
    assert Comes(seen, item.path, rec);
    var d :| (item.path, d) in seen && MadeFrom(rec, d);
    assert d.ctime == item.disk.ctime;
  }

  /** Whichever branch ran, after a `Do` that succeeded the record is made from what it observed. */
  lemma DoMakes(st: State, item: Item, cfg: Config, targets: seq<string>, job: string, seen: Seen)
    requires TablesOk(st) && EventOk(st, targets, EventOf(item, cfg, job)) && Succeeds(ItemOutcome(st, item, cfg, targets, job))
    requires ChangeTimeTells(seen) && (item.path, item.disk) in seen && Observed(st.db.files, seen)
    ensures FilesMake(After(st, item, cfg, targets, job), item.path, item.disk)
  {
    if ItemOutcome(st, item, cfg, targets, job).UpToDate? {
      UpToDateMakes(st, item, cfg, targets, job, seen);
      UpToDateBranch(st, item, cfg, targets, job);
      CollectKeeps(st, item.path, job, targets, item.env.targets);
    } else {
      CommitBranch(st, item, cfg, targets, job);
      var c := CallOf(st, EventOf(item, cfg, job)).value;
      DecideMakes(st, item, cfg, job);
      TransactFiles(st, c, targets, item.env.targets, item.env.tx);
    }
  }

  // ----- a whole job -------------------------------------------------------------------------------

  ghost predicate ItemsSeen(items: seq<Item>, seen: Seen) {
    forall i | 0 <= i < |items| :: (items[i].path, items[i].disk) in seen
  }

  lemma {:induction false} JobMakes(st: State, items: seq<Item>, cfg: Config, targets: seq<string>, job: string, good: seq<string>,
                                    seen: Seen, i: nat)
    requires forall i | 0 <= i < |items| :: |items[i].env.targets| == |targets|
    requires TablesOk(st) && JobOk(st, items, cfg, targets, job, good) && DistinctPaths(items)
    requires ChangeTimeTells(seen) && ItemsSeen(items, seen) && Observed(st.db.files, seen)
    requires i < |items| && Succeeds(OutcomeOf(st, items, cfg, targets, job, i))
    ensures FilesMake(JobRun(st, items, cfg, targets, job), items[i].path, items[i].disk)
    decreases |items|
  {
    var m := After(st, items[0], cfg, targets, job);
    StepKeepsTables(st, targets, EventOf(items[0], cfg, job));
    StepKeepsObserved(st, targets, EventOf(items[0], cfg, job), seen);
    if i == 0 {
      DoMakes(st, items[0], cfg, targets, job, seen);
      JobFrame(m, items[1..], cfg, targets, job, good, "", items[0].path, "");
    } else {
      JobMakes(m, items[1..], cfg, targets, job, good, seen, i - 1);
    }
  }

  /** The records are the same in every field but the job, and a checksum that this configuration does not take. */
  predicate SameFields(a: Props, b: Props, disk: Disk, cfg: Config) {
    && a.kind == b.kind && a.link == b.link && a.size == b.size && a.mtime == b.mtime && a.ctime == b.ctime
    && a.owner == b.owner && a.perms == b.perms
    && (disk.kind == File ==> a.encrypted == b.encrypted)
    && (disk.kind != File || cfg.checksum ==> a.checksum == b.checksum && a.checksumType == b.checksumType)
  }

  lemma MadeFromOneDisk(a: Props, b: Props, disk: Disk, cfg: Config)
    requires WellFormed(a) && WellFormed(b) && MadeFrom(a, disk) && MadeFrom(b, disk)
    ensures SameFields(a, b, disk, cfg) <==> SameRecord(a, b, disk, cfg)
  {}

  /**
   * Incremental equals full in every field. When the change time moves with the attributes, a job over any history and a
   * first backup of the same disk record the same kind, link, size, times, owner and permissions, and for files the same
   * encryption and checksum, unless the encryption setting flipped with checksums on.
   */
  lemma {:induction false} IncrementalEqualsFullInAllFields(st: State, items: seq<Item>, full: seq<Item>, cfg: Config, targets: seq<string>,
                                                            job: string, good: seq<string>, seen: Seen, i: nat, k: nat)
    requires forall i | 0 <= i < |items| :: |items[i].env.targets| == |targets|
    requires forall i | 0 <= i < |full| :: |full[i].env.targets| == |targets|
    requires SameDisk(items, full) && DistinctPaths(items) && i < |items| && k < |targets| && targets[k] in good
    requires Inv(st, good) && Among(good, targets) && Held(st.db, job, items[i].path, targets[k]) == []
    requires JobOk(st, items, cfg, targets, job, good) && JobOk(EMPTY, full, cfg, targets, job, good)
    requires Succeeds(OutcomeOf(st, items, cfg, targets, job, i)) && Succeeds(OutcomeOf(EMPTY, full, cfg, targets, job, i))
    requires Readable(items[i].disk, cfg) && items[i].disk.md5 != Some("")
    requires ChangeTimeTells(seen) && ItemsSeen(items, seen) && Observed(st.db.files, seen)
    ensures var mine := Held(JobRun(st, items, cfg, targets, job).db, job, items[i].path, targets[k]);
            var theirs := Held(JobRun(EMPTY, full, cfg, targets, job).db, job, items[i].path, targets[k]);
            && |mine| == 1 && |theirs| == 1
            && (SameFields(mine[0].props, theirs[0].props, items[i].disk, cfg) <==> !FlipLosesChecksum(st, items[i], cfg))
  {
    EmptyInv(good);
    IncrementalEqualsFull(st, items, full, cfg, targets, job, good, i, k);
    JobHolds(st, items, cfg, targets, job, good, seen, i, k);
    JobHolds(EMPTY, full, cfg, targets, job, good, seen, i, k);
    var mine := Held(JobRun(st, items, cfg, targets, job).db, job, items[i].path, targets[k])[0].props;
    var theirs := Held(JobRun(EMPTY, full, cfg, targets, job).db, job, items[i].path, targets[k])[0].props;
    MadeFromOneDisk(mine, theirs, items[i].disk, cfg);
  }

  /** The row that a job's collection holds is well formed and made from what the job observed. */
  lemma {:induction false} JobHolds(st: State, items: seq<Item>, cfg: Config, targets: seq<string>, job: string, good: seq<string>,
                                    seen: Seen, i: nat, k: nat)
    requires forall i | 0 <= i < |items| :: |items[i].env.targets| == |targets|
    requires DistinctPaths(items) && i < |items| && k < |targets| && targets[k] in good
    requires Inv(st, good) && Among(good, targets) && Held(st.db, job, items[i].path, targets[k]) == []
    requires JobOk(st, items, cfg, targets, job, good) && Succeeds(OutcomeOf(st, items, cfg, targets, job, i))
    requires ChangeTimeTells(seen) && ItemsSeen(items, seen) && Observed(st.db.files, seen)
    ensures var held := Held(JobRun(st, items, cfg, targets, job).db, job, items[i].path, targets[k]);
            |held| == 1 && WellFormed(held[0].props) && MadeFrom(held[0].props, items[i].disk)
  {
    JobRecordsDisk(st, items, cfg, targets, job, good, i, k);
    JobKeepsInv(st, items, cfg, targets, job, good);
    JobMakes(st, items, cfg, targets, job, good, seen, i);
  }
}
