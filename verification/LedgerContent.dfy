/**
 * What the stored objects hold: with checksums on, exactly the bytes on disk; what is uploaded and what is not; and what
 * skipping a target does to later rows.
 */
module LedgerContent {
  import opened Common
  import opened Format
  import opened PreUpload
  import opened Records
  import opened Ledger
  import opened LedgerTables
  import opened LedgerTransactions
  import opened LedgerHistory
  import opened LedgerJobs

  // ----- checksums and sizes ---------------------------------------------------------------------

  /** A checksum without collisions; its values are not empty. */
  ghost predicate CollisionFree(md5: Bytes -> string) {
    && (forall x, y | md5(x) == md5(y) :: x == y)
    && (forall x :: md5(x) != "")
  }

  /** Size and checksum observed are those of the content, and a random fallback is the checksum of nothing. */
  ghost predicate Honest(md5: Bytes -> string, disk: Disk, e: DoEnv) {
    && (disk.kind == File ==> disk.size == |disk.content|)
    && (disk.md5.Some? ==> disk.md5.value == md5(disk.content))
    && (e.fallback.Some? ==> forall x :: md5(x) != e.fallback.value)
  }

  /** The recorded size is that of the bytes behind the row, and a recorded checksum identifies them. */
  ghost predicate TellsContent(md5: Bytes -> string, r: Row) {
    !r.deleteMarker && r.props.kind == File ==>
      r.props.size == |r.bytes| && forall x | md5(x) == r.props.checksum :: x == r.bytes
  }

  ghost predicate ChecksumsOk(md5: Bytes -> string, rows: seq<Row>, good: seq<string>) {
    forall r | r in rows && r.target in good :: TellsContent(md5, r)
  }

  /** The record of a call describes its content; a metadata update repeats the checksum or the size on record. */
  ghost predicate CallTells(md5: Bytes -> string, st: State, c: Call) {
    c.rec.kind == File ==>
      && c.rec.size == |c.content|
      && (forall x | md5(x) == c.rec.checksum :: x == c.content)
      && (c.op == MetadataUpdate ==>
            && c.path in st.db.files
            && if c.rec.checksum != "" then c.rec.checksum == st.db.files[c.path].checksum == md5(c.content)
               else c.rec.size == st.db.files[c.path].size)
  }

  lemma DecideTells(md5: Bytes -> string, st: State, item: Item, cfg: Config, job: string)
    requires CollisionFree(md5) && Honest(md5, item.disk, item.env) && FilesOk(st.db.files)
    requires CallOf(st, EventOf(item, cfg, job)).Some?
    ensures CallTells(md5, st, CallOf(st, EventOf(item, cfg, job)).value)
  {
    var c := CallOf(st, EventOf(item, cfg, job)).value;
    assert c.rec.checksum == "" || (c.rec.kind == File && (Some(c.rec.checksum) == item.disk.md5 || Some(c.rec.checksum) == item.env.fallback));
  }

  lemma GainTells(md5: Bytes -> string, st: State, good: seq<string>, c: Call, row: Row)
    requires CollisionFree(md5) && Inv(st, good) && ChecksumsOk(md5, st.db.rows, good) && row.target in good
    requires c.op != Delete ==> CallOk(st, c) && CallTells(md5, st, c)
    requires RowFor(row, c, row.target, RowsOf(st.db.rows, c.path, row.target))
    ensures TellsContent(md5, row)
  {
    if c.op == MetadataUpdate && c.rec.kind == File {
      var rs := RowsOf(st.db.rows, c.path, row.target);
      assert Tells(st.db.files, c.path, rs);
      RowsOfAreRows(st.db.rows, c.path, row.target, |rs| - 1);
      assert TellsContent(md5, rs[|rs| - 1]);
    }
  }

  lemma CommitTellsContent(md5: Bytes -> string, st: State, c: Call, targets: seq<string>, envs: seq<TargetEnv>, tx: TxEnv,
                           good: seq<string>, r: Row)
    requires CollisionFree(md5) && Inv(st, good) && EnvOk(st, c.path, targets, envs) && ChecksumsOk(md5, st.db.rows, good)
    requires c.op != Delete ==> CallOk(st, c) && CallTells(md5, st, c)
    requires Transact(st, c, targets, envs, tx).1 == Committed && r in Transact(st, c, targets, envs, tx).0.db.rows
    requires r.target in good
    ensures TellsContent(md5, r)
  {
    CommitRow(st, c, targets, envs, tx, r);
    if r !in st.db.rows {
      GainTells(md5, st, good, c, r);
    }
  }

  /** Every transaction keeps sizes and checksums truthful. */
  lemma TransactKeepsChecksums(md5: Bytes -> string, st: State, c: Call, targets: seq<string>, envs: seq<TargetEnv>, tx: TxEnv,
                               good: seq<string>)
    requires CollisionFree(md5) && Inv(st, good) && EnvOk(st, c.path, targets, envs) && ChecksumsOk(md5, st.db.rows, good)
    requires c.op != Delete ==> CallOk(st, c) && CallTells(md5, st, c)
    ensures ChecksumsOk(md5, Transact(st, c, targets, envs, tx).0.db.rows, good)
  {
    Nothing(st, c, targets, envs, tx);
    if Transact(st, c, targets, envs, tx).1 == Committed {
      forall r | r in Transact(st, c, targets, envs, tx).0.db.rows && r.target in good ensures TellsContent(md5, r) {
        CommitTellsContent(md5, st, c, targets, envs, tx, good, r);
      }
    }
  }

  ghost predicate HonestEvent(md5: Bytes -> string, ev: Event) {
    ev.Back? ==> Honest(md5, ev.disk, ev.env)
  }

  /** Every step keeps sizes and checksums truthful. */
  lemma StepKeepsChecksums(md5: Bytes -> string, st: State, targets: seq<string>, ev: Event, good: seq<string>)
    requires CollisionFree(md5) && Inv(st, good) && EventOk(st, targets, ev) && ChecksumsOk(md5, st.db.rows, good)
    requires HonestEvent(md5, ev)
    ensures ChecksumsOk(md5, Step(st, targets, ev).db.rows, good)
  {
    var c := CallOf(st, ev);
    if c.Some? {
      if ev.Back? {
        DecideTells(md5, st, Item(ev.path, ev.disk, ev.env), ev.cfg, ev.job);
        DecideCall(st, ev.path, ev.disk, ev.cfg, ev.job, ev.env);
      }
      TransactKeepsChecksums(md5, st, c.value, targets, EnvsOf(ev), if ev.Back? then ev.env.tx else ev.tx, good);
    } else if ev.Back? {
      CollectKeeps(st, ev.path, ev.job, targets, ev.env.targets);
    }
  }

  lemma {:induction false} RunKeepsChecksums(md5: Bytes -> string, st: State, targets: seq<string>, evs: seq<Event>, good: seq<string>)
    requires forall i | 0 <= i < |evs| :: |EnvsOf(evs[i])| == |targets| && HonestEvent(md5, evs[i])
    requires CollisionFree(md5) && RunOk(st, targets, evs, good) && Among(good, targets)
    requires Inv(st, good) && ChecksumsOk(md5, st.db.rows, good)
    ensures ChecksumsOk(md5, RunAll(st, targets, evs).db.rows, good)
    decreases |evs|
  {
    if |evs| > 0 {
      StepKeepsInv(st, targets, evs[0], good);
      StepKeepsChecksums(md5, st, targets, evs[0], good);
      RunKeepsChecksums(md5, Step(st, targets, evs[0]), targets, evs[1..], good);
    }
  }

  /**
   * Over every run, on every target never skipped: the recorded size of a live file row is that of its object, and a
   * recorded checksum, when it is the checksum of anything, is that of its object.
   */
  lemma {:induction false} RowsDescribeObjects(md5: Bytes -> string, targets: seq<string>, evs: seq<Event>, good: seq<string>, r: Row)
    requires forall i | 0 <= i < |evs| :: |EnvsOf(evs[i])| == |targets| && HonestEvent(md5, evs[i])
    requires CollisionFree(md5) && RunOk(EMPTY, targets, evs, good) && Among(good, targets)
    requires r in RunAll(EMPTY, targets, evs).db.rows && r.target in good && !r.deleteMarker && r.props.kind == File
    ensures var objects := RunAll(EMPTY, targets, evs).store.objects;
            var k := Key(r.target, r.path, r.remoteVersion);
            && k in objects && objects[k].Blob? && r.props.size == |objects[k].content|
            && (forall x | md5(x) == r.props.checksum :: x == objects[k].content)
  {
    EmptyInv(good);
    RunKeepsInv(EMPTY, targets, evs, good);
    RunKeepsChecksums(md5, EMPTY, targets, evs, good);
    assert Resolves(RunAll(EMPTY, targets, evs).store, r) && TellsContent(md5, r);
  }

  // ----- what the collection of a job names ------------------------------------------------------

  /** A metadata update made with checksums on has recorded the checksum of the disk. */
  lemma MetadataKeepsChecksum(st: State, item: Item, cfg: Config, job: string)
    requires cfg.checksum && item.disk.kind == File
    requires var c := CallOf(st, EventOf(item, cfg, job)); c.Some? && c.value.op == MetadataUpdate
    ensures Some(CallOf(st, EventOf(item, cfg, job)).value.rec.checksum) == item.disk.md5
  {}

  lemma RowHoldsDisk(md5: Bytes -> string, st: State, item: Item, cfg: Config, targets: seq<string>, job: string, good: seq<string>,
                     i: nat, r: Row)
    requires CollisionFree(md5) && Honest(md5, item.disk, item.env) && TellsContent(md5, r)
    requires Inv(st, good) && ItemOk(st, item, cfg, targets, job, good) && i < |targets| && targets[i] in good
    requires Succeeds(ItemOutcome(st, item, cfg, targets, job)) && Held(st.db, job, item.path, targets[i]) == []
    requires cfg.checksum && item.disk.kind == File
    requires Held(After(st, item, cfg, targets, job).db, job, item.path, targets[i]) == [r]
    ensures r.bytes == item.disk.content && r.props.kind == File && r.props.encrypted == cfg.encrypt
  {
    if ItemOutcome(st, item, cfg, targets, job).UpToDate? {
      UpToDateHolds(st, item, cfg, targets, job, good, i);
    } else {
      CommitBranch(st, item, cfg, targets, job);
      DecideCall(st, item.path, item.disk, cfg, job, item.env);
      var c := CallOf(st, EventOf(item, cfg, job)).value;
      CommitStands(st, c, targets, item.env.targets, item.env.tx, targets[i]);
      if c.op == MetadataUpdate {
        MetadataKeepsChecksum(st, item, cfg, job);
      }
    }
  }

  /** The job holds one row for the path, and it names an object with exactly the bytes on disk, encrypted as configured. */
  ghost predicate StoresDisk(st: State, item: Item, cfg: Config, job: string, target: string) {
    var held := Held(st.db, job, item.path, target);
    && |held| == 1
    && var k := Key(target, item.path, held[0].remoteVersion);
       k in st.store.objects && st.store.objects[k] == Blob(item.disk.content, cfg.encrypt)
  }

  /**
   * With checksums on, the row a successful `Do` puts into the job's collection names an object that holds exactly the
   * bytes on disk, encrypted as configured, whether or not anything was uploaded.
   */
  lemma DoStoresDisk(md5: Bytes -> string, st: State, item: Item, cfg: Config, targets: seq<string>, job: string,
                     good: seq<string>, i: nat)
    requires CollisionFree(md5) && Honest(md5, item.disk, item.env) && ChecksumsOk(md5, st.db.rows, good)
    requires Inv(st, good) && Among(good, targets) && ItemOk(st, item, cfg, targets, job, good) && i < |targets| && targets[i] in good
    requires Succeeds(ItemOutcome(st, item, cfg, targets, job)) && Held(st.db, job, item.path, targets[i]) == []
    requires cfg.checksum && item.disk.kind == File
    ensures StoresDisk(After(st, item, cfg, targets, job), item, cfg, job, targets[i])
  {
    var st' := After(st, item, cfg, targets, job);
    DoRecordsDisk(st, item, cfg, targets, job, good, i);
    AfterKeeps(md5, st, item, cfg, targets, job, good);
    var r := Held(st'.db, job, item.path, targets[i])[0];
    StandingRow(st', item.path, targets[i], r);
    RowHoldsDisk(md5, st, item, cfg, targets, job, good, i, r);
    assert Resolves(st'.store, r);
  }

  /** `Do` keeps both invariants. */
  lemma AfterKeeps(md5: Bytes -> string, st: State, item: Item, cfg: Config, targets: seq<string>, job: string, good: seq<string>)
    requires CollisionFree(md5) && Honest(md5, item.disk, item.env) && ChecksumsOk(md5, st.db.rows, good)
    requires Inv(st, good) && Among(good, targets) && ItemOk(st, item, cfg, targets, job, good)
    ensures var st' := After(st, item, cfg, targets, job); Inv(st', good) && ChecksumsOk(md5, st'.db.rows, good)
  {
    StepKeepsInv(st, targets, EventOf(item, cfg, job), good);
    StepKeepsChecksums(md5, st, targets, EventOf(item, cfg, job), good);
  }

  /** The row that stands for a path on a target is a row of that path and target. */
  lemma StandingRow(st: State, path: string, target: string, r: Row)
    requires Stands(st, path, target, r)
    ensures r in st.db.rows && r.path == path && r.target == target
  {
    RowsOfAreRows(st.db.rows, path, target, |RowsOf(st.db.rows, path, target)| - 1);
  }

  /** No call of `Do`, however it ends, overwrites or removes an object that was there before. */
  lemma DoKeepsObjects(st: State, item: Item, cfg: Config, targets: seq<string>, job: string, k: Key)
    requires TablesOk(st) && EventOk(st, targets, EventOf(item, cfg, job)) && k in st.store.objects
    ensures var st' := After(st, item, cfg, targets, job); k in st'.store.objects && st'.store.objects[k] == st.store.objects[k]
  {
    var c := CallOf(st, EventOf(item, cfg, job));
    if c.Some? {
      Nothing(st, c.value, targets, item.env.targets, item.env.tx);
    } else {
      CollectKeeps(st, item.path, job, targets, item.env.targets);
    }
  }

  lemma {:induction false} JobKeepsObjects(st: State, items: seq<Item>, cfg: Config, targets: seq<string>, job: string,
                                           good: seq<string>, k: Key)
    requires forall i | 0 <= i < |items| :: |items[i].env.targets| == |targets|
    requires TablesOk(st) && JobOk(st, items, cfg, targets, job, good) && k in st.store.objects
    ensures var st' := JobRun(st, items, cfg, targets, job); k in st'.store.objects && st'.store.objects[k] == st.store.objects[k]
    decreases |items|
  {
    if |items| > 0 {
      StepKeepsTables(st, targets, EventOf(items[0], cfg, job));
      DoKeepsObjects(st, items[0], cfg, targets, job, k);
      JobKeepsObjects(After(st, items[0], cfg, targets, job), items[1..], cfg, targets, job, good, k);
    }
  }

  /**
   * With checksums on, the collection of a whole job, in which other paths may have failed, names exactly the bytes on
   * disk for every file whose `Do` succeeded, on every target never skipped.
   */
  lemma {:induction false} JobStoresDisk(md5: Bytes -> string, st: State, items: seq<Item>, cfg: Config, targets: seq<string>,
                                         job: string, good: seq<string>, i: nat, k: nat)
    requires forall i | 0 <= i < |items| :: |items[i].env.targets| == |targets| && Honest(md5, items[i].disk, items[i].env)
    requires CollisionFree(md5) && ChecksumsOk(md5, st.db.rows, good) && cfg.checksum
    requires Inv(st, good) && Among(good, targets) && JobOk(st, items, cfg, targets, job, good) && DistinctPaths(items)
    requires i < |items| && items[i].disk.kind == File && k < |targets| && targets[k] in good
    requires Succeeds(OutcomeOf(st, items, cfg, targets, job, i)) && Held(st.db, job, items[i].path, targets[k]) == []
    ensures StoresDisk(JobRun(st, items, cfg, targets, job), items[i], cfg, job, targets[k])
    decreases |items|
  {
    var m := After(st, items[0], cfg, targets, job);
    AfterKeeps(md5, st, items[0], cfg, targets, job, good);
    if i == 0 {
      DoStoresDisk(md5, st, items[0], cfg, targets, job, good, k);
      FirstStaysStored(st, items, cfg, targets, job, good, targets[k]);
    } else {
      DoFrame(st, items[0], cfg, targets, job, job, items[i].path, targets[k]);
      JobStoresDisk(md5, m, items[1..], cfg, targets, job, good, i - 1, k);
    }
  }

  // ----- what is uploaded and what is not ------------------------------------------------------------

  /**
   * Record and disk agree on everything that tells whether the content is still the one that was uploaded: for a file the
   * encryption setting and, with checksums on, the checksum; otherwise kind, modification time and size.
   */
  predicate SameContent(rec: Props, disk: Disk, cfg: Config) {
    && (disk.kind == File ==> rec.encrypted == cfg.encrypt)
    && (if disk.kind == File && cfg.checksum then disk.md5 == Some(rec.checksum)
        else rec.kind == disk.kind && rec.mtime == disk.mtime && (disk.kind == Dir || rec.size == disk.size))
  }

  /** The path is new, or its content is not the one on record. */
  predicate ContentChanged(st: State, item: Item, cfg: Config) {
    item.path !in st.db.files || !SameContent(st.db.files[item.path], item.disk, cfg)
  }

  lemma DecideOp(st: State, item: Item, cfg: Config, job: string)
    requires CallOf(st, EventOf(item, cfg, job)).Some?
    ensures CallOf(st, EventOf(item, cfg, job)).value.op == MetadataUpdate <==> !ContentChanged(st, item, cfg)
  {}

  /** A metadata update sends nothing to any store. */
  lemma {:induction false} MetadataSendsNothing(c: Call, targets: seq<string>, envs: seq<TargetEnv>, l: Loop)
    requires |envs| == |targets| && c.op == MetadataUpdate
    ensures TargetLoop(c, targets, envs, l).store == l.store && TargetLoop(c, targets, envs, l).processed == l.processed
    decreases |targets|
  {
    if |targets| > 0 && l.status == Going {
      MetadataSendsNothing(c, targets[1..], envs[1..], TargetStep(c, targets[0], envs[0], l));
    }
  }

  /**
   * A file that is new, or differs from its record in the encryption setting, in the checksum when those are on, or
   * otherwise in size, modification time or kind, is uploaded: the collected row's object holds the bytes on disk.
   */
  lemma ChangesAreUploaded(st: State, item: Item, cfg: Config, targets: seq<string>, job: string, good: seq<string>, i: nat)
    requires Inv(st, good) && ItemOk(st, item, cfg, targets, job, good) && i < |targets| && targets[i] in good
    requires Succeeds(ItemOutcome(st, item, cfg, targets, job)) && Held(st.db, job, item.path, targets[i]) == []
    requires item.disk.kind == File && ContentChanged(st, item, cfg)
    ensures StoresDisk(After(st, item, cfg, targets, job), item, cfg, job, targets[i])
  {
    if ItemOutcome(st, item, cfg, targets, job).UpToDate? {
      UpToDateBranch(st, item, cfg, targets, job);
    } else {
      CommitBranch(st, item, cfg, targets, job);
      var c := CallOf(st, EventOf(item, cfg, job)).value;
      DecideCall(st, item.path, item.disk, cfg, job, item.env);
      DecideOp(st, item, cfg, job);
      CommitStands(st, c, targets, item.env.targets, item.env.tx, targets[i]);
      StandingRow(After(st, item, cfg, targets, job), item.path, targets[i], Held(After(st, item, cfg, targets, job).db, job, item.path, targets[i])[0]);
    }
  }

  /** The stores are as they were, and the job's row names the object that the newest row named before. */
  ghost predicate NamesOld(st: State, st': State, job: string, path: string, target: string) {
    var held, rs := Held(st'.db, job, path, target), RowsOf(st.db.rows, path, target);
    && st'.store == st.store
    && |held| == 1 && rs != [] && held[0].remoteVersion == rs[|rs| - 1].remoteVersion && held[0].bytes == rs[|rs| - 1].bytes
  }

  lemma MetadataNamesOld(st: State, c: Call, targets: seq<string>, envs: seq<TargetEnv>, tx: TxEnv, t: string)
    requires TablesOk(st) && EnvOk(st, c.path, targets, envs) && c.op == MetadataUpdate && t in targets
    requires Transact(st, c, targets, envs, tx).1 == Committed && Held(st.db, c.job, c.path, t) == []
    ensures NamesOld(st, Transact(st, c, targets, envs, tx).0, c.job, c.path, t)
  {
    CommitStands(st, c, targets, envs, tx, t);
    MetadataKeepsStore(st, c, targets, envs, tx);
  }

  lemma UpToDateNamesOld(st: State, item: Item, cfg: Config, targets: seq<string>, job: string, good: seq<string>, i: nat)
    requires Inv(st, good) && ItemOk(st, item, cfg, targets, job, good) && i < |targets| && targets[i] in good
    requires ItemOutcome(st, item, cfg, targets, job) == UpToDate(true) && Held(st.db, job, item.path, targets[i]) == []
    ensures NamesOld(st, After(st, item, cfg, targets, job), job, item.path, targets[i])
  {
    UpToDateHolds(st, item, cfg, targets, job, good, i);
  }

  /** When none of these differs nothing is sent, and the collected row names the object that the newest row named before. */
  lemma OnlyChangesAreUploaded(st: State, item: Item, cfg: Config, targets: seq<string>, job: string, good: seq<string>, i: nat)
    requires Inv(st, good) && ItemOk(st, item, cfg, targets, job, good) && i < |targets| && targets[i] in good
    requires Succeeds(ItemOutcome(st, item, cfg, targets, job)) && Held(st.db, job, item.path, targets[i]) == []
    requires !ContentChanged(st, item, cfg)
    ensures NamesOld(st, After(st, item, cfg, targets, job), job, item.path, targets[i])
  {
    if ItemOutcome(st, item, cfg, targets, job).UpToDate? {
      UpToDateNamesOld(st, item, cfg, targets, job, good, i);
    } else {
      CommitBranch(st, item, cfg, targets, job);
      DecideCall(st, item.path, item.disk, cfg, job, item.env);
      DecideOp(st, item, cfg, job);
      MetadataNamesOld(st, CallOf(st, EventOf(item, cfg, job)).value, targets, item.env.targets, item.env.tx, targets[i]);
    }
  }

  /** What the first call of a job stores stays in the store, and its row in the collection, until the end of the job. */
  lemma {:induction false} FirstStaysStored(st: State, items: seq<Item>, cfg: Config, targets: seq<string>, job: string, good: seq<string>, t: string)
    requires forall i | 0 <= i < |items| :: |items[i].env.targets| == |targets|
    requires TablesOk(st) && JobOk(st, items, cfg, targets, job, good) && DistinctPaths(items) && |items| > 0
    requires StoresDisk(After(st, items[0], cfg, targets, job), items[0], cfg, job, t)
    ensures StoresDisk(JobRun(st, items, cfg, targets, job), items[0], cfg, job, t)
  {
    var m := After(st, items[0], cfg, targets, job);
    StepKeepsTables(st, targets, EventOf(items[0], cfg, job));
    JobFrame(m, items[1..], cfg, targets, job, good, job, items[0].path, t);
    var held := Held(m.db, job, items[0].path, t);
    JobKeepsObjects(m, items[1..], cfg, targets, job, good, Key(t, items[0].path, held[0].remoteVersion));
  }

  /** The same at the end of a whole job, in which other paths may fail: every new or changed file is stored as it is on disk. */
  lemma {:induction false} JobUploadsChanges(st: State, items: seq<Item>, cfg: Config, targets: seq<string>, job: string, good: seq<string>,
                                             i: nat, k: nat)
    requires forall i | 0 <= i < |items| :: |items[i].env.targets| == |targets|
    requires Inv(st, good) && Among(good, targets) && JobOk(st, items, cfg, targets, job, good) && DistinctPaths(items)
    requires i < |items| && items[i].disk.kind == File && k < |targets| && targets[k] in good
    requires Succeeds(OutcomeOf(st, items, cfg, targets, job, i)) && Held(st.db, job, items[i].path, targets[k]) == []
    requires ContentChanged(st, items[i], cfg)
    ensures StoresDisk(JobRun(st, items, cfg, targets, job), items[i], cfg, job, targets[k])
    decreases |items|
  {
    if i == 0 {
      ChangesAreUploaded(st, items[0], cfg, targets, job, good, k);
      FirstStaysStored(st, items, cfg, targets, job, good, targets[k]);
    } else {
      RestIsAJob(st, items, cfg, targets, job, good, i, targets[k]);
      JobUploadsChanges(After(st, items[0], cfg, targets, job), items[1..], cfg, targets, job, good, i - 1, k);
    }
  }

  lemma MetadataKeepsStore(st: State, c: Call, targets: seq<string>, envs: seq<TargetEnv>, tx: TxEnv)
    requires |envs| == |targets| && c.op == MetadataUpdate
    ensures Transact(st, c, targets, envs, tx).0.store == st.store
  {
    if FilesStep(st.db.files, c).Ok? {
      MetadataSendsNothing(c, targets, envs, Start(st, c));
    }
  }

  // ----- skipped targets -------------------------------------------------------------------------

  /**
   * A metadata update copies the remote version of the newest row on the target. With skipped targets that row may be
   * out of step with the record, wrongly flagged, a directory or a delete marker. Exactly when the object under the
   * copied version exists, holds that row's bytes and has the encryption configured now, the new row names its object
   * with the right flag.
   */
  lemma {:induction false} MetadataFlagIff(st: State, c: Call, targets: seq<string>, envs: seq<TargetEnv>, tx: TxEnv, t: string)
    requires TablesOk(st) && EnvOk(st, c.path, targets, envs) && t in targets
    requires c.op == MetadataUpdate && c.rec.kind == File && c.rec.encrypted == c.cfg.encrypt
    requires Transact(st, c, targets, envs, tx).1 == Committed
    ensures var st' := Transact(st, c, targets, envs, tx).0;
            var rs, rs' := RowsOf(st.db.rows, c.path, t), RowsOf(st'.db.rows, c.path, t);
            && rs != [] && |rs'| == |rs| + 1
            && var prev := rs[|rs| - 1];
               var k := Key(t, c.path, prev.remoteVersion);
               Resolves(st'.store, rs'[|rs|]) <==> k in st.store.objects && st.store.objects[k] == Blob(prev.bytes, c.cfg.encrypt)
  {
    All(st, c, targets, envs, tx, c.job, c.path, t);
    MetadataKeepsStore(st, c, targets, envs, tx);
  }

  /** The record of the row describes the bytes behind it. */
  ghost predicate Describes(md5: Bytes -> string, r: Row) {
    r.props.size == |r.bytes| && (r.props.checksum != "" ==> r.props.checksum == md5(r.bytes))
  }

  /**
   * The new row of a metadata update describes its object exactly if the bytes of the row it copies have the size found
   * on disk now and, when a checksum was taken, are the bytes on disk.
   */
  lemma {:induction false} MetadataDescribesIff(md5: Bytes -> string, st: State, c: Call, targets: seq<string>, envs: seq<TargetEnv>, tx: TxEnv, t: string)
    requires TablesOk(st) && EnvOk(st, c.path, targets, envs) && t in targets
    requires CollisionFree(md5) && c.op == MetadataUpdate && c.rec.kind == File
    requires c.rec.size == |c.content| && (c.rec.checksum != "" ==> c.rec.checksum == md5(c.content))
    requires Transact(st, c, targets, envs, tx).1 == Committed
    ensures var rs, rs' := RowsOf(st.db.rows, c.path, t), RowsOf(Transact(st, c, targets, envs, tx).0.db.rows, c.path, t);
            && rs != [] && |rs'| == |rs| + 1
            && var prev := rs[|rs| - 1];
               Describes(md5, rs'[|rs|]) <==> |prev.bytes| == |c.content| && (c.rec.checksum != "" ==> prev.bytes == c.content)
  {
    All(st, c, targets, envs, tx, c.job, c.path, t);
  }

  // ----- a run with a skipped target -------------------------------------------------------------

  /** A file, its target's limit of ten bytes, and environments in which nothing fails. */
  function FileOf(content: Bytes, ctime: int): Disk {
    Disk(File, |content|, 1, Some(ctime), None, "", "", None, content)
  }

  function TenBytes(encrypt: bool): Config {
    Config(false, encrypt, (t, e) => 10)
  }

  function Smooth(n: string): DoEnv {
    DoEnv(false, false, None, TxEnv(false, false, false), [TargetEnv(false, Stored(n), false, n, false, false, false)])
  }

  function Recorded(size: int, ctime: int, encrypt: bool, job: string): Props {
    Props(File, "", size, 1, ctime, "", "", "", "", encrypt, job)
  }

  const ELEVEN: Bytes := [1, 2, 3, 4, 5, 6, 7, 8, 9, 10, 11]
  const FIRST_ROW := Row("1", "f", "t", "1", false, 1, "1", Recorded(0, 1, false, "1"), [])
  const BAD_ROW := Row("3", "f", "t", "3", false, 2, "1", Recorded(11, 2, true, "3"), [])
  const PLAIN_STORE := Store(map[Key("t", "f", "1") := Blob([], false)], {Key("t", "f", "1")})
  const UPLOADED := State(Db(map["f" := Recorded(0, 1, false, "1")], [FIRST_ROW], [Entry("1", "1", "t")]), PLAIN_STORE)
  const SKIPPED := State(Db(map["f" := Recorded(11, 1, true, "2")], [FIRST_ROW], [Entry("1", "1", "t")]), PLAIN_STORE)
  const MISLABELLED := State(Db(map["f" := Recorded(11, 2, true, "3")], [FIRST_ROW, BAD_ROW],
                                [Entry("1", "1", "t"), Entry("3", "3", "t")]), PLAIN_STORE)

  lemma FirstUpload()
    ensures DoPath(EMPTY, "f", FileOf([], 1), TenBytes(false), ["t"], "1", Smooth("1")) == (UPLOADED, Backed(Committed))
  {
    var c := Call(New, "f", Recorded(0, 1, false, "1"), [], "1", TenBytes(false));
    assert Decide(EMPTY, "f", FileOf([], 1), TenBytes(false), "1", Smooth("1")) == Ok(Some(c));
    var l := Start(EMPTY, c);
    var e := Smooth("1").targets[0];
    assert !HasReserved("f");
    assert !Skips(c, "t");
    assert TargetStep(c, "t", e, l) == Loop(UPLOADED.db, UPLOADED.store, [Placed(Key("t", "f", "1"), true, false)], Going);
  }

  /** A first backup is a job in the sense of the theorems about jobs: their assumptions can be met. */
  lemma FirstUploadIsAJob()
    ensures Inv(EMPTY, ["t"]) && JobOk(EMPTY, [Item("f", FileOf([], 1), Smooth("1"))], TenBytes(false), ["t"], "1", ["t"])
    ensures Succeeds(OutcomeOf(EMPTY, [Item("f", FileOf([], 1), Smooth("1"))], TenBytes(false), ["t"], "1", 0))
  {
    FirstUpload();
    var item := Item("f", FileOf([], 1), Smooth("1"));
    EmptyInv(["t"]);
    assert !HasReserved("f");
    var c := Call(New, "f", Recorded(0, 1, false, "1"), [], "1", TenBytes(false));
    assert CallOf(EMPTY, EventOf(item, TenBytes(false), "1")) == Some(c);
    assert SkipFree(c, ["t"]);
    assert ItemOk(EMPTY, item, TenBytes(false), ["t"], "1", ["t"]);
  }

  lemma SecondIsSkipped()
    ensures DoPath(UPLOADED, "f", FileOf(ELEVEN, 1), TenBytes(true), ["t"], "2", Smooth("2")) == (SKIPPED, Backed(Committed))
  {
    var c := Call(ContentUpdate, "f", Recorded(11, 1, true, "2"), ELEVEN, "2", TenBytes(true));
    assert Decide(UPLOADED, "f", FileOf(ELEVEN, 1), TenBytes(true), "2", Smooth("2")) == Ok(Some(c));
    assert EncryptedSize64(11) > 10;
    assert Skips(c, "t");
    var l, e := Start(UPLOADED, c), Smooth("2").targets[0];
    assert l.db.files == SKIPPED.db.files;
    assert TargetLoop(c, ["t"], [e], l) == l by {
      assert TargetStep(c, "t", e, l) == l;
    }
    assert Transact(UPLOADED, c, ["t"], Smooth("2").targets, Smooth("2").tx) == (SKIPPED, Committed) by {
      assert Smooth("2").targets == [e];
    }
    assert DoPath(UPLOADED, "f", FileOf(ELEVEN, 1), TenBytes(true), ["t"], "2", Smooth("2")).1 == Backed(Committed);
    assert DoPath(UPLOADED, "f", FileOf(ELEVEN, 1), TenBytes(true), ["t"], "2", Smooth("2")).0 == SKIPPED;
  }

  lemma ThirdIsMislabelled()
    ensures DoPath(SKIPPED, "f", FileOf(ELEVEN, 2), TenBytes(true), ["t"], "3", Smooth("3")) == (MISLABELLED, Backed(Committed))
  {
    var c := Call(MetadataUpdate, "f", Recorded(11, 2, true, "3"), ELEVEN, "3", TenBytes(true));
    assert Decide(SKIPPED, "f", FileOf(ELEVEN, 2), TenBytes(true), "3", Smooth("3")) == Ok(Some(c));
    assert Newest([FIRST_ROW], "f", "t", false) == Some(FIRST_ROW);
    assert AtVersion([FIRST_ROW], "f", "t", 1) == Some(FIRST_ROW);
    assert Find([FIRST_ROW], "3") == None;
    var l, e := Start(SKIPPED, c), Smooth("3").targets[0];
    assert TargetStep(c, "t", e, l) == l.(db := MISLABELLED.db);
    assert TargetLoop(c, ["t"], [e], l) == l.(db := MISLABELLED.db);
    assert Transact(SKIPPED, c, ["t"], Smooth("3").targets, Smooth("3").tx) == (MISLABELLED, Committed) by {
      assert Smooth("3").targets == [e];
    }
    assert !Smooth("3").cancelled;
    assert DoPath(SKIPPED, "f", FileOf(ELEVEN, 2), TenBytes(true), ["t"], "3", Smooth("3")).1 == Backed(Committed);
    assert DoPath(SKIPPED, "f", FileOf(ELEVEN, 2), TenBytes(true), ["t"], "3", Smooth("3")).0 == MISLABELLED;
  }

  /**
   * An empty file is uploaded as plaintext; it grows to eleven bytes while encryption is switched on, and is skipped for
   * its size; its permissions change. The third job commits a row of eleven encrypted bytes whose object is the empty
   * plaintext.
   */
  lemma SkippedTargetMislabels()
    ensures var st1 := DoPath(EMPTY, "f", FileOf([], 1), TenBytes(false), ["t"], "1", Smooth("1"));
            var st2 := DoPath(st1.0, "f", FileOf(ELEVEN, 1), TenBytes(true), ["t"], "2", Smooth("2"));
            var st3 := DoPath(st2.0, "f", FileOf(ELEVEN, 2), TenBytes(true), ["t"], "3", Smooth("3"));
            && st1.1 == Backed(Committed) && st2.1 == Backed(Committed) && st3.1 == Backed(Committed)
            && BAD_ROW in st3.0.db.rows && !BAD_ROW.deleteMarker && BAD_ROW.props.encrypted && BAD_ROW.props.size == 11
            && st3.0.store.objects == map[Key(BAD_ROW.target, BAD_ROW.path, BAD_ROW.remoteVersion) := Blob([], false)]
  {
    FirstUpload();
    SecondIsSkipped();
    ThirdIsMislabelled();
  }
}
