/** What every run of the backup keeps: the ledger over any sequence of jobs, failures, cancellations and deletions. */
module LedgerHistory {
  import opened Common
  import opened Records
  import opened Ledger
  import opened LedgerTables
  import opened LedgerEffects
  import opened LedgerTransactions

  // ----- the invariants --------------------------------------------------------------------------

  /** The row names an object that is still there, holds the bytes of the last upload, and is ciphertext iff flagged. */
  ghost predicate Resolves(store: Store, r: Row) {
    var k := Key(r.target, r.path, r.remoteVersion);
    k in store.objects && store.objects[k] == Blob(r.bytes, r.props.encrypted)
  }

  ghost predicate ContentOk(st: State, good: seq<string>) {
    forall r | r in st.db.rows && r.target in good && !r.deleteMarker && r.props.kind == File :: Resolves(st.store, r)
  }

  ghost predicate FilesOk(files: map<string, Props>) {
    forall p | p in files :: WellFormed(files[p])
  }

  /** The `files` table says of a path what its newest row on a target says. */
  ghost predicate Tells(files: map<string, Props>, path: string, rs: seq<Row>) {
    if path in files
    then rs != [] && !rs[|rs| - 1].deleteMarker && rs[|rs| - 1].props == files[path]
    else rs == [] || rs[|rs| - 1].deleteMarker
  }

  ghost predicate InSync(db: Db, good: seq<string>) {
    forall p, t | t in good :: Tells(db.files, p, RowsOf(db.rows, p, t))
  }

  /** The tables are in order and, on the targets that were never skipped, agree with each other and with the stores. */
  ghost predicate Inv(st: State, good: seq<string>) {
    TablesOk(st) && FilesOk(st.db.files) && ContentOk(st, good) && InSync(st.db, good)
  }

  // ----- what Do decides -------------------------------------------------------------------------

  /** What `Do` and the sweep hand to the transaction. */
  ghost predicate CallOk(st: State, c: Call) {
    && FilesStep(st.db.files, c).Ok?
    && (c.op != Delete ==> c.rec.encrypted == c.cfg.encrypt && WellFormed(c.rec))
    && (c.op == MetadataUpdate && c.rec.kind == File ==>
          st.db.files[c.path].kind == File && st.db.files[c.path].encrypted == c.cfg.encrypt)
  }

  lemma DecideCall(st: State, path: string, disk: Disk, cfg: Config, job: string, e: DoEnv)
    requires FilesOk(st.db.files) && disk.md5 != Some("")
    requires var d := Decide(st, path, disk, cfg, job, e); d.Ok? && d.value.Some?
    ensures var c := Decide(st, path, disk, cfg, job, e).value.value;
            && CallOk(st, c) && c.op != Delete && (c.op == New <==> path !in st.db.files)
            && c.path == path && c.job == job && c.cfg == cfg && c.content == disk.content && c.rec.kind == disk.kind
  {}

  // ----- one transaction keeps the invariant ------------------------------------------------------

  lemma {:induction false} RowsOfComplete(rows: seq<Row>, r: Row)
    requires r in rows
    ensures r in RowsOf(rows, r.path, r.target)
  {
    var n := |rows| - 1;
    assert rows == rows[..n] + [rows[n]];
    if r != rows[n] {
      RowsOfComplete(rows[..n], r);
    }
  }

  /** A committed new row resolves. */
  lemma GainResolves(st: State, good: seq<string>, c: Call, store: Store, row: Row)
    requires Inv(st, good) && CallOk(st, c) && row.target in good
    requires forall k | k in st.store.objects :: k in store.objects && store.objects[k] == st.store.objects[k]
    requires RowFor(row, c, row.target, RowsOf(st.db.rows, c.path, row.target)) && Stores(store, row, c)
    requires !row.deleteMarker && row.props.kind == File
    ensures Resolves(store, row)
  {
    if c.op == MetadataUpdate {
      var rs := RowsOf(st.db.rows, c.path, row.target);
      assert Tells(st.db.files, c.path, rs);
      RowsOfAreRows(st.db.rows, c.path, row.target, |rs| - 1);
      assert Resolves(st.store, rs[|rs| - 1]);
    }
  }

  /** None of these targets is skipped. */
  ghost predicate SkipFree(c: Call, good: seq<string>) {
    c.op in {New, ContentUpdate} ==> forall t | t in good :: !Skips(c, t)
  }

  ghost predicate Among(good: seq<string>, targets: seq<string>) {
    forall t | t in good :: t in targets
  }

  /** A row after a commit was there before, or is one that the commit is due. */
  lemma CommitRow(st: State, c: Call, targets: seq<string>, envs: seq<TargetEnv>, tx: TxEnv, r: Row)
    requires TablesOk(st) && EnvOk(st, c.path, targets, envs)
    requires Transact(st, c, targets, envs, tx).1 == Committed && r in Transact(st, c, targets, envs, tx).0.db.rows
    ensures r in st.db.rows || (&& RowFor(r, c, r.target, RowsOf(st.db.rows, c.path, r.target))
                                && Stores(Transact(st, c, targets, envs, tx).0.store, r, c))
  {
    All(st, c, targets, envs, tx, c.job, r.path, r.target);
    RowsOfComplete(Transact(st, c, targets, envs, tx).0.db.rows, r);
    var rs := RowsOf(st.db.rows, r.path, r.target);
    if r in rs {
      var i :| 0 <= i < |rs| && rs[i] == r;
      RowsOfAreRows(st.db.rows, r.path, r.target, i);
    }
  }

  lemma CommitResolves(st: State, c: Call, targets: seq<string>, envs: seq<TargetEnv>, tx: TxEnv, good: seq<string>, r: Row)
    requires Inv(st, good) && EnvOk(st, c.path, targets, envs) && CallOk(st, c)
    requires Transact(st, c, targets, envs, tx).1 == Committed && r.target in good
    requires r in Transact(st, c, targets, envs, tx).0.db.rows && !r.deleteMarker && r.props.kind == File
    ensures Resolves(Transact(st, c, targets, envs, tx).0.store, r)
  {
    Nothing(st, c, targets, envs, tx);
    CommitRow(st, c, targets, envs, tx, r);
    if r in st.db.rows {
      assert Resolves(st.store, r);
    } else {
      GainResolves(st, good, c, Transact(st, c, targets, envs, tx).0.store, r);
    }
  }

  /** A row added with the matching change to `files` leaves the two in step; so does adding nothing for another path. */
  lemma GainTells(files: map<string, Props>, files': map<string, Props>, c: Call, path: string, rs: seq<Row>, gain: seq<Row>)
    requires Tells(files, path, rs) && FilesStep(files, c) == Ok(files')
    requires if path == c.path then |gain| == 1 && gain[0].props == c.rec && gain[0].deleteMarker == (c.op == Delete) else gain == []
    ensures Tells(files', path, rs + gain)
  {
    if path != c.path {
      assert rs + gain == rs;
    } else {
      assert (rs + gain)[|rs|] == gain[0];
    }
  }

  lemma {:induction false} CommitTells(st: State, c: Call, targets: seq<string>, envs: seq<TargetEnv>, tx: TxEnv, good: seq<string>, path: string,
                    target: string)
    requires Inv(st, good) && EnvOk(st, c.path, targets, envs) && SkipFree(c, good) && target in good && target in targets
    requires Transact(st, c, targets, envs, tx).1 == Committed
    ensures var db := Transact(st, c, targets, envs, tx).0.db; Tells(db.files, path, RowsOf(db.rows, path, target))
  {
    var gain := Gain(c, st.db.rows, targets, envs, path, target);
    All(st, c, targets, envs, tx, c.job, path, target);
    assert c.op in {New, ContentUpdate} ==> !Skips(c, target);
    assert Tells(st.db.files, path, RowsOf(st.db.rows, path, target));
    GainTells(st.db.files, Transact(st, c, targets, envs, tx).0.db.files, c, path, RowsOf(st.db.rows, path, target), gain);
  }

  lemma TransactKeepsInv(st: State, c: Call, targets: seq<string>, envs: seq<TargetEnv>, tx: TxEnv, good: seq<string>)
    requires Inv(st, good) && EnvOk(st, c.path, targets, envs) && CallOk(st, c) && SkipFree(c, good) && Among(good, targets)
    ensures Inv(Transact(st, c, targets, envs, tx).0, good)
  {
    var (st', out) := Transact(st, c, targets, envs, tx);
    Nothing(st, c, targets, envs, tx);
    if out == Committed {
      forall r | r in st'.db.rows && r.target in good && !r.deleteMarker && r.props.kind == File ensures Resolves(st'.store, r) {
        CommitResolves(st, c, targets, envs, tx, good, r);
      }
      forall p, t | t in good ensures Tells(st'.db.files, p, RowsOf(st'.db.rows, p, t)) {
        CommitTells(st, c, targets, envs, tx, good, p, t);
      }
      CommitShows(st, c, targets, envs, tx, "", "", "");
    } else {
      assert forall r | r in st.db.rows && Resolves(st.store, r) :: Resolves(st'.store, r);
    }
  }

  // ----- the up-to-date branch -------------------------------------------------------------------

  /** What the up-to-date branch adds to its job's collection. */
  function Picked(rows: seq<Row>, targets: seq<string>, envs: seq<TargetEnv>, path: string, target: string): seq<Row>
    requires |envs| == |targets|
    decreases |targets|
  {
    if |targets| == 0 then []
    else if targets[0] != target then Picked(rows, targets[1..], envs[1..], path, target)
    else
      var r := Newest(rows, path, target, true);
      if r.Some? && !envs[0].lookupErr && !envs[0].collectErr then [r.value] else []
  }

  lemma {:induction false} NewestIsRow(rows: seq<Row>, path: string, target: string, liveOnly: bool)
    ensures var r := Newest(rows, path, target, liveOnly);
            r.Some? ==> r.value in rows && r.value.path == path && r.value.target == target && !(liveOnly && r.value.deleteMarker)
  {
    if |rows| > 0 {
      NewestIsRow(rows[..|rows| - 1], path, target, liveOnly);
    }
  }

  lemma {:induction false} NotPicked(rows: seq<Row>, targets: seq<string>, envs: seq<TargetEnv>, path: string, target: string)
    requires |envs| == |targets| && target !in targets
    ensures Picked(rows, targets, envs, path, target) == []
    decreases |targets|
  {
    if |targets| > 0 {
      NotPicked(rows, targets[1..], envs[1..], path, target);
    }
  }

  lemma {:induction false} PickedAt(rows: seq<Row>, targets: seq<string>, envs: seq<TargetEnv>, path: string, i: nat)
    requires i < |targets| == |envs| && Distinct(targets)
    ensures var r := Newest(rows, path, targets[i], true);
            Picked(rows, targets, envs, path, targets[i]) ==
            if r.Some? && !envs[i].lookupErr && !envs[i].collectErr then [r.value] else []
    decreases |targets|
  {
    if i > 0 {
      PickedAt(rows, targets[1..], envs[1..], path, i - 1);
    }
  }

  lemma {:induction false} CollectKeeps(st: State, path: string, job: string, targets: seq<string>, envs: seq<TargetEnv>)
    requires |envs| == |targets| && DbOk(st.db)
    ensures var (st', complete) := Collect(st, path, job, targets, envs);
            && DbOk(st'.db) && st'.db.rows == st.db.rows && st'.db.files == st.db.files && st'.store == st.store
            && (complete <==> forall i | 0 <= i < |targets| ::
                  Newest(st.db.rows, path, targets[i], true).Some? && !envs[i].lookupErr && !envs[i].collectErr)
    decreases |targets|
  {
    if |targets| > 0 {
      var r := Newest(st.db.rows, path, targets[0], true);
      NewestIsRow(st.db.rows, path, targets[0], true);
      var ok := r.Some? && !envs[0].lookupErr && !envs[0].collectErr;
      var m := if ok then st.(db := st.db.(coll := st.db.coll + [Entry(r.value.uuid, job, targets[0])])) else st;
      CollectKeeps(m, path, job, targets[1..], envs[1..]);
      assert forall i | 0 < i < |targets| :: targets[i] == targets[1..][i - 1] && envs[i] == envs[1..][i - 1];
    }
  }

  lemma {:induction false} CollectShows(st: State, path: string, job: string, targets: seq<string>, envs: seq<TargetEnv>,
                                        j: string, p: string, t: string)
    requires |envs| == |targets| && DbOk(st.db) && Distinct(targets)
    ensures Held(Collect(st, path, job, targets, envs).0.db, j, p, t) ==
            Held(st.db, j, p, t) + (if j == job && p == path then Picked(st.db.rows, targets, envs, path, t) else [])
    decreases |targets|
  {
    if |targets| > 0 {
      var r := Newest(st.db.rows, path, targets[0], true);
      NewestIsRow(st.db.rows, path, targets[0], true);
      var ok := r.Some? && !envs[0].lookupErr && !envs[0].collectErr;
      var m := if ok then st.(db := st.db.(coll := st.db.coll + [Entry(r.value.uuid, job, targets[0])])) else st;
      if ok {
        HeldSnoc(st.db.rows, st.db.coll, Entry(r.value.uuid, job, targets[0]), j, p, t);
      }
      CollectShows(m, path, job, targets[1..], envs[1..], j, p, t);
      if t == targets[0] {
        NotPicked(st.db.rows, targets[1..], envs[1..], path, t);
      }
    }
  }

  // ----- runs ------------------------------------------------------------------------------------

  /** A path offered to `Do` by some job, or offered to `markDeleted` by its sweep. */
  datatype Event = Back(path: string, disk: Disk, cfg: Config, job: string, env: DoEnv)
                 | Remove(path: string, cfg: Config, job: string, queryErr: bool, tx: TxEnv, envs: seq<TargetEnv>)

  /** The transaction an event runs, if it runs one. */
  function CallOf(st: State, ev: Event): Option<Call> {
    match ev
    case Back(path, disk, cfg, job, env) =>
      var d := Decide(st, path, disk, cfg, job, env);
      if env.cancelled || d.Err? then None else d.value
    case Remove(path, cfg, job, queryErr, tx, envs) =>
      var found := FetchRecord(st, path, queryErr);
      if found.Err? || found.value.None? then None else Some(Call(Delete, path, found.value.value, [], job, cfg))
  }

  function EnvsOf(ev: Event): seq<TargetEnv> {
    match ev case Back(_, _, _, _, env) => env.targets case Remove(_, _, _, _, _, envs) => envs
  }

  function Step(st: State, targets: seq<string>, ev: Event): State
    requires |EnvsOf(ev)| == |targets|
  {
    match ev
    case Back(path, disk, cfg, job, env) => DoPath(st, path, disk, cfg, targets, job, env).0
    case Remove(path, cfg, job, queryErr, tx, envs) =>
      var c := CallOf(st, ev);
      if c.None? then st else Transact(st, c.value, targets, envs, tx).0
  }

  ghost predicate EventOk(st: State, targets: seq<string>, ev: Event) {
    && EnvOk(st, ev.path, targets, EnvsOf(ev))
    && (ev.Back? ==> ev.disk.md5 != Some(""))
  }

  /** Every step, skipped targets included, keeps the tables in order: versions stay 1, 2, ..., n. */
  lemma StepKeepsTables(st: State, targets: seq<string>, ev: Event)
    requires TablesOk(st) && EnvOk(st, ev.path, targets, EnvsOf(ev))
    ensures TablesOk(Step(st, targets, ev))
  {
    var c := CallOf(st, ev);
    if c.Some? {
      Nothing(st, c.value, targets, EnvsOf(ev), if ev.Back? then ev.env.tx else ev.tx);
    } else if ev.Back? {
      CollectKeeps(st, ev.path, ev.job, targets, ev.env.targets);
    }
  }

  /** The call of an event, if it makes one, skips none of these targets. */
  ghost predicate EventSkipFree(st: State, ev: Event, good: seq<string>) {
    CallOf(st, ev).Some? ==> SkipFree(CallOf(st, ev).value, good)
  }

  /** Every step keeps the invariant on every target that it does not skip. */
  lemma StepKeepsInv(st: State, targets: seq<string>, ev: Event, good: seq<string>)
    requires Inv(st, good) && EventOk(st, targets, ev) && EventSkipFree(st, ev, good) && Among(good, targets)
    ensures Inv(Step(st, targets, ev), good)
  {
    var c := CallOf(st, ev);
    if c.Some? {
      if ev.Back? {
        DecideCall(st, ev.path, ev.disk, ev.cfg, ev.job, ev.env);
      }
      TransactKeepsInv(st, c.value, targets, EnvsOf(ev), if ev.Back? then ev.env.tx else ev.tx, good);
    } else if ev.Back? {
      CollectKeeps(st, ev.path, ev.job, targets, ev.env.targets);
    }
  }

  /** A run over fixed targets, of which those in `good` are never skipped. */
  ghost predicate RunOk(st: State, targets: seq<string>, evs: seq<Event>, good: seq<string>)
    decreases |evs|
  {
    |evs| > 0 ==>
      && EventOk(st, targets, evs[0]) && EventSkipFree(st, evs[0], good)
      && RunOk(Step(st, targets, evs[0]), targets, evs[1..], good)
  }

  function RunAll(st: State, targets: seq<string>, evs: seq<Event>): State
    requires forall i | 0 <= i < |evs| :: |EnvsOf(evs[i])| == |targets|
    decreases |evs|
  {
    if |evs| == 0 then st else RunAll(Step(st, targets, evs[0]), targets, evs[1..])
  }

  const EMPTY := State(Db(map[], [], []), Store(map[], {}))

  lemma EmptyInv(good: seq<string>)
    ensures Inv(EMPTY, good)
  {
    assert forall p, t :: RowsOf(EMPTY.db.rows, p, t) == [];
  }

  lemma {:induction false} RunKeepsInv(st: State, targets: seq<string>, evs: seq<Event>, good: seq<string>)
    requires forall i | 0 <= i < |evs| :: |EnvsOf(evs[i])| == |targets|
    requires RunOk(st, targets, evs, good) && Inv(st, good) && Among(good, targets)
    ensures Inv(RunAll(st, targets, evs), good)
    decreases |evs|
  {
    if |evs| > 0 {
      StepKeepsInv(st, targets, evs[0], good);
      RunKeepsInv(Step(st, targets, evs[0]), targets, evs[1..], good);
    }
  }

  /**
   * The ledger over every run of jobs from an empty database with fixed targets, of which any may be skipped: versions
   * are gapless on every path and target; and on each target that was never skipped, whatever happened on the others, a
   * path is in `files` exactly when its newest row is live and then with that row's properties, and every live file row
   * names its object with the right encryption flag.
   */
  lemma {:induction false} LedgerInvariant(targets: seq<string>, evs: seq<Event>, good: seq<string>)
    requires forall i | 0 <= i < |evs| :: |EnvsOf(evs[i])| == |targets|
    requires RunOk(EMPTY, targets, evs, good) && Among(good, targets)
    ensures var st := RunAll(EMPTY, targets, evs);
            && (forall p, t, i | 0 <= i < |RowsOf(st.db.rows, p, t)| :: RowsOf(st.db.rows, p, t)[i].version == i + 1)
            && (forall p, t | t in good ::
                  var rs := RowsOf(st.db.rows, p, t);
                  && (p in st.db.files <==> rs != [] && !rs[|rs| - 1].deleteMarker)
                  && (p in st.db.files ==> st.db.files[p] == rs[|rs| - 1].props))
            && (forall r | r in st.db.rows && r.target in good && !r.deleteMarker && r.props.kind == File ::
                  && Key(r.target, r.path, r.remoteVersion) in st.store.objects
                  && st.store.objects[Key(r.target, r.path, r.remoteVersion)] == Blob(r.bytes, r.props.encrypted))
  {
    EmptyInv(good);
    RunKeepsInv(EMPTY, targets, evs, good);
    InvMeans(RunAll(EMPTY, targets, evs), good);
  }

  /** The invariant, spelled out. */
  lemma InvMeans(st: State, good: seq<string>)
    requires Inv(st, good)
    ensures forall p, t, i | 0 <= i < |RowsOf(st.db.rows, p, t)| :: RowsOf(st.db.rows, p, t)[i].version == i + 1
    ensures forall p, t | t in good ::
              var rs := RowsOf(st.db.rows, p, t);
              && (p in st.db.files <==> rs != [] && !rs[|rs| - 1].deleteMarker)
              && (p in st.db.files ==> st.db.files[p] == rs[|rs| - 1].props)
    ensures forall r | r in st.db.rows && r.target in good && !r.deleteMarker && r.props.kind == File ::
              && Key(r.target, r.path, r.remoteVersion) in st.store.objects
              && st.store.objects[Key(r.target, r.path, r.remoteVersion)] == Blob(r.bytes, r.props.encrypted)
  {
    forall p, t | t in good
      ensures var rs := RowsOf(st.db.rows, p, t);
              && (p in st.db.files <==> rs != [] && !rs[|rs| - 1].deleteMarker)
              && (p in st.db.files ==> st.db.files[p] == rs[|rs| - 1].props)
    {
      assert Tells(st.db.files, p, RowsOf(st.db.rows, p, t));
    }
    forall r | r in st.db.rows && r.target in good && !r.deleteMarker && r.props.kind == File
      ensures Key(r.target, r.path, r.remoteVersion) in st.store.objects
      ensures st.store.objects[Key(r.target, r.path, r.remoteVersion)] == Blob(r.bytes, r.props.encrypted)
    {
      assert Resolves(st.store, r);
    }
  }

  /** With every target skipped at will, versions still stay 1, 2, ..., n. */
  lemma {:induction false} VersionsWithSkips(targets: seq<string>, evs: seq<Event>, path: string, target: string, i: nat)
    requires forall i | 0 <= i < |evs| :: |EnvsOf(evs[i])| == |targets|
    requires RunOk(EMPTY, targets, evs, [])
    requires i < |RowsOf(RunAll(EMPTY, targets, evs).db.rows, path, target)|
    ensures RowsOf(RunAll(EMPTY, targets, evs).db.rows, path, target)[i].version == i + 1
  {
    LedgerInvariant(targets, evs, []);
  }
}
