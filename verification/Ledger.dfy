/**
 * The backup ledger: three tables and one object store per target, changed by one transaction per path
 * (backup/backup.go:37-335, 339-524, 962-1112).
 *
 * Everything that can fail or be cancelled is an input (`TargetEnv`, `TxEnv`). A transaction works on copies of the
 * tables, so rolling back is dropping the copies; the object stores have no transaction and must be compensated.
 */
module Ledger {
  import opened Common
  import opened Records
  import opened PreUpload

  // ----- tables and stores -----------------------------------------------------------------------

  /**
   * A row of `remote_files`. `bytes` is a history variable that no operation reads back: the bytes that were on disk at
   * the last content upload this row stands for.
   */
  datatype Row = Row(uuid: string, path: string, target: string, job: string, deleteMarker: bool, version: nat,
                     remoteVersion: string, props: Props, bytes: Bytes)

  /** A row of `backup_collections`. */
  datatype Entry = Entry(uuid: string, job: string, target: string)

  datatype Db = Db(files: map<string, Props>, rows: seq<Row>, coll: seq<Entry>)

  datatype Key = Key(target: string, path: string, remoteVersion: string)

  datatype Blob = Blob(content: Bytes, ciphertext: bool) | Marker

  /** The versioned buckets of all targets, and every version they have ever handed out. */
  datatype Store = Store(objects: map<Key, Blob>, issued: set<Key>)

  datatype State = State(db: Db, store: Store)

  // ----- queries ---------------------------------------------------------------------------------

  /** The rows of one path on one target, oldest first. */
  function RowsOf(rows: seq<Row>, path: string, target: string): seq<Row> {
    if |rows| == 0 then []
    else
      var r := rows[|rows| - 1];
      var rest := RowsOf(rows[..|rows| - 1], path, target);
      if r.path == path && r.target == target then rest + [r] else rest
  }

  /** `ORDER BY version DESC LIMIT 1`, over all rows or over those that are not delete markers. */
  function Newest(rows: seq<Row>, path: string, target: string, liveOnly: bool): Option<Row> {
    if |rows| == 0 then None
    else
      var r := rows[|rows| - 1];
      var best := Newest(rows[..|rows| - 1], path, target, liveOnly);
      if r.path == path && r.target == target && !(liveOnly && r.deleteMarker) && (best.None? || r.version > best.value.version)
      then Some(r) else best
  }

  /** `calcRemoteFileVersion` */
  function NextVersion(rows: seq<Row>, path: string, target: string): nat {
    match Newest(rows, path, target, false)
    case None => 1
    case Some(r) => r.version + 1
  }

  /** The first row with the given version. */
  function AtVersion(rows: seq<Row>, path: string, target: string, version: nat): Option<Row> {
    if |rows| == 0 then None
    else
      var first := AtVersion(rows[..|rows| - 1], path, target, version);
      var r := rows[|rows| - 1];
      if first.Some? then first
      else if r.path == path && r.target == target && r.version == version then Some(r) else None
  }

  function Find(rows: seq<Row>, uuid: string): Option<Row> {
    if |rows| == 0 then None
    else if rows[|rows| - 1].uuid == uuid then Some(rows[|rows| - 1])
    else Find(rows[..|rows| - 1], uuid)
  }

  /** The rows of a path that a job's collection holds for a target (the join of the two tables). */
  function Held(db: Db, job: string, path: string, target: string): seq<Row> {
    HeldIn(db.rows, db.coll, job, path, target)
  }

  function HeldIn(rows: seq<Row>, coll: seq<Entry>, job: string, path: string, target: string): seq<Row> {
    if |coll| == 0 then []
    else
      var e := coll[|coll| - 1];
      var rest := HeldIn(rows, coll[..|coll| - 1], job, path, target);
      var r := Find(rows, e.uuid);
      if e.job == job && e.target == target && r.Some? && r.value.path == path then rest + [r.value] else rest
  }

  // ----- one transaction -------------------------------------------------------------------------

  /** The three operations of `UploadAndUpdateDB`, and the transaction of `markDeleted`. */
  datatype Op = New | ContentUpdate | MetadataUpdate | Delete

  /** The arguments of one transaction. */
  datatype Call = Call(op: Op, path: string, rec: Props, content: Bytes, job: string, cfg: Config)

  /** What a store answers to an upload or to placing a delete marker; a failed one stores nothing. */
  datatype PutOutcome = Stored(remoteVersion: string) | PutFailed | PutCancelled

  datatype TargetEnv = TargetEnv(versionErr: bool, put: PutOutcome, lookupErr: bool, uuid: string, insertErr: bool,
                                 collectErr: bool, deleteErr: bool)

  datatype TxEnv = TxEnv(beginErr: bool, filesErr: bool, commitErr: bool)

  datatype Status = Going | Failing | Cancelling

  /** An entry of `processed`: a version placed by this transaction, and whether its compensating delete will fail. */
  datatype Placed = Placed(key: Key, isObject: bool, deleteErr: bool)

  /** The local variables of the loop over targets. */
  datatype Loop = Loop(db: Db, store: Store, processed: seq<Placed>, status: Status)

  datatype Outcome = Committed | Failed | Cancelled | CommitFailed

  /** The two pre-upload checks: the target is passed over, without row, object or error. */
  predicate Skips(c: Call, target: string) {
    || HasReserved(c.path)
    || !SizeAdmits(c.rec.kind == File, c.rec.size, c.cfg.encrypt, false, e => c.cfg.limit(target, e))
  }

  /** What placing the new version on a target came to; `bytes` is the history carried by its row. */
  datatype Placing = Passed | Broke(status: Status) | At(remoteVersion: string, bytes: Bytes, isObject: bool, isNew: bool)

  function Place(c: Call, target: string, e: TargetEnv, rows: seq<Row>): Placing {
    var version := NextVersion(rows, c.path, target);
    if e.versionErr then Broke(Failing)
    else if c.op == MetadataUpdate then
      if version <= 1 || e.lookupErr then Broke(Failing)
      else match AtVersion(rows, c.path, target, version - 1)
        case None => Broke(Failing)
        case Some(prev) => At(prev.remoteVersion, prev.bytes, prev.props.kind == File, false)
    else if c.op != Delete && Skips(c, target) then Passed
    else if c.rec.kind != File then At(Decimal(version), [], false, true)
    else match e.put
      case PutFailed => Broke(Failing)
      case PutCancelled => Broke(Cancelling)
      case Stored(v) => At(v, if c.op == Delete then [] else c.content, true, true)
  }

  /** The row that goes with a placed version. */
  function NewRow(c: Call, target: string, e: TargetEnv, rows: seq<Row>, p: Placing): Row
    requires p.At?
  {
    Row(e.uuid, c.path, target, c.job, c.op == Delete, NextVersion(rows, c.path, target), p.remoteVersion, c.rec, p.bytes)
  }

  /** The object, or the delete marker, that goes with a placed version, and its entry in `processed`. */
  function Put(c: Call, target: string, e: TargetEnv, l: Loop, p: Placing): Loop
    requires p.At?
  {
    if !p.isNew then l
    else
      var key := Key(target, c.path, p.remoteVersion);
      var blob := if c.op == Delete then Marker else Blob(p.bytes, c.cfg.encrypt);
      var store := if p.isObject then Store(l.store.objects[key := blob], l.store.issued + {key}) else l.store;
      l.(store := store, processed := l.processed + [Placed(key, p.isObject, e.deleteErr)])
  }

  /** The two inserts; `uuid` is a primary key. */
  function Record(c: Call, e: TargetEnv, l: Loop, row: Row): Loop {
    if e.insertErr || Find(l.db.rows, row.uuid).Some? then l.(status := Failing)
    else if e.collectErr then l.(db := l.db.(rows := l.db.rows + [row]), status := Failing)
    else l.(db := l.db.(rows := l.db.rows + [row], coll := l.db.coll + [Entry(row.uuid, c.job, row.target)]))
  }

  /** One iteration of the loop over targets, given what placing came to. */
  function Settle(c: Call, target: string, e: TargetEnv, l: Loop, p: Placing): Loop {
    match p
    case Passed => l
    case Broke(status) => l.(status := status)
    case At(_, _, _, _) => Record(c, e, Put(c, target, e, l, p), NewRow(c, target, e, l.db.rows, p))
  }

  function TargetStep(c: Call, target: string, e: TargetEnv, l: Loop): Loop {
    Settle(c, target, e, l, Place(c, target, e, l.db.rows))
  }

  /** The loop over targets, left at the first failure or cancellation. */
  function TargetLoop(c: Call, targets: seq<string>, envs: seq<TargetEnv>, l: Loop): Loop
    requires |envs| == |targets|
    decreases |targets|
  {
    if |targets| == 0 || l.status != Going then l
    else TargetLoop(c, targets[1..], envs[1..], TargetStep(c, targets[0], envs[0], l))
  }

  /** The compensating deletes. */
  function Undo(store: Store, processed: seq<Placed>): Store
    decreases |processed|
  {
    if |processed| == 0 then store
    else
      var p := processed[0];
      Undo(if p.isObject && !p.deleteErr then store.(objects := store.objects - {p.key}) else store, processed[1..])
  }

  /** The change to the `files` table that opens the transaction. */
  function FilesStep(files: map<string, Props>, c: Call): Result<map<string, Props>> {
    match c.op
    case New => if c.path in files then Err else Ok(files[c.path := c.rec])
    case Delete => Ok(files - {c.path})
    case _ => if c.path in files then Ok(files[c.path := c.rec]) else Err
  }

  /** The whole transaction: `UploadAndUpdateDB`, or the second half of `markDeleted`. */
  function Transact(st: State, c: Call, targets: seq<string>, envs: seq<TargetEnv>, tx: TxEnv): (State, Outcome)
    requires |envs| == |targets|
  {
    var files := FilesStep(st.db.files, c);
    if tx.beginErr || tx.filesErr || files.Err? then (st, Failed)
    else
      var l := TargetLoop(c, targets, envs, Loop(st.db.(files := files.value), st.store, [], Going));
      if l.status == Cancelling then (st.(store := Undo(l.store, l.processed)), Cancelled)
      else if l.status == Failing then (st.(store := Undo(l.store, l.processed)), Failed)
      else if tx.commitErr then (st.(store := l.store), CommitFailed)
      else (State(l.db, l.store), Committed)
  }

  // ----- one path --------------------------------------------------------------------------------

  /** What `Do` meets: a cancelled context, a failing query, and the environments of its transaction. */
  datatype DoEnv = DoEnv(cancelled: bool, queryErr: bool, fallback: Option<string>, tx: TxEnv, targets: seq<TargetEnv>)

  datatype DoOutcome = Backed(Outcome) | UpToDate(complete: bool) | Refused | Stopped

  /** `getBackedupObjectPropertiesFromDb` */
  function FetchRecord(st: State, path: string, queryErr: bool): Result<Option<Props>> {
    if queryErr then Err
    else if path !in st.db.files then Ok(None)
    else if ReadableBack(st.db.files[path]) then Ok(Some(st.db.files[path])) else Err
  }

  /** The up-to-date branch: each target's newest live row joins the job's collection; failures are only logged. */
  function Collect(st: State, path: string, job: string, targets: seq<string>, envs: seq<TargetEnv>): (State, bool)
    requires |envs| == |targets|
    decreases |targets|
  {
    if |targets| == 0 then (st, true)
    else
      var r := Newest(st.db.rows, path, targets[0], true);
      var ok := r.Some? && !envs[0].lookupErr && !envs[0].collectErr;
      var st' := if ok then st.(db := st.db.(coll := st.db.coll + [Entry(r.value.uuid, job, targets[0])])) else st;
      var (end, rest) := Collect(st', path, job, targets[1..], envs[1..]);
      (end, ok && rest)
  }

  /** The transaction `Do` decides on, if it decides on one. */
  function Decide(st: State, path: string, disk: Disk, cfg: Config, job: string, e: DoEnv): Result<Option<Call>> {
    var found := FetchRecord(st, path, e.queryErr);
    if found.Err? then Err
    else match found.value
      case None =>
        if cfg.checksum && disk.kind == File && disk.md5.None? && e.fallback.None? then Err
        else
          var rec := FullRecord(disk, cfg, if e.fallback.Some? then e.fallback.value else "", job);
          if rec.Err? || disk.kind == Unknown then Err else Ok(Some(Call(New, path, rec.value, disk.content, job, cfg)))
      case Some(stored) =>
        var d := NeedsUpload(disk, stored, cfg.checksum, cfg.encrypt);
        var rec := UpdatedRecord(disk, cfg, stored, job);
        if rec.Err? then Err
        else if !d.contentChanged && !d.metadataChanged then Ok(None)
        else if disk.kind == Unknown then Err
        else Ok(Some(Call(if d.contentChanged then ContentUpdate else MetadataUpdate, path, rec.value, disk.content, job, cfg)))
  }

  /** `Do`: back up one path. */
  function DoPath(st: State, path: string, disk: Disk, cfg: Config, targets: seq<string>, job: string, e: DoEnv)
    : (State, DoOutcome)
    requires |e.targets| == |targets|
  {
    if e.cancelled then (st, Stopped)
    else
      var call := Decide(st, path, disk, cfg, job, e);
      if call.Err? then (st, Refused)
      else match call.value
        case None =>
          var (st', complete) := Collect(st, path, job, targets, e.targets);
          (st', UpToDate(complete))
        case Some(c) =>
          var (st', out) := Transact(st, c, targets, e.targets, e.tx);
          (st', Backed(out))
  }
}
