/** What one transaction does to the tables and to the object stores. */
module LedgerEffects {
  import opened Common
  import opened Ledger
  import opened LedgerTables

  ghost predicate Distinct(s: seq<string>) {
    forall i, j | 0 <= i < j < |s| :: s[i] != s[j]
  }

  // ----- tables ----------------------------------------------------------------------------------

  ghost predicate VersionsOk(rows: seq<Row>) {
    forall p, t :: Versioned(RowsOf(rows, p, t))
  }

  /** Gapless versions, one row per uuid, and no dangling collection entry. */
  ghost predicate DbOk(db: Db) {
    && VersionsOk(db.rows)
    && (forall r | r in db.rows :: Find(db.rows, r.uuid) == Some(r))
    && (forall i | 0 <= i < |db.coll| :: Find(db.rows, db.coll[i].uuid).Some?)
  }

  lemma AddedRowKeepsDb(db: Db, row: Row)
    requires DbOk(db)
    requires Find(db.rows, row.uuid).None? && row.version == NextVersion(db.rows, row.path, row.target)
    ensures DbOk(db.(rows := db.rows + [row]))
  {
    var rows := db.rows + [row];
    forall p, t ensures Versioned(RowsOf(rows, p, t)) {
      NewestIsLast(db.rows, p, t);
      RowsOfSnoc(db.rows, row, p, t);
    }
    forall r | r in rows ensures Find(rows, r.uuid) == Some(r) {
      FindSnoc(db.rows, row, r.uuid);
    }
    forall i | 0 <= i < |db.coll| ensures Find(rows, db.coll[i].uuid).Some? {
      FindSnoc(db.rows, row, db.coll[i].uuid);
    }
  }

  /** The row a transaction adds for a target, if it adds one: it depends on the tables before the transaction only. */
  function Gain(c: Call, rows: seq<Row>, targets: seq<string>, envs: seq<TargetEnv>, path: string, target: string): seq<Row>
    requires |envs| == |targets|
    decreases |targets|
  {
    if path != c.path || |targets| == 0 then []
    else if targets[0] != target then Gain(c, rows, targets[1..], envs[1..], path, target)
    else
      var p := Place(c, target, envs[0], rows);
      if p.At? then [NewRow(c, target, envs[0], rows, p)] else []
  }

  /** Placing looks only at the rows of its own path and target. */
  lemma {:induction false} PlaceDependsOnHistory(c: Call, target: string, e: TargetEnv, rows: seq<Row>, rows': seq<Row>)
    requires VersionsOk(rows) && VersionsOk(rows')
    requires RowsOf(rows, c.path, target) == RowsOf(rows', c.path, target)
    ensures NextVersion(rows, c.path, target) == NextVersion(rows', c.path, target)
    ensures Place(c, target, e, rows) == Place(c, target, e, rows')
  {
    NewestIsLast(rows, c.path, target);
    NewestIsLast(rows', c.path, target);
    var n := NextVersion(rows, c.path, target) - 1;
    AtVersionIs(rows, c.path, target, n);
    AtVersionIs(rows', c.path, target, n);
  }

  lemma {:induction false} GainDependsOnHistory(c: Call, rows: seq<Row>, rows': seq<Row>, targets: seq<string>,
                                                envs: seq<TargetEnv>, path: string, target: string)
    requires |envs| == |targets| && VersionsOk(rows) && VersionsOk(rows')
    requires path == c.path && target in targets ==> RowsOf(rows, path, target) == RowsOf(rows', path, target)
    ensures Gain(c, rows, targets, envs, path, target) == Gain(c, rows', targets, envs, path, target)
    decreases |targets|
  {
    if path == c.path && |targets| > 0 {
      if targets[0] != target {
        GainDependsOnHistory(c, rows, rows', targets[1..], envs[1..], path, target);
      } else {
        PlaceDependsOnHistory(c, target, envs[0], rows, rows');
      }
    }
  }

  lemma {:induction false} NoGainElsewhere(c: Call, rows: seq<Row>, targets: seq<string>, envs: seq<TargetEnv>, path: string,
                                           target: string)
    requires |envs| == |targets| && target !in targets
    ensures Gain(c, rows, targets, envs, path, target) == []
    decreases |targets|
  {
    if path == c.path && |targets| > 0 {
      NoGainElsewhere(c, rows, targets[1..], envs[1..], path, target);
    }
  }

  /** An added row and its collection entry appear in exactly one place. */
  lemma {:induction false} AddedShows(db: Db, row: Row, job: string, path: string, target: string)
    requires DbOk(db) && Find(db.rows, row.uuid).None?
    ensures var db' := db.(rows := db.rows + [row], coll := db.coll + [Entry(row.uuid, row.job, row.target)]);
            var mine := if row.path == path && row.target == target then [row] else [];
            && RowsOf(db'.rows, path, target) == RowsOf(db.rows, path, target) + mine
            && Held(db', job, path, target) == Held(db, job, path, target) + (if job == row.job then mine else [])
  {
    RowsOfSnoc(db.rows, row, path, target);
    FindSnoc(db.rows, row, row.uuid);
    HeldSnoc(db.rows + [row], db.coll, Entry(row.uuid, row.job, row.target), job, path, target);
    HeldNewRow(db.rows, row, db.coll, job, path, target);
  }

  /** What a gain adds: rows to the table, and the same rows to the collection of the transaction's job. */
  ghost predicate Shows(before: Db, after: Db, c: Call, gain: seq<Row>, job: string, path: string, target: string) {
    && RowsOf(after.rows, path, target) == RowsOf(before.rows, path, target) + gain
    && Held(after, job, path, target) == Held(before, job, path, target) + (if job == c.job then gain else [])
  }

  lemma SettleKeepsDb(c: Call, t: string, e: TargetEnv, l: Loop, p: Placing)
    requires DbOk(l.db)
    ensures DbOk(Settle(c, t, e, l, p).db) && Settle(c, t, e, l, p).db.files == l.db.files
  {
    if p.At? && !e.insertErr && Find(l.db.rows, e.uuid).None? {
      var row := NewRow(c, t, e, l.db.rows, p);
      AddedRowKeepsDb(l.db, row);
      FindSnoc(l.db.rows, row, e.uuid);
    }
  }

  /** An iteration that goes on has gained its row and the matching collection entry, or was skipped. */
  lemma SettleShows(c: Call, t: string, e: TargetEnv, l: Loop, p: Placing, job: string, path: string, target: string)
    requires DbOk(l.db) && Settle(c, t, e, l, p).status == Going
    ensures Shows(l.db, Settle(c, t, e, l, p).db, c,
                  if path == c.path && target == t && p.At? then [NewRow(c, t, e, l.db.rows, p)] else [], job, path, target)
  {
    if p.At? {
      AddedShows(l.db, NewRow(c, t, e, l.db.rows, p), job, path, target);
    }
  }

  lemma {:induction false} LoopKeepsDb(c: Call, targets: seq<string>, envs: seq<TargetEnv>, l: Loop)
    requires |envs| == |targets| && DbOk(l.db)
    ensures DbOk(TargetLoop(c, targets, envs, l).db) && TargetLoop(c, targets, envs, l).db.files == l.db.files
    decreases |targets|
  {
    if |targets| > 0 && l.status == Going {
      SettleKeepsDb(c, targets[0], envs[0], l, Place(c, targets[0], envs[0], l.db.rows));
      LoopKeepsDb(c, targets[1..], envs[1..], TargetStep(c, targets[0], envs[0], l));
    }
  }

  /** The whole loop: when it runs to its end each target has gained the row it was due, and nothing else changed. */
  lemma {:induction false} LoopShows(c: Call, targets: seq<string>, envs: seq<TargetEnv>, l: Loop, job: string,
                                     path: string, target: string)
    requires |envs| == |targets| && Distinct(targets)
    requires DbOk(l.db) && TargetLoop(c, targets, envs, l).status == Going
    ensures Shows(l.db, TargetLoop(c, targets, envs, l).db, c, Gain(c, l.db.rows, targets, envs, path, target), job, path, target)
    decreases |targets|
  {
    if |targets| > 0 && l.status == Going {
      var t, e, rest, es := targets[0], envs[0], targets[1..], envs[1..];
      var m := TargetStep(c, t, e, l);
      SettleKeepsDb(c, t, e, l, Place(c, t, e, l.db.rows));
      SettleShows(c, t, e, l, Place(c, t, e, l.db.rows), job, path, target);
      LoopShows(c, rest, es, m, job, path, target);
      if target == t {
        NoGainElsewhere(c, m.db.rows, rest, es, path, target);
      } else {
        GainDependsOnHistory(c, l.db.rows, m.db.rows, rest, es, path, target);
      }
    }
  }

  // ----- stores ----------------------------------------------------------------------------------

  /** Stores hand out a version they have never handed out before. */
  ghost predicate FreshPuts(path: string, targets: seq<string>, envs: seq<TargetEnv>, issued: set<Key>)
    requires |envs| == |targets|
  {
    forall i | 0 <= i < |targets| :: envs[i].put.Stored? ==> Key(targets[i], path, envs[i].put.remoteVersion) !in issued
  }

  function PlacedKeys(processed: seq<Placed>): set<Key> {
    set p | p in processed && p.isObject :: p.key
  }

  /** Nothing was overwritten, and everything that was not there before is on the list of placed objects. */
  ghost predicate StoreGrew(base: Store, l: Loop) {
    && base.issued <= l.store.issued
    && l.store.objects.Keys <= l.store.issued
    && (forall k | k in base.objects :: k in l.store.objects && l.store.objects[k] == base.objects[k])
    && l.store.objects.Keys == base.objects.Keys + PlacedKeys(l.processed)
    && PlacedKeys(l.processed) !! base.issued
  }

  ghost predicate StoreOk(s: Store) {
    s.objects.Keys <= s.issued
  }

  lemma PlacedKeysSnoc(processed: seq<Placed>, p: Placed)
    ensures PlacedKeys(processed + [p]) == PlacedKeys(processed) + (if p.isObject then {p.key} else {})
  {}

  lemma PutStore(c: Call, t: string, e: TargetEnv, base: Store, l: Loop, p: Placing)
    requires StoreGrew(base, l) && p.At?
    requires p.isNew && p.isObject ==> Key(t, c.path, p.remoteVersion) !in l.store.issued
    ensures var l' := Put(c, t, e, l, p);
            && StoreGrew(base, l')
            && (forall k | k in l'.store.issued :: k in l.store.issued || k.target == t)
            && (forall k | k in l.store.objects :: k in l'.store.objects && l'.store.objects[k] == l.store.objects[k])
  {
    PlacedKeysSnoc(l.processed, Placed(Key(t, c.path, p.remoteVersion), p.isObject, e.deleteErr));
  }

  lemma SettleStore(c: Call, t: string, e: TargetEnv, base: Store, l: Loop, p: Placing)
    requires StoreGrew(base, l)
    requires p.At? && p.isNew && p.isObject ==> Key(t, c.path, p.remoteVersion) !in l.store.issued
    ensures var l' := Settle(c, t, e, l, p);
            && StoreGrew(base, l')
            && (forall k | k in l'.store.issued :: k in l.store.issued || k.target == t)
            && (forall k | k in l.store.objects :: k in l'.store.objects && l'.store.objects[k] == l.store.objects[k])
  {
    if p.At? {
      PutStore(c, t, e, base, l, p);
    }
  }

  lemma PlacedObjectIsStored(c: Call, t: string, e: TargetEnv, rows: seq<Row>)
    ensures var p := Place(c, t, e, rows); p.At? && p.isNew && p.isObject ==> e.put == Stored(p.remoteVersion)
  {}

  lemma {:induction false} LoopStore(c: Call, targets: seq<string>, envs: seq<TargetEnv>, base: Store, l: Loop)
    requires |envs| == |targets| && Distinct(targets)
    requires StoreGrew(base, l) && FreshPuts(c.path, targets, envs, l.store.issued)
    ensures StoreGrew(base, TargetLoop(c, targets, envs, l))
    ensures forall k | k in l.store.objects :: k in TargetLoop(c, targets, envs, l).store.objects &&
                                               TargetLoop(c, targets, envs, l).store.objects[k] == l.store.objects[k]
    decreases |targets|
  {
    if |targets| > 0 && l.status == Going {
      PlacedObjectIsStored(c, targets[0], envs[0], l.db.rows);
      SettleStore(c, targets[0], envs[0], base, l, Place(c, targets[0], envs[0], l.db.rows));
      LoopStore(c, targets[1..], envs[1..], base, TargetStep(c, targets[0], envs[0], l));
    }
  }

  /** Compensation never touches what was there before, and takes back everything when every delete succeeds. */
  lemma UndoRestores(base: Store, l: Loop)
    requires StoreGrew(base, l) && StoreOk(base)
    ensures var s := Undo(l.store, l.processed);
            && StoreOk(s) && base.issued <= s.issued
            && (forall k | k in base.objects :: k in s.objects && s.objects[k] == base.objects[k])
            && ((forall p | p in l.processed :: p.isObject ==> !p.deleteErr) ==> s.objects == base.objects)
            && s.objects.Keys <= base.objects.Keys + (set p | p in l.processed && p.isObject && p.deleteErr :: p.key)
  {
    UndoRemoves(l.store, l.processed);
  }
}
