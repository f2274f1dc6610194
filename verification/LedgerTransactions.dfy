/** All or nothing: what a transaction that commits has done, and that any other has done nothing. */
module LedgerTransactions {
  import opened Common
  import opened Records
  import opened Ledger
  import opened LedgerTables
  import opened LedgerEffects
  import opened Format
  import opened PreUpload

  /** Something in this iteration fails or is cancelled. */
  predicate Blocked(c: Call, target: string, e: TargetEnv, rows: seq<Row>) {
    var p := Place(c, target, e, rows);
    p.Broke? || (p.At? && (e.insertErr || e.collectErr))
  }

  /** Generated uuids do not collide. */
  ghost predicate FreshUuids(rows: seq<Row>, envs: seq<TargetEnv>) {
    && (forall i | 0 <= i < |envs| :: Find(rows, envs[i].uuid).None?)
    && (forall i, j | 0 <= i < j < |envs| :: envs[i].uuid != envs[j].uuid)
  }

  /** A target that is not due any more sees the same history after the first iteration. */
  lemma {:induction false} HistoryElsewhere(c: Call, t: string, e: TargetEnv, l: Loop, p: Placing, target: string)
    requires DbOk(l.db) && Settle(c, t, e, l, p).status == Going && target != t
    ensures RowsOf(Settle(c, t, e, l, p).db.rows, c.path, target) == RowsOf(l.db.rows, c.path, target)
  {
    SettleShows(c, t, e, l, p, c.job, c.path, target);
  }

  lemma UuidsStayFresh(c: Call, t: string, envs: seq<TargetEnv>, l: Loop, p: Placing)
    requires envs != [] && FreshUuids(l.db.rows, envs)
    ensures FreshUuids(Settle(c, t, envs[0], l, p).db.rows, envs[1..])
  {
    if p.At? {
      var row := NewRow(c, t, envs[0], l.db.rows, p);
      forall i | 0 < i < |envs| ensures Find(l.db.rows + [row], envs[i].uuid).None? {
        FindSnoc(l.db.rows, row, envs[i].uuid);
      }
    }
  }

  /** The loop runs to its end exactly when nothing is in the way at any target, whatever its position. */
  lemma {:induction false} LoopGoesOn(c: Call, targets: seq<string>, envs: seq<TargetEnv>, l: Loop)
    requires |envs| == |targets| && Distinct(targets) && DbOk(l.db) && l.status == Going
    requires FreshUuids(l.db.rows, envs)
    ensures TargetLoop(c, targets, envs, l).status == Going <==>
            forall i | 0 <= i < |targets| :: !Blocked(c, targets[i], envs[i], l.db.rows)
    decreases |targets|
  {
    if |targets| > 0 {
      var t, e, p := targets[0], envs[0], Place(c, targets[0], envs[0], l.db.rows);
      var m := Settle(c, t, e, l, p);
      assert m.status == Going <==> !Blocked(c, t, e, l.db.rows);
      if m.status == Going {
        SettleKeepsDb(c, t, e, l, p);
        UuidsStayFresh(c, t, envs, l, p);
        LoopGoesOn(c, targets[1..], envs[1..], m);
        forall i | 0 < i < |targets|
          ensures Blocked(c, targets[i], envs[i], l.db.rows) == Blocked(c, targets[1..][i - 1], envs[1..][i - 1], m.db.rows)
        {
          HistoryElsewhere(c, t, e, l, p, targets[i]);
          PlaceDependsOnHistory(c, targets[i], envs[i], l.db.rows, m.db.rows);
        }
      }
    }
  }

  /** What the loop gains at its i-th target. */
  lemma {:induction false} GainAt(c: Call, rows: seq<Row>, targets: seq<string>, envs: seq<TargetEnv>, i: nat)
    requires i < |targets| == |envs| && Distinct(targets)
    ensures var p := Place(c, targets[i], envs[i], rows);
            Gain(c, rows, targets, envs, c.path, targets[i]) == if p.At? then [NewRow(c, targets[i], envs[i], rows, p)] else []
    decreases |targets|
  {
    if i > 0 {
      GainAt(c, rows, targets[1..], envs[1..], i - 1);
    }
  }

  /** A loop that ends well has stored the object of every target. */
  lemma {:induction false} LoopPlaced(c: Call, targets: seq<string>, envs: seq<TargetEnv>, base: Store, l: Loop, i: nat)
    requires i < |targets| == |envs| && Distinct(targets) && DbOk(l.db) && StoreGrew(base, l)
    requires FreshPuts(c.path, targets, envs, l.store.issued)
    requires TargetLoop(c, targets, envs, l).status == Going
    ensures var p := Place(c, targets[i], envs[i], l.db.rows);
            var objects := TargetLoop(c, targets, envs, l).store.objects;
            p.At? && p.isNew && p.isObject ==>
              var k := Key(targets[i], c.path, p.remoteVersion);
              k in objects && objects[k] == if c.op == Delete then Marker else Blob(p.bytes, c.cfg.encrypt)
    decreases |targets|
  {
    var t, e, p := targets[0], envs[0], Place(c, targets[0], envs[0], l.db.rows);
    var m := Settle(c, t, e, l, p);
    SettleKeepsDb(c, t, e, l, p);
    PlacedObjectIsStored(c, t, e, l.db.rows);
    SettleStore(c, t, e, base, l, p);
    if i == 0 {
      LoopStore(c, targets[1..], envs[1..], base, m);
    } else {
      HistoryElsewhere(c, t, e, l, p, targets[i]);
      PlaceDependsOnHistory(c, targets[i], envs[i], l.db.rows, m.db.rows);
      LoopPlaced(c, targets[1..], envs[1..], base, m, i - 1);
    }
  }

  // ----- the transaction -------------------------------------------------------------------------

  /** What the environment promises a transaction: distinct targets, fresh object versions, fresh uuids. */
  ghost predicate EnvOk(st: State, path: string, targets: seq<string>, envs: seq<TargetEnv>) {
    && |envs| == |targets| && Distinct(targets)
    && FreshPuts(path, targets, envs, st.store.issued)
    && FreshUuids(st.db.rows, envs)
  }

  ghost predicate TablesOk(st: State) {
    DbOk(st.db) && StoreOk(st.store)
  }

  function Start(st: State, c: Call): Loop
    requires FilesStep(st.db.files, c).Ok?
  {
    Loop(st.db.(files := FilesStep(st.db.files, c).value), st.store, [], Going)
  }

  /** A transaction commits exactly when nothing fails or is cancelled, at any of its targets or around the loop. */
  lemma CommitsIff(st: State, c: Call, targets: seq<string>, envs: seq<TargetEnv>, tx: TxEnv)
    requires EnvOk(st, c.path, targets, envs) && TablesOk(st)
    ensures Transact(st, c, targets, envs, tx).1 == Committed <==>
            && !tx.beginErr && !tx.filesErr && !tx.commitErr && FilesStep(st.db.files, c).Ok?
            && forall i | 0 <= i < |targets| :: !Blocked(c, targets[i], envs[i], st.db.rows)
  {
    if FilesStep(st.db.files, c).Ok? {
      LoopGoesOn(c, targets, envs, Start(st, c));
    }
  }

  /**
   * What stands in the way at a target: a failing query for the version; for a metadata update an earlier row that is
   * missing or cannot be looked up; for anything else, unless the target is passed over, a file that is not stored; and a
   * failing insert into either table.
   */
  lemma {:induction false} BlockedIff(c: Call, target: string, e: TargetEnv, rows: seq<Row>)
    requires VersionsOk(rows)
    ensures Blocked(c, target, e, rows) <==>
            || e.versionErr
            || (if c.op == MetadataUpdate then e.lookupErr || RowsOf(rows, c.path, target) == [] || e.insertErr || e.collectErr
                else !(c.op in {New, ContentUpdate} && Skips(c, target)) &&
                     ((c.rec.kind == File && !e.put.Stored?) || e.insertErr || e.collectErr))
    ensures Place(c, target, e, rows) == Broke(Cancelling) <==>
            && !e.versionErr && c.op != MetadataUpdate && !(c.op in {New, ContentUpdate} && Skips(c, target))
            && c.rec.kind == File && e.put == PutCancelled
  {
    NewestIsLast(rows, c.path, target);
    AtVersionIs(rows, c.path, target, |RowsOf(rows, c.path, target)|);
  }

  /**
   * Nothing: a transaction that does not commit leaves the three tables as they were. When it failed or was cancelled it
   * has also taken back every object it stored whose delete succeeded; no earlier object is ever overwritten or removed.
   */
  lemma Nothing(st: State, c: Call, targets: seq<string>, envs: seq<TargetEnv>, tx: TxEnv)
    requires EnvOk(st, c.path, targets, envs) && TablesOk(st)
    ensures var (st', out) := Transact(st, c, targets, envs, tx);
            && (out != Committed ==> st'.db == st.db)
            && TablesOk(st') && st.store.issued <= st'.store.issued
            && (forall k | k in st.store.objects :: k in st'.store.objects && st'.store.objects[k] == st.store.objects[k])
            && ((out == Failed || out == Cancelled) && (forall i | 0 <= i < |envs| :: !envs[i].deleteErr)
                ==> st'.store.objects == st.store.objects)
  {
    if FilesStep(st.db.files, c).Ok? {
      var s := Start(st, c);
      var l := TargetLoop(c, targets, envs, s);
      LoopKeepsDb(c, targets, envs, s);
      assert StoreGrew(st.store, s);
      LoopStore(c, targets, envs, st.store, s);
      UndoRestores(st.store, l);
      LoopDeleteErrs(c, targets, envs, s);
    }
  }

  lemma {:induction false} LoopDeleteErrs(c: Call, targets: seq<string>, envs: seq<TargetEnv>, l: Loop)
    requires |envs| == |targets|
    ensures (forall i | 0 <= i < |envs| :: !envs[i].deleteErr) && (forall p | p in l.processed :: !p.deleteErr) ==>
              forall p | p in TargetLoop(c, targets, envs, l).processed :: !p.deleteErr
    decreases |targets|
  {
    if |targets| > 0 && l.status == Going {
      LoopDeleteErrs(c, targets[1..], envs[1..], TargetStep(c, targets[0], envs[0], l));
    }
  }

  /** The later targets see the same histories after the first iteration. */
  lemma PlaceAfter(c: Call, targets: seq<string>, envs: seq<TargetEnv>, l: Loop)
    requires |envs| == |targets| > 0 && Distinct(targets) && DbOk(l.db)
    requires TargetStep(c, targets[0], envs[0], l).status == Going
    ensures forall j | 0 < j < |targets| ::
              Place(c, targets[j], envs[j], l.db.rows) ==
              Place(c, targets[1..][j - 1], envs[1..][j - 1], TargetStep(c, targets[0], envs[0], l).db.rows)
  {
    var t, e, p := targets[0], envs[0], Place(c, targets[0], envs[0], l.db.rows);
    SettleKeepsDb(c, t, e, l, p);
    forall j | 0 < j < |targets|
      ensures Place(c, targets[j], envs[j], l.db.rows) ==
              Place(c, targets[1..][j - 1], envs[1..][j - 1], TargetStep(c, t, e, l).db.rows)
    {
      HistoryElsewhere(c, t, e, l, p, targets[j]);
      PlaceDependsOnHistory(c, targets[j], envs[j], l.db.rows, TargetStep(c, t, e, l).db.rows);
    }
  }

  /** A loop that ended well met nothing in the way at any target. */
  lemma {:induction false} LoopWentOn(c: Call, targets: seq<string>, envs: seq<TargetEnv>, l: Loop, i: nat)
    requires i < |targets| == |envs| && Distinct(targets) && DbOk(l.db) && TargetLoop(c, targets, envs, l).status == Going
    ensures !Blocked(c, targets[i], envs[i], l.db.rows)
    decreases |targets|
  {
    if i > 0 {
      PlaceAfter(c, targets, envs, l);
      SettleKeepsDb(c, targets[0], envs[0], l, Place(c, targets[0], envs[0], l.db.rows));
      LoopWentOn(c, targets[1..], envs[1..], TargetStep(c, targets[0], envs[0], l), i - 1);
    }
  }

  // ----- what stays in the stores ----------------------------------------------------------------

  predicate SendsObject(c: Call, target: string, e: TargetEnv, rows: seq<Row>) {
    var p := Place(c, target, e, rows);
    p.At? && p.isNew && p.isObject && e.put.Stored?
  }

  /** The loop gets to this target: nothing is in the way at an earlier one. */
  ghost predicate Reached(c: Call, targets: seq<string>, envs: seq<TargetEnv>, rows: seq<Row>, j: int)
    requires |envs| == |targets|
  {
    0 <= j < |targets| && forall i | 0 <= i < j :: !Blocked(c, targets[i], envs[i], rows)
  }

  /** The target is reached and sent an object. */
  ghost predicate Sent(c: Call, targets: seq<string>, envs: seq<TargetEnv>, rows: seq<Row>, j: int)
    requires |envs| == |targets|
  {
    Reached(c, targets, envs, rows, j) && SendsObject(c, targets[j], envs[j], rows)
  }

  function SentKey(c: Call, target: string, e: TargetEnv): Key {
    Key(target, c.path, if e.put.Stored? then e.put.remoteVersion else "")
  }

  /** The entry is on the list because of some target. */
  ghost predicate SentAs(c: Call, targets: seq<string>, envs: seq<TargetEnv>, rows: seq<Row>, p: Placed)
    requires |envs| == |targets|
  {
    exists j :: Sent(c, targets, envs, rows, j) && p == Placed(SentKey(c, targets[j], envs[j]), true, envs[j].deleteErr)
  }

  /** A later target is reached exactly if it is reached from the second one on. */
  lemma ReachedLater(c: Call, targets: seq<string>, envs: seq<TargetEnv>, l: Loop, j: nat)
    requires |envs| == |targets| && Distinct(targets) && DbOk(l.db) && 0 < j < |targets|
    requires l.status == Going && TargetStep(c, targets[0], envs[0], l).status == Going
    ensures Reached(c, targets, envs, l.db.rows, j) <==>
            Reached(c, targets[1..], envs[1..], TargetStep(c, targets[0], envs[0], l).db.rows, j - 1)
    ensures Place(c, targets[j], envs[j], l.db.rows) ==
            Place(c, targets[1..][j - 1], envs[1..][j - 1], TargetStep(c, targets[0], envs[0], l).db.rows)
  {
    var m := TargetStep(c, targets[0], envs[0], l);
    PlaceAfter(c, targets, envs, l);
    assert !Blocked(c, targets[0], envs[0], l.db.rows);
    if Reached(c, targets[1..], envs[1..], m.db.rows, j - 1) {
      forall i | 0 <= i < j ensures !Blocked(c, targets[i], envs[i], l.db.rows) {
        if i > 0 {
          assert !Blocked(c, targets[1..][i - 1], envs[1..][i - 1], m.db.rows);
        }
      }
    }
    if Reached(c, targets, envs, l.db.rows, j) {
      forall i | 0 <= i < j - 1 ensures !Blocked(c, targets[1..][i], envs[1..][i], m.db.rows) {
        assert !Blocked(c, targets[i + 1], envs[i + 1], l.db.rows);
      }
    }
  }

  /** What the first target puts on the list. */
  lemma SentFirst(c: Call, t: string, e: TargetEnv, l: Loop, p: Placed)
    ensures p in TargetStep(c, t, e, l).processed && p.isObject <==>
            (p in l.processed && p.isObject) || (SendsObject(c, t, e, l.db.rows) && p == Placed(SentKey(c, t, e), true, e.deleteErr))
  {
    PlacedObjectIsStored(c, t, e, l.db.rows);
  }

  lemma SentDown(c: Call, targets: seq<string>, envs: seq<TargetEnv>, l: Loop, p: Placed)
    requires |envs| == |targets| > 0 && Distinct(targets) && DbOk(l.db)
    requires l.status == Going && TargetStep(c, targets[0], envs[0], l).status == Going && SentAs(c, targets, envs, l.db.rows, p)
    ensures || (SendsObject(c, targets[0], envs[0], l.db.rows) && p == Placed(SentKey(c, targets[0], envs[0]), true, envs[0].deleteErr))
            || SentAs(c, targets[1..], envs[1..], TargetStep(c, targets[0], envs[0], l).db.rows, p)
  {
    var j :| Sent(c, targets, envs, l.db.rows, j) && p == Placed(SentKey(c, targets[j], envs[j]), true, envs[j].deleteErr);
    if j > 0 {
      ReachedLater(c, targets, envs, l, j);
      assert Sent(c, targets[1..], envs[1..], TargetStep(c, targets[0], envs[0], l).db.rows, j - 1);
    }
  }

  lemma SentUp(c: Call, targets: seq<string>, envs: seq<TargetEnv>, l: Loop, p: Placed)
    requires |envs| == |targets| > 0 && Distinct(targets) && DbOk(l.db)
    requires l.status == Going && TargetStep(c, targets[0], envs[0], l).status == Going
    requires SentAs(c, targets[1..], envs[1..], TargetStep(c, targets[0], envs[0], l).db.rows, p)
    ensures SentAs(c, targets, envs, l.db.rows, p)
  {
    var j :| Sent(c, targets[1..], envs[1..], TargetStep(c, targets[0], envs[0], l).db.rows, j) &&
             p == Placed(SentKey(c, targets[1..][j], envs[1..][j]), true, envs[1..][j].deleteErr);
    ReachedLater(c, targets, envs, l, j + 1);
    assert Sent(c, targets, envs, l.db.rows, j + 1);
  }

  lemma SentHere(c: Call, targets: seq<string>, envs: seq<TargetEnv>, rows: seq<Row>)
    requires |envs| == |targets| > 0 && SendsObject(c, targets[0], envs[0], rows)
    ensures SentAs(c, targets, envs, rows, Placed(SentKey(c, targets[0], envs[0]), true, envs[0].deleteErr))
  {
    assert Sent(c, targets, envs, rows, 0);
  }

  /** The list of placed objects, told target by target from the tables before the transaction. */
  lemma {:induction false} LoopSends(c: Call, targets: seq<string>, envs: seq<TargetEnv>, l: Loop, p: Placed)
    requires |envs| == |targets| && Distinct(targets) && DbOk(l.db) && FreshUuids(l.db.rows, envs) && l.status == Going
    ensures p in TargetLoop(c, targets, envs, l).processed && p.isObject <==>
            (p in l.processed && p.isObject) || SentAs(c, targets, envs, l.db.rows, p)
    decreases |targets|
  {
    if |targets| > 0 {
      var m := TargetStep(c, targets[0], envs[0], l);
      SentFirst(c, targets[0], envs[0], l, p);
      if m.status == Going {
        SettleKeepsDb(c, targets[0], envs[0], l, Place(c, targets[0], envs[0], l.db.rows));
        UuidsStayFresh(c, targets[0], envs, l, Place(c, targets[0], envs[0], l.db.rows));
        LoopSends(c, targets[1..], envs[1..], m, p);
        if SentAs(c, targets, envs, l.db.rows, p) {
          SentDown(c, targets, envs, l, p);
        }
        if SentAs(c, targets[1..], envs[1..], m.db.rows, p) {
          SentUp(c, targets, envs, l, p);
        }
        if SendsObject(c, targets[0], envs[0], l.db.rows) {
          SentHere(c, targets, envs, l.db.rows);
        }
      } else {
        SentOnlyFirst(c, targets, envs, l, p);
      }
    }
  }

  /** Nothing is sent beyond a target at which the loop ends. */
  lemma SentOnlyFirst(c: Call, targets: seq<string>, envs: seq<TargetEnv>, l: Loop, p: Placed)
    requires |envs| == |targets| > 0 && l.status == Going && FreshUuids(l.db.rows, envs)
    requires TargetStep(c, targets[0], envs[0], l).status != Going
    ensures SentAs(c, targets, envs, l.db.rows, p) <==>
            SendsObject(c, targets[0], envs[0], l.db.rows) && p == Placed(SentKey(c, targets[0], envs[0]), true, envs[0].deleteErr)
  {
    assert Blocked(c, targets[0], envs[0], l.db.rows);
    assert Sent(c, targets, envs, l.db.rows, 0) <==> SendsObject(c, targets[0], envs[0], l.db.rows);
  }

  /** The objects of the targets that were sent one and whose compensating delete fails. */
  ghost function LeftBehind(c: Call, targets: seq<string>, envs: seq<TargetEnv>, rows: seq<Row>): set<Key>
    requires |envs| == |targets|
  {
    set j | 0 <= j < |targets| && Sent(c, targets, envs, rows, j) && envs[j].deleteErr :: SentKey(c, targets[j], envs[j])
  }

  /** The compensating deletes remove an object that was sent exactly if its target's delete succeeds. */
  lemma {:induction false} UndoLeaves(st: State, c: Call, targets: seq<string>, envs: seq<TargetEnv>, k: Key)
    requires EnvOk(st, c.path, targets, envs) && TablesOk(st) && FilesStep(st.db.files, c).Ok?
    ensures var l := TargetLoop(c, targets, envs, Start(st, c));
            k in Undo(l.store, l.processed).objects <==> k in st.store.objects || k in LeftBehind(c, targets, envs, st.db.rows)
  {
    var s := Start(st, c);
    var l := TargetLoop(c, targets, envs, s);
    assert StoreGrew(st.store, s);
    LoopStore(c, targets, envs, st.store, s);
    UndoRemoves(l.store, l.processed);
    LoopSends(c, targets, envs, s, Placed(k, true, true));
    LoopSends(c, targets, envs, s, Placed(k, true, false));
    assert k in PlacedKeys(l.processed) <==> Placed(k, true, true) in l.processed || Placed(k, true, false) in l.processed;
    assert !(SentAs(c, targets, envs, st.db.rows, Placed(k, true, true)) && SentAs(c, targets, envs, st.db.rows, Placed(k, true, false)));
    assert k in LeftBehind(c, targets, envs, st.db.rows) <==> SentAs(c, targets, envs, st.db.rows, Placed(k, true, true));
  }

  /**
   * After a failure or a cancellation the stores hold what they held and the objects whose compensating delete failed:
   * they are as they were exactly if the transaction never came to its targets, or every target that it reached and sent
   * an object also lets it be deleted.
   */
  lemma {:induction false} RolledBackIff(st: State, c: Call, targets: seq<string>, envs: seq<TargetEnv>, tx: TxEnv)
    requires EnvOk(st, c.path, targets, envs) && TablesOk(st)
    requires Transact(st, c, targets, envs, tx).1 in {Failed, Ledger.Outcome.Cancelled}
    ensures var before, after := st.store.objects, Transact(st, c, targets, envs, tx).0.store.objects;
            var early := tx.beginErr || tx.filesErr || FilesStep(st.db.files, c).Err?;
            && (forall k | k in before :: k in after && after[k] == before[k])
            && after.Keys == before.Keys + (if early then {} else LeftBehind(c, targets, envs, st.db.rows))
            && (after == before <==> early || forall j :: Sent(c, targets, envs, st.db.rows, j) ==> !envs[j].deleteErr)
  {
    if !tx.beginErr && !tx.filesErr && FilesStep(st.db.files, c).Ok? {
      var before, after := st.store.objects, Transact(st, c, targets, envs, tx).0.store.objects;
      Nothing(st, c, targets, envs, tx);
      forall k ensures k in after <==> k in before || k in LeftBehind(c, targets, envs, st.db.rows) {
        UndoLeaves(st, c, targets, envs, k);
      }
      forall j | Sent(c, targets, envs, st.db.rows, j) && envs[j].deleteErr
        ensures SentKey(c, targets[j], envs[j]) in after && SentKey(c, targets[j], envs[j]) !in before
      {
        PlacedObjectIsStored(c, targets[j], envs[j], st.db.rows);
        assert SentKey(c, targets[j], envs[j]) in LeftBehind(c, targets, envs, st.db.rows);
      }
    }
  }

  /**
   * In the S3 and GCP stores an upload reports a cancellation only when the job's context is cancelled, and the
   * compensating deletes of all targets use that same context.
   */
  ghost predicate OneContext(envs: seq<TargetEnv>) {
    forall i, j | 0 <= i < |envs| && 0 <= j < |envs| :: envs[i].put == PutCancelled ==> envs[j].deleteErr
  }

  /** The keys of the objects that the first `k` targets are sent. */
  function SentKeys(c: Call, targets: seq<string>, envs: seq<TargetEnv>, rows: seq<Row>, k: nat): set<Key>
    requires k <= |targets| == |envs|
  {
    set j | 0 <= j < k && SendsObject(c, targets[j], envs[j], rows) :: SentKey(c, targets[j], envs[j])
  }

  /** The loop is cancelled at the one target it reaches and does not get past. */
  lemma {:induction false} LoopCancelled(c: Call, targets: seq<string>, envs: seq<TargetEnv>, l: Loop) returns (k: nat)
    requires |envs| == |targets| && Distinct(targets) && DbOk(l.db) && l.status == Going
    requires TargetLoop(c, targets, envs, l).status == Cancelling
    ensures Reached(c, targets, envs, l.db.rows, k) && Place(c, targets[k], envs[k], l.db.rows) == Broke(Cancelling)
    decreases |targets|
  {
    var m := TargetStep(c, targets[0], envs[0], l);
    if m.status != Going {
      k := 0;
    } else {
      SettleKeepsDb(c, targets[0], envs[0], l, Place(c, targets[0], envs[0], l.db.rows));
      var rest := LoopCancelled(c, targets[1..], envs[1..], m);
      k := rest + 1;
      ReachedLater(c, targets, envs, l, k);
    }
  }

  /**
   * After a cancelled upload the compensating deletes meet the cancelled context too. So the store is as it was exactly
   * when none of the targets before the cancelled one was sent an object; otherwise each of those objects stays behind.
   */
  lemma {:induction false} CancelOrphans(st: State, c: Call, targets: seq<string>, envs: seq<TargetEnv>, tx: TxEnv) returns (k: nat)
    requires EnvOk(st, c.path, targets, envs) && TablesOk(st) && OneContext(envs)
    requires Transact(st, c, targets, envs, tx).1 == Ledger.Outcome.Cancelled
    ensures Reached(c, targets, envs, st.db.rows, k) && envs[k].put == PutCancelled
    ensures var st' := Transact(st, c, targets, envs, tx).0;
            && st'.db == st.db
            && st'.store.objects.Keys == st.store.objects.Keys + SentKeys(c, targets, envs, st.db.rows, k)
            && (st'.store.objects == st.store.objects <==> forall j | 0 <= j < k :: !SendsObject(c, targets[j], envs[j], st.db.rows))
  {
    k := LoopCancelled(c, targets, envs, Start(st, c));
    assert envs[k].put == PutCancelled;
    RolledBackIff(st, c, targets, envs, tx);
    AllLeftBehind(c, targets, envs, st.db.rows, k);
  }

  lemma AllLeftBehind(c: Call, targets: seq<string>, envs: seq<TargetEnv>, rows: seq<Row>, k: nat)
    requires |envs| == |targets| && Reached(c, targets, envs, rows, k) && OneContext(envs)
    requires envs[k].put == PutCancelled && Place(c, targets[k], envs[k], rows).Broke?
    ensures LeftBehind(c, targets, envs, rows) == SentKeys(c, targets, envs, rows, k)
    ensures (forall j :: Sent(c, targets, envs, rows, j) ==> !envs[j].deleteErr) <==>
            forall j | 0 <= j < k :: !SendsObject(c, targets[j], envs[j], rows)
  {
    SentBefore(c, targets, envs, rows, k);
  }

  lemma SentBefore(c: Call, targets: seq<string>, envs: seq<TargetEnv>, rows: seq<Row>, k: nat)
    requires |envs| == |targets| && Reached(c, targets, envs, rows, k) && Place(c, targets[k], envs[k], rows).Broke?
    ensures forall j :: Sent(c, targets, envs, rows, j) <==> 0 <= j < k && SendsObject(c, targets[j], envs[j], rows)
  {
    assert Blocked(c, targets[k], envs[k], rows);
    forall j | 0 <= j < k ensures Reached(c, targets, envs, rows, j) {
    }
  }

  /** The row that a committed transaction adds for a target, described by the target's earlier rows. */
  ghost predicate RowFor(row: Row, c: Call, target: string, earlier: seq<Row>) {
    && row.path == c.path && row.target == target && row.job == c.job && row.props == c.rec
    && row.deleteMarker == (c.op == Delete)
    && row.version == |earlier| + 1
    && (c.op == MetadataUpdate ==>
          earlier != [] && row.remoteVersion == earlier[|earlier| - 1].remoteVersion && row.bytes == earlier[|earlier| - 1].bytes)
    && (c.op in {New, ContentUpdate} && c.rec.kind == File ==> row.bytes == c.content)
    && (c.op != MetadataUpdate && c.rec.kind != File ==> row.remoteVersion == Decimal(row.version))
  }

  /** The object a committed content upload, or delete marker, has put behind its row. */
  ghost predicate Stores(store: Store, row: Row, c: Call) {
    c.op != MetadataUpdate && c.rec.kind == File ==>
      var k := Key(row.target, row.path, row.remoteVersion);
      k in store.objects && store.objects[k] == if c.op == Delete then Marker else Blob(c.content, c.cfg.encrypt)
  }

  lemma {:induction false} PlacedRow(c: Call, target: string, e: TargetEnv, rows: seq<Row>)
    requires VersionsOk(rows) && Place(c, target, e, rows).At?
    ensures RowFor(NewRow(c, target, e, rows, Place(c, target, e, rows)), c, target, RowsOf(rows, c.path, target))
  {
    NewestIsLast(rows, c.path, target);
    AtVersionIs(rows, c.path, target, |RowsOf(rows, c.path, target)|);
  }

  lemma PlaceKinds(c: Call, target: string, e: TargetEnv, rows: seq<Row>)
    requires !Place(c, target, e, rows).Broke?
    ensures var p := Place(c, target, e, rows);
            && (p.At? <==> !(c.op in {New, ContentUpdate} && Skips(c, target)))
            && (p.At? && c.op != MetadataUpdate ==> p.isNew && p.isObject == (c.rec.kind == File))
            && (p.At? && c.op in {New, ContentUpdate} && c.rec.kind == File ==> p.bytes == c.content)
  {}

  lemma {:induction false} AllAt(st: State, c: Call, targets: seq<string>, envs: seq<TargetEnv>, tx: TxEnv, i: nat)
    requires EnvOk(st, c.path, targets, envs) && TablesOk(st) && i < |targets|
    requires Transact(st, c, targets, envs, tx).1 == Committed
    ensures var gain := Gain(c, st.db.rows, targets, envs, c.path, targets[i]);
            && |gain| == (if c.op in {New, ContentUpdate} && Skips(c, targets[i]) then 0 else 1)
            && (gain != [] ==> && RowFor(gain[0], c, targets[i], RowsOf(st.db.rows, c.path, targets[i]))
                               && Stores(Transact(st, c, targets, envs, tx).0.store, gain[0], c))
  {
    CommitsIff(st, c, targets, envs, tx);
    assert !Blocked(c, targets[i], envs[i], st.db.rows);
    GainAt(c, st.db.rows, targets, envs, i);
    PlaceKinds(c, targets[i], envs[i], st.db.rows);
    if Place(c, targets[i], envs[i], st.db.rows).At? {
      PlacedRow(c, targets[i], envs[i], st.db.rows);
      LoopPlaced(c, targets, envs, st.store, Start(st, c), i);
    }
  }

  lemma {:induction false} CommitShows(st: State, c: Call, targets: seq<string>, envs: seq<TargetEnv>, tx: TxEnv, job: string, path: string,
                    target: string)
    requires |envs| == |targets| && Distinct(targets) && DbOk(st.db)
    requires Transact(st, c, targets, envs, tx).1 == Committed
    ensures var st' := Transact(st, c, targets, envs, tx).0;
            && FilesStep(st.db.files, c) == Ok(st'.db.files)
            && Shows(st.db, st'.db, c, Gain(c, st.db.rows, targets, envs, path, target), job, path, target)
  {
    LoopKeepsDb(c, targets, envs, Start(st, c));
    LoopShows(c, targets, envs, Start(st, c), job, path, target);
  }

  lemma {:induction false} NoGain(c: Call, rows: seq<Row>, targets: seq<string>, envs: seq<TargetEnv>, path: string, target: string)
    requires |envs| == |targets| && !(path == c.path && target in targets)
    ensures Gain(c, rows, targets, envs, path, target) == []
  {
    if path == c.path {
      NoGainElsewhere(c, rows, targets, envs, path, target);
    }
  }

  /**
   * All: a committed transaction has changed `files` as asked and has added, on every target it did not skip, exactly one
   * row and one collection entry for it, with its object in the store. Every other path, target and job is as it was.
   */
  lemma {:induction false} All(st: State, c: Call, targets: seq<string>, envs: seq<TargetEnv>, tx: TxEnv, job: string, path: string, target: string)
    requires EnvOk(st, c.path, targets, envs) && TablesOk(st)
    requires Transact(st, c, targets, envs, tx).1 == Committed
    ensures var st' := Transact(st, c, targets, envs, tx).0;
            var gain := Gain(c, st.db.rows, targets, envs, path, target);
            && FilesStep(st.db.files, c) == Ok(st'.db.files)
            && Shows(st.db, st'.db, c, gain, job, path, target)
            && |gain| == (if path == c.path && target in targets && !(c.op in {New, ContentUpdate} && Skips(c, target)) then 1 else 0)
            && (gain != [] ==> RowFor(gain[0], c, target, RowsOf(st.db.rows, path, target)) && Stores(st'.store, gain[0], c))
  {
    CommitShows(st, c, targets, envs, tx, job, path, target);
    if path == c.path && target in targets {
      var i :| 0 <= i < |targets| && targets[i] == target;
      AllAt(st, c, targets, envs, tx, i);
    } else {
      NoGain(c, st.db.rows, targets, envs, path, target);
    }
  }

  /** The target is due an object: its content or a delete marker of it is to be stored, and it is not passed over. */
  predicate Due(c: Call, target: string) {
    c.op != MetadataUpdate && c.rec.kind == File && !(c.op in {New, ContentUpdate} && Skips(c, target))
  }

  /** A loop that runs to its end has sent an object to exactly the targets that are due one. */
  lemma {:induction false} DueIsSent(c: Call, targets: seq<string>, envs: seq<TargetEnv>, l: Loop, i: nat)
    requires |envs| == |targets| && Distinct(targets) && DbOk(l.db) && FreshUuids(l.db.rows, envs) && l.status == Going
    requires TargetLoop(c, targets, envs, l).status == Going && i < |targets|
    ensures Sent(c, targets, envs, l.db.rows, i) <==> Due(c, targets[i])
    ensures Due(c, targets[i]) ==> envs[i].put.Stored?
  {
    LoopGoesOn(c, targets, envs, l);
    PlaceKinds(c, targets[i], envs[i], l.db.rows);
    PlacedObjectIsStored(c, targets[i], envs[i], l.db.rows);
  }

  lemma {:induction false} DueIsPlaced(c: Call, targets: seq<string>, envs: seq<TargetEnv>, l: Loop, i: nat)
    requires |envs| == |targets| && Distinct(targets) && DbOk(l.db) && FreshUuids(l.db.rows, envs) && l.status == Going
    requires TargetLoop(c, targets, envs, l).status == Going && i < |targets| && Due(c, targets[i])
    ensures envs[i].put.Stored? && SentKey(c, targets[i], envs[i]) in PlacedKeys(TargetLoop(c, targets, envs, l).processed)
  {
    var p := Placed(SentKey(c, targets[i], envs[i]), true, envs[i].deleteErr);
    DueIsSent(c, targets, envs, l, i);
    LoopSends(c, targets, envs, l, p);
    assert p in TargetLoop(c, targets, envs, l).processed;
  }

  lemma {:induction false} PlacedIsDue(c: Call, targets: seq<string>, envs: seq<TargetEnv>, l: Loop)
    requires |envs| == |targets| && Distinct(targets) && DbOk(l.db) && FreshUuids(l.db.rows, envs) && l.status == Going && l.processed == []
    requires TargetLoop(c, targets, envs, l).status == Going && forall t | t in targets :: !Due(c, t)
    ensures PlacedKeys(TargetLoop(c, targets, envs, l).processed) == {}
  {
    forall i | 0 <= i < |targets| ensures !Sent(c, targets, envs, l.db.rows, i) {
      DueIsSent(c, targets, envs, l, i);
    }
    forall p | p in TargetLoop(c, targets, envs, l).processed ensures !p.isObject {
      LoopSends(c, targets, envs, l, p);
    }
  }

  /**
   * A failing commit is the exception to "nothing": it returns without compensating deletes, so every object it sent
   * stays behind although no table mentions it. The stores are as they were exactly if only attributes changed, the path
   * is no file, or every target is passed over.
   */
  lemma {:induction false} CommitFailureOrphans(st: State, c: Call, targets: seq<string>, envs: seq<TargetEnv>, tx: TxEnv)
    requires EnvOk(st, c.path, targets, envs) && TablesOk(st)
    requires Transact(st, c, targets, envs, tx).1 == CommitFailed
    ensures var st' := Transact(st, c, targets, envs, tx).0;
            && st'.db == st.db
            && (forall i | 0 <= i < |targets| && Due(c, targets[i]) ::
                  envs[i].put.Stored? && SentKey(c, targets[i], envs[i]) in st'.store.objects && SentKey(c, targets[i], envs[i]) !in st.store.objects)
            && (st'.store.objects == st.store.objects <==>
                c.op == MetadataUpdate || c.rec.kind != File || forall t | t in targets :: c.op in {New, ContentUpdate} && Skips(c, t))
  {
    var s := Start(st, c);
    assert StoreGrew(st.store, s);
    LoopStore(c, targets, envs, st.store, s);
    forall i | 0 <= i < |targets| && Due(c, targets[i])
      ensures envs[i].put.Stored? && SentKey(c, targets[i], envs[i]) in PlacedKeys(TargetLoop(c, targets, envs, s).processed)
    {
      DueIsPlaced(c, targets, envs, s, i);
    }
    if forall t | t in targets :: !Due(c, t) {
      PlacedIsDue(c, targets, envs, s);
    } else {
      var i :| 0 <= i < |targets| && Due(c, targets[i]);
    }
  }

  /**
   * Which targets are passed over, told from path, size and limit: all of them if the reserved name is a component of the
   * path, and for a file those whose limit is below the size it will have on the wire.
   */
  lemma {:induction false} SkipsIff(c: Call, target: string)
    ensures Skips(c, target) <==>
            || (exists a :: ReservedAt(c.path, a))
            || (c.rec.kind == File && (if c.cfg.encrypt then EncryptedSize64(c.rec.size) else c.rec.size) > c.cfg.limit(target, c.cfg.encrypt))
  {
    ReservedIff(c.path);
  }
}
