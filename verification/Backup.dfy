/** The backup's own methods, which change the tables and the stores step by step (backup/backup.go). */
module Backup {
  import opened Common
  import opened Records
  import opened Ledger
  import opened LedgerEffects
  import opened Sweep

  class Backup {
    var files: map<string, Props>
    var rows: seq<Row>
    var coll: seq<Entry>
    var objects: map<Key, Blob>
    var issued: set<Key>
    /** History: the paths that sweeps have handed to `markDeleted`. */
    ghost var offered: set<string>

    ghost function Now(): State
      reads this
    {
      State(Db(files, rows, coll), Store(objects, issued))
    }

    constructor ()
      ensures Now() == State(Db(map[], [], []), Store(map[], {})) && offered == {}
    {
      files, rows, coll, objects, issued, offered := map[], [], [], map[], {}, {};
    }

    /** A PUT, or a delete marker, that the store accepted. */
    method Place(c: Call, key: Key, bytes: Bytes)
      modifies this`objects, this`issued
      ensures objects == old(objects)[key := if c.op == Delete then Marker else Blob(bytes, c.cfg.encrypt)]
      ensures issued == old(issued) + {key}
    {
      objects := objects[key := if c.op == Delete then Marker else Blob(bytes, c.cfg.encrypt)];
      issued := issued + {key};
    }

    /** The compensating deletes after a rollback. */
    method TakeBack(processed: seq<Placed>)
      modifies this`objects
      ensures Now() == old(Now()).(store := Undo(old(Now()).store, processed))
    {
      var k := 0;
      while k < |processed|
        invariant 0 <= k <= |processed|
        invariant Undo(Store(objects, issued), processed[k..]) == Undo(old(Now()).store, processed)
      {
        if processed[k].isObject && !processed[k].deleteErr {
          objects := objects - {processed[k].key};
        }
        k := k + 1;
      }
    }

    /** `UploadAndUpdateDB`, and the transaction of `markDeleted`. */
    method UploadAndUpdate(c: Call, targets: seq<string>, envs: seq<TargetEnv>, tx: TxEnv) returns (out: Outcome)
      requires |envs| == |targets|
      modifies this`files, this`rows, this`coll, this`objects, this`issued
      ensures (Now(), out) == Transact(old(Now()), c, targets, envs, tx)
    {
      if tx.beginErr {
        return Failed;
      }
      // the open transaction
      var newFiles, newRows, newColl := files, rows, coll;
      var changed := FilesStep(files, c);
      if tx.filesErr || changed.Err? {
        return Failed;
      }
      newFiles := changed.value;
      var processed: seq<Placed> := [];
      var status := Going;
      var i := 0;
      ghost var start := Loop(Now().db.(files := newFiles), Now().store, [], Going);
      while i < |targets| && status == Going
        invariant 0 <= i <= |targets|
        invariant files == old(files) && rows == old(rows) && coll == old(coll)
        invariant TargetLoop(c, targets, envs, start) ==
                  TargetLoop(c, targets[i..], envs[i..], Loop(Db(newFiles, newRows, newColl), Store(objects, issued), processed, status))
      {
        var t, e := targets[i], envs[i];
        ghost var before := Loop(Db(newFiles, newRows, newColl), Store(objects, issued), processed, status);
        var version := NextVersion(newRows, c.path, t);
        var remoteVersion, bytes := "", [];
        var passed := false;
        if e.versionErr {
          status := Failing;
        } else if c.op == MetadataUpdate {
          // nothing is sent: the remote version of the previous version is used again
          var prev := if version > 1 && !e.lookupErr then AtVersion(newRows, c.path, t, version - 1) else None;
          if prev.Some? {
            remoteVersion, bytes := prev.value.remoteVersion, prev.value.bytes;
          } else {
            status := Failing;
          }
        } else if c.op != Delete && Skips(c, t) {
          passed := true;
        } else if c.rec.kind != File {
          remoteVersion := Decimal(version);
          processed := processed + [Placed(Key(t, c.path, remoteVersion), false, e.deleteErr)];
        } else {
          match e.put
          case PutFailed => status := Failing;
          case PutCancelled => status := Cancelling;
          case Stored(v) =>
            remoteVersion := v;
            if c.op != Delete {
              bytes := c.content;
            }
            Place(c, Key(t, c.path, v), bytes);
            processed := processed + [Placed(Key(t, c.path, v), true, e.deleteErr)];
        }
        if status == Going && !passed {
          if e.insertErr || Find(newRows, e.uuid).Some? {
            status := Failing;
          } else {
            newRows := newRows + [Row(e.uuid, c.path, t, c.job, c.op == Delete, version, remoteVersion, c.rec, bytes)];
            if e.collectErr {
              status := Failing;
            } else {
              newColl := newColl + [Entry(e.uuid, c.job, t)];
            }
          }
        }
        assert Loop(Db(newFiles, newRows, newColl), Store(objects, issued), processed, status) == TargetStep(c, t, e, before);
        i := i + 1;
      }
      if status != Going {
        TakeBack(processed);
        return if status == Cancelling then Cancelled else Failed;
      }
      if tx.commitErr {
        return CommitFailed;
      }
      files, rows, coll := newFiles, newRows, newColl;
      return Committed;
    }

    /** `Do` */
    method Do(path: string, disk: Disk, cfg: Config, targets: seq<string>, job: string, e: DoEnv) returns (out: DoOutcome)
      requires |e.targets| == |targets|
      modifies this`files, this`rows, this`coll, this`objects, this`issued
      ensures (Now(), out) == DoPath(old(Now()), path, disk, cfg, targets, job, e)
    {
      if e.cancelled {
        return Stopped;
      }
      var call := Decide(State(Db(files, rows, coll), Store(objects, issued)), path, disk, cfg, job, e);
      if call.Err? {
        return Refused;
      }
      if call.value.Some? {
        var done := UploadAndUpdate(call.value.value, targets, e.targets, e.tx);
        return Backed(done);
      }
      var complete := true;
      var i := 0;
      while i < |targets|
        invariant 0 <= i <= |targets|
        invariant files == old(files) && rows == old(rows) && objects == old(objects) && issued == old(issued)
        invariant var (end, rest) := Collect(Now(), path, job, targets[i..], e.targets[i..]);
                  Collect(old(Now()), path, job, targets, e.targets) == (end, complete && rest)
      {
        var r := Newest(rows, path, targets[i], true);
        if r.None? || e.targets[i].lookupErr || e.targets[i].collectErr {
          complete := false;
        } else {
          coll := coll + [Entry(r.value.uuid, job, targets[i])];
        }
        i := i + 1;
      }
      return UpToDate(complete);
    }

    /** `markDeleted`, with the look-up that comes before it. */
    method MarkDeleted(path: string, job: Job, o: Offer) returns (out: MarkOutcome)
      modifies this
      ensures (Now(), out) == Mark(old(Now()), path, job, o)
      ensures offered == if LooksUp(old(Now()), path, o) then old(offered) + {path} else old(offered)
    {
      var found := FetchRecord(State(Db(files, rows, coll), Store(objects, issued)), path, o.queryErr);
      if found.Err? || found.value.None? {
        return NotFound;
      }
      offered := offered + {path};
      if !o.excluded && o.included && o.onDisk {
        return Kept;
      }
      var c := Call(Delete, path, found.value.value, [], job.id, job.cfg);
      var done := UploadAndUpdate(c, job.targets, EnvsFor(o, job.targets), o.tx);
      return Tried(done);
    }

    /** `FindDeletedItemsStmt`: up to `max` candidates, in no particular order. */
    method FindDeleted(job: Job, max: nat) returns (batch: seq<string>)
      requires job.targets != []
      ensures Unique(batch) && forall i | 0 <= i < |batch| :: batch[i] in Candidates(Now().db, job)
      ensures |batch| == max || (|batch| < max && forall p | p in Candidates(Now().db, job) :: p in batch)
    {
      var rest := set p | p in files && Held(Db(files, rows, coll), job.id, p, job.targets[0]) == [] && p !in job.failed;
      batch := [];
      while |batch| < max && rest != {}
        invariant |batch| <= max && Unique(batch)
        invariant forall i | 0 <= i < |batch| :: batch[i] !in rest && batch[i] in Candidates(Now().db, job)
        invariant forall p | p in Candidates(Now().db, job) :: p in batch || p in rest
        invariant rest <= Candidates(Now().db, job)
        decreases rest
      {
        var p :| p in rest;
        batch := batch + [p];
        rest := rest - {p};
      }
    }

    /** The loop over one batch. */
    method MarkBatch(batch: seq<string>, n: nat, job: Job, env: Environment) returns (cancelled: bool)
      modifies this
      ensures BatchResult(Now(), offered, cancelled) == Batch(old(Now()), old(offered), batch, n, job, env)
    {
      var i := 0;
      while i < |batch|
        invariant 0 <= i <= |batch|
        invariant Batch(Now(), offered, batch[i..], n + i, job, env) == Batch(old(Now()), old(offered), batch, n, job, env)
      {
        assert batch[i..] == [batch[i]] + batch[i + 1..];
        var o := env(n + i, State(Db(files, rows, coll), Store(objects, issued)), batch[i]);
        if o.cancelled {
          return true;
        }
        ghost var before := Now();
        var out := MarkDeleted(batch[i], job, o);
        assert (Now(), out) == Mark(before, batch[i], job, o);
        if out == Tried(Cancelled) {
          return true;
        }
        i := i + 1;
      }
      return false;
    }

    /**
     * `FindAndMarkDeleted`. With fewer than `max` paths that may stay the recursion ends. No path that is not a candidate is
     * touched, and only candidates whose record is not rejected are offered to `markDeleted`. When it ends without
     * cancellation or failed query, a candidate was offered exactly if its look-ups work, and every candidate that may not
     * stay is gone from `files` and has a delete marker, in the job's collection too, on every target.
     */
    method FindAndMarkDeleted(job: Job, max: nat, env: Environment, queryErr: nat -> bool, n: nat, ghost stay: set<string>)
      returns (cancelled: bool, complete: bool)
      requires job.targets != [] && Distinct(job.targets) && DbOk(Now().db)
      requires OnlyStay(stay, files, job, env) && |stay| < max
      modifies this
      ensures SweepOk(old(Now()), Now(), old(offered), offered, old(Candidates(Now().db, job)), job, env, stay, !cancelled && complete)
      ensures forall p | p in old(files) && (p in job.failed || Held(old(Now()).db, job.id, p, job.targets[0]) != []) ::
                p in files && files[p] == old(files)[p]
      decreases |Candidates(Now().db, job)|
    {
      if queryErr(n) {
        return false, false;
      }
      ghost var st0, off0 := Now(), offered;
      var batch := FindDeleted(job, max);
      BatchSweepOk(st0, off0, batch, n, job, env, stay, files);
      cancelled := MarkBatch(batch, n, job, env);
      complete := true;
      if cancelled || |batch| < max {
        Widen(st0, Now(), off0, offered, Elements(batch), job, env, stay, !cancelled);
        return;
      }
      ghost var st1, off1 := Now(), offered;
      ghost var gone := SomeMustGo(batch, stay);
      assert gone in Candidates(st0.db, job) && gone !in Candidates(st1.db, job);
      CardMonotone(Candidates(st1.db, job), Candidates(st0.db, job) - {gone});
      cancelled, complete := FindAndMarkDeleted(job, max, env, queryErr, n + |batch|, stay);
      SweepsCompose(st0, st1, Now(), off0, off1, offered, Elements(batch), job, env, stay, !cancelled && complete);
    }
  }
}
