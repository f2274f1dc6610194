/** The deletion sweep that closes a job: `FindAndMarkDeleted` and `markDeleted` (backup/backup.go:858-1112). */
module Sweep {
  import opened Records
  import opened Ledger
  import opened LedgerEffects
  import opened LedgerTransactions

  /** What one offer of a path to `markDeleted` meets. */
  datatype Offer = Offer(cancelled: bool, queryErr: bool, excluded: bool, included: bool, onDisk: bool, tx: TxEnv,
                         target: string -> TargetEnv)

  /** The environment of a sweep may choose each offer in view of the time and of the whole state. */
  type Environment = (nat, State, string) -> Offer

  /** The job that sweeps, and the paths it failed to back up. */
  datatype Job = Job(id: string, cfg: Config, targets: seq<string>, failed: set<string>)

  function EnvsFor(o: Offer, targets: seq<string>): (envs: seq<TargetEnv>)
    ensures |envs| == |targets|
  {
    seq(|targets|, i requires 0 <= i < |targets| => o.target(targets[i]))
  }

  /** `FindDeletedItemsStmt`: paths on record that this job neither collected, on its first target, nor failed to back up. */
  ghost function Candidates(db: Db, job: Job): set<string>
    requires job.targets != []
  {
    set p | p in db.files && Held(db, job.id, p, job.targets[0]) == [] && p !in job.failed
  }

  datatype MarkOutcome = NotFound | Kept | Tried(Outcome)

  /** One path of the batch: look it up, keep it when it is still wanted and on disk, else place delete markers. */
  function Mark(st: State, path: string, job: Job, o: Offer): (State, MarkOutcome) {
    var found := FetchRecord(st, path, o.queryErr);
    if found.Err? || found.value.None? then (st, NotFound)
    else if !o.excluded && o.included && o.onDisk then (st, Kept)
    else
      var c := Call(Delete, path, found.value.value, [], job.id, job.cfg);
      var (st', out) := Transact(st, c, job.targets, EnvsFor(o, job.targets), o.tx);
      (st', Tried(out))
  }

  /** The look-up that comes before `markDeleted` finds the path. */
  predicate LooksUp(st: State, path: string, o: Offer) {
    path in st.db.files && !o.queryErr && ReadableBack(st.db.files[path])
  }

  /** `offered` is history: the paths handed to `markDeleted`. */
  datatype BatchResult = BatchResult(st: State, offered: set<string>, cancelled: bool)

  /** The loop over one batch, which starts at time `n`. */
  function Batch(st: State, offered: set<string>, batch: seq<string>, n: nat, job: Job, env: Environment): BatchResult
    decreases |batch|
  {
    if |batch| == 0 then BatchResult(st, offered, false)
    else
      var o := env(n, st, batch[0]);
      if o.cancelled then BatchResult(st, offered, true)
      else
        var (st', out) := Mark(st, batch[0], job, o);
        var offered' := if LooksUp(st, batch[0], o) then offered + {batch[0]} else offered;
        if out == Tried(Cancelled) then BatchResult(st', offered', true)
        else Batch(st', offered', batch[1..], n + 1, job, env)
  }

  // ----- what a batch does -----------------------------------------------------------------------

  /** A path that is offered can only leave the candidates, and all others stay as they were. */
  lemma MarkShrinks(st: State, path: string, job: Job, o: Offer)
    requires job.targets != [] && Distinct(job.targets) && DbOk(st.db) && path in Candidates(st.db, job)
    ensures var (st', out) := Mark(st, path, job, o);
            && DbOk(st'.db)
            && Candidates(st'.db, job) == Candidates(st.db, job) - (if out == Tried(Committed) then {path} else {})
            && st'.db.files == st.db.files - (if out == Tried(Committed) then {path} else {})
  {
    var (st', out) := Mark(st, path, job, o);
    if out == Tried(Committed) {
      var c := Call(Delete, path, st.db.files[path], [], job.id, job.cfg);
      var envs := EnvsFor(o, job.targets);
      LoopKeepsDb(c, job.targets, envs, Start(st, c));
      forall p ensures p in Candidates(st'.db, job) <==> p in Candidates(st.db, job) - {path} {
        CommitShows(st, c, job.targets, envs, o.tx, job.id, p, job.targets[0]);
        if p != path {
          NoGain(c, st.db.rows, job.targets, envs, p, job.targets[0]);
        }
      }
    } else {
      assert st'.db == st.db;
    }
  }

  /** Nothing stands in the way of placing a delete marker on a target. */
  predicate Free(st: State, path: string, o: Offer, target: string)
    requires path in st.db.files
  {
    var e := o.target(target);
    && !e.versionErr && !e.insertErr && !e.collectErr
    && (st.db.files[path].kind == File ==> e.put.Stored?)
  }

  /**
   * A path on record is removed exactly when it is excluded, no longer included or gone from disk, and nothing fails or
   * is cancelled; a path that is wanted and still there is never removed.
   */
  lemma MarkRemovesIff(st: State, path: string, job: Job, o: Offer)
    requires TablesOk(st) && path in st.db.files && EnvOk(st, path, job.targets, EnvsFor(o, job.targets))
    ensures path !in Mark(st, path, job, o).0.db.files <==>
            && (o.excluded || !o.included || !o.onDisk)
            && !o.queryErr && ReadableBack(st.db.files[path])
            && !o.tx.beginErr && !o.tx.filesErr && !o.tx.commitErr
            && forall t | t in job.targets :: Free(st, path, o, t)
  {
    var c := Call(Delete, path, st.db.files[path], [], job.id, job.cfg);
    var envs := EnvsFor(o, job.targets);
    CommitsIff(st, c, job.targets, envs, o.tx);
    Nothing(st, c, job.targets, envs, o.tx);
    assert forall i | 0 <= i < |job.targets| :: Blocked(c, job.targets[i], envs[i], st.db.rows) <==> !Free(st, path, o, job.targets[i]);
    if Transact(st, c, job.targets, envs, o.tx).1 == Committed {
      CommitShows(st, c, job.targets, envs, o.tx, "", "", "");
    }
  }

  ghost predicate Unique(batch: seq<string>) {
    forall i, j | 0 <= i < j < |batch| :: batch[i] != batch[j]
  }

  /** The paths that may stay: every other path on record, whenever it is offered, is marked as deleted. */
  ghost predicate OnlyStay(stay: set<string>, files: map<string, Props>, job: Job, env: Environment) {
    forall n, st: State, p | p !in stay && DbOk(st.db) && p in files && p in st.db.files && st.db.files[p] == files[p] ::
      env(n, st, p).cancelled || Mark(st, p, job, env(n, st, p)).1 in {Tried(Committed), Tried(Cancelled)}
  }

  ghost predicate Within(a: map<string, Props>, b: map<string, Props>) {
    forall p | p in a :: p in b && a[p] == b[p]
  }

  /** After its first path, the rest of a batch is a batch. */
  lemma TailOk(st: State, batch: seq<string>, job: Job, o: Offer)
    requires job.targets != [] && Distinct(job.targets) && DbOk(st.db)
    requires |batch| > 0 && Unique(batch) && forall i | 0 <= i < |batch| :: batch[i] in Candidates(st.db, job)
    ensures var (m, out) := Mark(st, batch[0], job, o);
            && DbOk(m.db) && batch == [batch[0]] + batch[1..] && batch[0] !in batch[1..] && Unique(batch[1..])
            && (forall i | 0 <= i < |batch| - 1 :: batch[1..][i] in Candidates(m.db, job))
            && Candidates(m.db, job) == Candidates(st.db, job) - (if out == Tried(Committed) then {batch[0]} else {})
            && m.db.files == st.db.files - (if out == Tried(Committed) then {batch[0]} else {})
  {
    assert batch[0] in Candidates(st.db, job);
    MarkShrinks(st, batch[0], job, o);
    forall i | 0 <= i < |batch| - 1 ensures batch[1..][i] in Candidates(Mark(st, batch[0], job, o).0.db, job) {
      assert batch[1..][i] == batch[i + 1];
    }
  }

  /** A batch that is not cancelled has removed all its paths but those that may stay, and nothing outside it. */
  lemma {:induction false} BatchShrinks(st: State, off: set<string>, batch: seq<string>, n: nat, job: Job, env: Environment, stay: set<string>,
                                         files: map<string, Props>)
    requires job.targets != [] && Distinct(job.targets) && DbOk(st.db) && Within(st.db.files, files)
    requires Unique(batch) && (forall i | 0 <= i < |batch| :: batch[i] in Candidates(st.db, job))
    requires OnlyStay(stay, files, job, env)
    ensures var BatchResult(st', _, cancelled) := Batch(st, off, batch, n, job, env);
            && DbOk(st'.db)
            && Candidates(st'.db, job) <= Candidates(st.db, job)
            && Within(st'.db.files, st.db.files)
            && (forall p | p in st.db.files && p !in batch :: p in st'.db.files)
            && (forall p | p in Candidates(st.db, job) && p !in batch :: p in Candidates(st'.db, job))
            && (!cancelled ==> forall p | p in batch && p !in stay :: p !in st'.db.files)
    decreases |batch|
  {
    if |batch| > 0 {
      var p, o, rest := batch[0], env(n, st, batch[0]), batch[1..];
      if !o.cancelled {
        var (m, out) := Mark(st, p, job, o);
        TailOk(st, batch, job, o);
        if out != Tried(Cancelled) {
          BatchShrinks(m, if LooksUp(st, p, o) then off + {p} else off, rest, n + 1, job, env, stay, files);
        }
      }
    }
  }

  ghost function Elements(batch: seq<string>): set<string> {
    set q | q in batch
  }

  /** A batch longer than the set of paths that may stay holds one that may not. */
  lemma SomeMustGo(batch: seq<string>, stay: set<string>) returns (p: string)
    requires Unique(batch) && |batch| > |stay|
    ensures p in batch && p !in stay
  {
    if forall q | q in batch :: q in stay {
      UniqueCard(batch);
      assert Elements(batch) <= stay;
      CardMonotone(Elements(batch), stay);
    }
    p :| p in batch && p !in stay;
  }

  lemma {:induction false} UniqueCard(batch: seq<string>)
    requires Unique(batch)
    ensures |Elements(batch)| == |batch|
  {
    if |batch| > 0 {
      UniqueCard(batch[1..]);
      assert batch == [batch[0]] + batch[1..];
      assert Elements(batch) == {batch[0]} + Elements(batch[1..]);
    }
  }

  lemma {:induction false} CardMonotone(a: set<string>, b: set<string>)
    requires a <= b
    ensures |a| <= |b|
  {
    if a != {} {
      var x :| x in a;
      CardMonotone(a - {x}, b - {x});
    }
  }

  // ----- which paths are offered -----------------------------------------------------------------

  /** Every look-up of the path fails, or none does. */
  ghost predicate Looks(env: Environment, path: string, fails: bool) {
    forall n, st :: env(n, st, path).queryErr == fails
  }

  /** A path of an uncancelled batch is offered exactly when its look-up works and its record is not rejected. */
  lemma {:induction false} BatchOffers(st: State, off: set<string>, batch: seq<string>, n: nat, job: Job, env: Environment, p: string, fails: bool)
    requires job.targets != [] && Distinct(job.targets) && DbOk(st.db)
    requires Unique(batch) && (forall i | 0 <= i < |batch| :: batch[i] in Candidates(st.db, job))
    ensures var BatchResult(st', offered, cancelled) := Batch(st, off, batch, n, job, env);
            && off <= offered
            && (p in offered && p !in off ==> p in batch && p in st.db.files && ReadableBack(st.db.files[p]))
            && (!cancelled && p in batch && p !in off && Looks(env, p, fails) ==>
                  p in st.db.files && (p in offered <==> !fails && ReadableBack(st.db.files[p])))
    decreases |batch|
  {
    if |batch| > 0 {
      var q, o, rest := batch[0], env(n, st, batch[0]), batch[1..];
      assert q in Candidates(st.db, job);
      if !o.cancelled {
        var (m, out) := Mark(st, q, job, o);
        var off' := if LooksUp(st, q, o) then off + {q} else off;
        TailOk(st, batch, job, o);
        if out != Tried(Cancelled) {
          BatchOffers(m, off', rest, n + 1, job, env, p, fails);
        }
      }
    }
  }

  // ----- what the tables hold of swept paths -----------------------------------------------------

  /** The path has one more row on the target, a delete marker, which has joined the job's collection. */
  ghost predicate SweptOn(before: Db, after: Db, job: Job, p: string, t: string) {
    var rs, rs' := RowsOf(before.rows, p, t), RowsOf(after.rows, p, t);
    && |rs'| == |rs| + 1 && rs'[..|rs|] == rs && rs'[|rs|].deleteMarker && rs'[|rs|].job == job.id
    && p in before.files && rs'[|rs|].props == before.files[p]
    && Held(after, job.id, p, t) == Held(before, job.id, p, t) + [rs'[|rs|]]
  }

  ghost predicate UntouchedOn(before: Db, after: Db, job: Job, p: string, t: string) {
    RowsOf(after.rows, p, t) == RowsOf(before.rows, p, t) && Held(after, job.id, p, t) == Held(before, job.id, p, t)
  }

  lemma MarkSweeps(st: State, path: string, job: Job, o: Offer, p: string, t: string)
    requires Distinct(job.targets) && DbOk(st.db) && path in st.db.files && t in job.targets
    ensures var (st', out) := Mark(st, path, job, o);
            if p == path && out == Tried(Committed) then SweptOn(st.db, st'.db, job, p, t) else UntouchedOn(st.db, st'.db, job, p, t)
  {
    var (st', out) := Mark(st, path, job, o);
    if out == Tried(Committed) {
      var c := Call(Delete, path, st.db.files[path], [], job.id, job.cfg);
      var envs := EnvsFor(o, job.targets);
      CommitShows(st, c, job.targets, envs, o.tx, job.id, p, t);
      if p == path {
        var i :| 0 <= i < |job.targets| && job.targets[i] == t;
        LoopWentOn(c, job.targets, envs, Start(st, c), i);
        GainAt(c, st.db.rows, job.targets, envs, i);
        PlaceKinds(c, t, envs[i], st.db.rows);
      } else {
        NoGain(c, st.db.rows, job.targets, envs, p, t);
      }
    } else {
      assert st'.db == st.db;
    }
  }

  lemma SweptThenUntouched(a: Db, b: Db, c: Db, job: Job, p: string, t: string)
    requires Within(b.files, a.files)
    ensures SweptOn(a, b, job, p, t) && UntouchedOn(b, c, job, p, t) ==> SweptOn(a, c, job, p, t)
    ensures UntouchedOn(a, b, job, p, t) && SweptOn(b, c, job, p, t) ==> SweptOn(a, c, job, p, t)
    ensures UntouchedOn(a, b, job, p, t) && UntouchedOn(b, c, job, p, t) ==> UntouchedOn(a, c, job, p, t)
  {}

  /** An uncancelled batch has swept every path of it that may not stay; paths outside it are untouched. */
  lemma {:induction false} BatchSweeps(st: State, off: set<string>, batch: seq<string>, n: nat, job: Job, env: Environment, stay: set<string>,
                                       files: map<string, Props>, p: string, t: string)
    requires job.targets != [] && Distinct(job.targets) && DbOk(st.db) && Within(st.db.files, files) && t in job.targets
    requires Unique(batch) && (forall i | 0 <= i < |batch| :: batch[i] in Candidates(st.db, job))
    requires OnlyStay(stay, files, job, env)
    ensures var BatchResult(st', _, cancelled) := Batch(st, off, batch, n, job, env);
            && (p !in batch ==> UntouchedOn(st.db, st'.db, job, p, t))
            && (!cancelled && p in batch && p !in stay ==> SweptOn(st.db, st'.db, job, p, t))
    decreases |batch|
  {
    if |batch| > 0 {
      var q, o, rest := batch[0], env(n, st, batch[0]), batch[1..];
      assert q in Candidates(st.db, job);
      if !o.cancelled {
        var (m, out) := Mark(st, q, job, o);
        var off' := if LooksUp(st, q, o) then off + {q} else off;
        TailOk(st, batch, job, o);
        MarkSweeps(st, q, job, o, p, t);
        if out != Tried(Cancelled) {
          BatchSweeps(m, off', rest, n + 1, job, env, stay, files, p, t);
          SweptThenUntouched(st.db, m.db, Batch(m, off', rest, n + 1, job, env).st.db, job, p, t);
        }
      }
    }
  }

  /** A batch stops at the first path before which the job is found cancelled, and leaves that path and all later ones alone. */
  lemma {:induction false} CancelStopsBatch(st: State, off: set<string>, batch: seq<string>, n: nat, job: Job, env: Environment, k: nat)
    requires k < |batch| && !Batch(st, off, batch[..k], n, job, env).cancelled
    requires env(n + k, Batch(st, off, batch[..k], n, job, env).st, batch[k]).cancelled
    ensures Batch(st, off, batch, n, job, env) == Batch(st, off, batch[..k], n, job, env).(cancelled := true)
    decreases k
  {
    if k > 0 {
      var o := env(n, st, batch[0]);
      assert batch[..k][0] == batch[0] && batch[..k][1..] == batch[1..][..k - 1];
      var offered := if LooksUp(st, batch[0], o) then off + {batch[0]} else off;
      CancelStopsBatch(Mark(st, batch[0], job, o).0, offered, batch[1..], n + 1, job, env, k - 1);
    }
  }

  /** The marker of a file that was removed is in the store of every target, under the version of its new row. */
  lemma {:induction false} MarkStoresMarker(st: State, path: string, job: Job, o: Offer, t: string)
    requires TablesOk(st) && EnvOk(st, path, job.targets, EnvsFor(o, job.targets)) && t in job.targets
    requires Mark(st, path, job, o).1 == Tried(Committed) && st.db.files[path].kind == File
    ensures var st' := Mark(st, path, job, o).0;
            var rs := RowsOf(st'.db.rows, path, t);
            && rs != [] && rs[|rs| - 1].deleteMarker
            && var k := Key(t, path, rs[|rs| - 1].remoteVersion); k in st'.store.objects && st'.store.objects[k] == Marker
  {
    var c := Call(Delete, path, st.db.files[path], [], job.id, job.cfg);
    All(st, c, job.targets, EnvsFor(o, job.targets), o.tx, job.id, path, t);
  }

  // ----- the whole sweep -------------------------------------------------------------------------

  /** What a sweep over the paths in `scope` may do, and what it has done when it is done. */
  ghost predicate SweepOk(a: State, b: State, off: set<string>, off': set<string>, scope: set<string>, job: Job, env: Environment,
                          stay: set<string>, done: bool)
  {
    && DbOk(b.db) && Within(b.db.files, a.db.files) && off <= off'
    && (forall p | p in off' && p !in off :: p in scope && p in a.db.files && ReadableBack(a.db.files[p]))
    && (forall p | p in a.db.files && p !in scope :: p in b.db.files)
    && (forall p, t | p !in scope && t in job.targets :: UntouchedOn(a.db, b.db, job, p, t))
    && (done ==> forall p, fails | p in scope && p !in off && p in a.db.files && Looks(env, p, fails) ::
          p in off' <==> !fails && ReadableBack(a.db.files[p]))
    && (done ==> forall p | p in scope && p !in stay :: p !in b.db.files)
    && (done ==> forall p, t | p in scope && p !in stay && t in job.targets :: SweptOn(a.db, b.db, job, p, t))
  }

  /** What the batch may be and what the environment does with it. */
  ghost predicate BatchMeets(st: State, batch: seq<string>, job: Job, env: Environment, stay: set<string>, files: map<string, Props>) {
    && job.targets != [] && Distinct(job.targets) && DbOk(st.db) && Within(st.db.files, files)
    && Unique(batch) && (forall i | 0 <= i < |batch| :: batch[i] in Candidates(st.db, job))
    && OnlyStay(stay, files, job, env)
  }

  lemma {:induction false} AllSwept(st: State, off: set<string>, batch: seq<string>, n: nat, job: Job, env: Environment, stay: set<string>,
                 files: map<string, Props>)
    requires BatchMeets(st, batch, job, env, stay, files)
    ensures var BatchResult(st', _, cancelled) := Batch(st, off, batch, n, job, env);
            && (forall p, t | t in job.targets && p !in batch :: UntouchedOn(st.db, st'.db, job, p, t))
            && (!cancelled ==> forall p, t | t in job.targets && p in batch && p !in stay :: SweptOn(st.db, st'.db, job, p, t))
  {
    var r := Batch(st, off, batch, n, job, env);
    forall p, t | t in job.targets && p !in batch ensures UntouchedOn(st.db, r.st.db, job, p, t) {
      BatchSweeps(st, off, batch, n, job, env, stay, files, p, t);
    }
    forall p, t | !r.cancelled && t in job.targets && p in batch && p !in stay ensures SweptOn(st.db, r.st.db, job, p, t) {
      BatchSweeps(st, off, batch, n, job, env, stay, files, p, t);
    }
  }

  lemma {:induction false} AllOffered(st: State, off: set<string>, batch: seq<string>, n: nat, job: Job, env: Environment, stay: set<string>,
                   files: map<string, Props>)
    requires BatchMeets(st, batch, job, env, stay, files)
    ensures var BatchResult(st', offered, cancelled) := Batch(st, off, batch, n, job, env);
            && off <= offered
            && (forall p | p in offered && p !in off :: p in batch && p in st.db.files && ReadableBack(st.db.files[p]))
            && (!cancelled ==> forall p, fails | p in batch && p !in off && p in st.db.files && Looks(env, p, fails) ::
                  p in offered <==> !fails && ReadableBack(st.db.files[p]))
  {
    var r := Batch(st, off, batch, n, job, env);
    BatchOffers(st, off, batch, n, job, env, "", false);
    forall p | p in r.offered && p !in off ensures p in batch && p in st.db.files && ReadableBack(st.db.files[p]) {
      BatchOffers(st, off, batch, n, job, env, p, false);
    }
    forall p, fails | !r.cancelled && p in batch && p !in off && p in st.db.files && Looks(env, p, fails)
      ensures p in r.offered <==> !fails && ReadableBack(st.db.files[p])
    {
      BatchOffers(st, off, batch, n, job, env, p, fails);
    }
  }

  lemma {:induction false} BatchSweepOk(st: State, off: set<string>, batch: seq<string>, n: nat, job: Job, env: Environment, stay: set<string>,
                     files: map<string, Props>)
    requires BatchMeets(st, batch, job, env, stay, files)
    ensures var BatchResult(st', offered, cancelled) := Batch(st, off, batch, n, job, env);
            && SweepOk(st, st', off, offered, Elements(batch), job, env, stay, !cancelled)
            && Candidates(st'.db, job) <= Candidates(st.db, job)
            && (forall p | p in Candidates(st.db, job) && p !in batch :: p in Candidates(st'.db, job))
  {
    var r := Batch(st, off, batch, n, job, env);
    BatchShrinks(st, off, batch, n, job, env, stay, files);
    AllSwept(st, off, batch, n, job, env, stay, files);
    AllOffered(st, off, batch, n, job, env, stay, files);
    FromParts(st, r, batch, job, env, stay, off);
  }

  lemma FromParts(st: State, r: BatchResult, batch: seq<string>, job: Job, env: Environment, stay: set<string>, off: set<string>)
    requires DbOk(r.st.db) && Within(r.st.db.files, st.db.files) && off <= r.offered
    requires forall p | p in st.db.files && p !in batch :: p in r.st.db.files
    requires forall p, t | t in job.targets && p !in batch :: UntouchedOn(st.db, r.st.db, job, p, t)
    requires !r.cancelled ==> forall p, t | t in job.targets && p in batch && p !in stay :: SweptOn(st.db, r.st.db, job, p, t)
    requires !r.cancelled ==> forall p | p in batch && p !in stay :: p !in r.st.db.files
    requires forall p | p in r.offered && p !in off :: p in batch && p in st.db.files && ReadableBack(st.db.files[p])
    requires !r.cancelled ==> forall p, fails | p in batch && p !in off && p in st.db.files && Looks(env, p, fails) ::
               p in r.offered <==> !fails && ReadableBack(st.db.files[p])
    ensures SweepOk(st, r.st, off, r.offered, Elements(batch), job, env, stay, !r.cancelled)
  {}

  /** A batch that was cancelled, or that held every candidate, is the whole sweep. */
  lemma Widen(a: State, b: State, off: set<string>, off': set<string>, batch: set<string>, job: Job, env: Environment,
              stay: set<string>, done: bool)
    requires job.targets != [] && SweepOk(a, b, off, off', batch, job, env, stay, done) && batch <= Candidates(a.db, job)
    requires done ==> batch == Candidates(a.db, job)
    ensures SweepOk(a, b, off, off', Candidates(a.db, job), job, env, stay, done)
  {}

  /** A finished batch, and then a sweep of the candidates that are left. */
  lemma SweepsCompose(a: State, b: State, c: State, off: set<string>, off1: set<string>, off2: set<string>, batch: set<string>,
                      job: Job, env: Environment, stay: set<string>, done: bool)
    requires job.targets != []
    requires SweepOk(a, b, off, off1, batch, job, env, stay, true)
    requires SweepOk(b, c, off1, off2, Candidates(b.db, job), job, env, stay, done)
    requires batch <= Candidates(a.db, job) && Candidates(b.db, job) <= Candidates(a.db, job)
    requires forall p | p in Candidates(a.db, job) && p !in batch :: p in Candidates(b.db, job)
    ensures SweepOk(a, c, off, off2, Candidates(a.db, job), job, env, stay, done)
  {
    var left := Candidates(b.db, job);
    forall p, t | t in job.targets && p !in Candidates(a.db, job) ensures UntouchedOn(a.db, c.db, job, p, t) {
      SweptThenUntouched(a.db, b.db, c.db, job, p, t);
    }
    forall p, t | done && p in Candidates(a.db, job) && p !in stay && t in job.targets ensures SweptOn(a.db, c.db, job, p, t) {
      SweptThenUntouched(a.db, b.db, c.db, job, p, t);
      assert p in batch ==> p !in left;
    }
  }

  // ----- when the sweep does not end -------------------------------------------------------------

  /** The offer neither removes the path nor cancels the sweep: the path is kept, not found, or its removal fails. */
  predicate Idles(st: State, path: string, job: Job, o: Offer) {
    !o.cancelled && Mark(st, path, job, o).1 !in {Tried(Committed), Tried(Cancelled)}
  }

  /** The environment meets a path in the same way whenever the tables are the same. */
  ghost predicate Steady(env: Environment) {
    forall n, m, s: State, t: State, p | s.db == t.db :: env(n, s, p) == env(m, t, p)
  }

  /** The candidates that stay as long as the tables are what they are now. */
  ghost function Staying(st: State, job: Job, env: Environment): set<string>
    requires job.targets != []
  {
    set p | p in Candidates(st.db, job) && Idles(st, p, job, env(0, st, p))
  }

  lemma {:induction false} LoopDependsOnDb(c: Call, targets: seq<string>, envs: seq<TargetEnv>, l: Loop, m: Loop)
    requires |envs| == |targets| && l.db == m.db && l.status == m.status
    ensures TargetLoop(c, targets, envs, l).db == TargetLoop(c, targets, envs, m).db
    ensures TargetLoop(c, targets, envs, l).status == TargetLoop(c, targets, envs, m).status
    decreases |targets|
  {
    if |targets| > 0 && l.status == Going {
      LoopDependsOnDb(c, targets[1..], envs[1..], TargetStep(c, targets[0], envs[0], l), TargetStep(c, targets[0], envs[0], m));
    }
  }

  /** How an offer ends depends on the tables only; unless it commits it leaves them alone. */
  lemma MarkDependsOnDb(s: State, t: State, path: string, job: Job, o: Offer)
    requires s.db == t.db
    ensures Mark(s, path, job, o).1 == Mark(t, path, job, o).1
    ensures Mark(s, path, job, o).1 != Tried(Committed) ==> Mark(s, path, job, o).0.db == s.db
  {
    if path in s.db.files {
      var c := Call(Delete, path, s.db.files[path], [], job.id, job.cfg);
      LoopDependsOnDb(c, job.targets, EnvsFor(o, job.targets), Start(s, c), Start(t, c));
    }
  }

  /** A batch is neither cancelled nor changes the tables exactly if every path of it stays. */
  lemma {:induction false} BatchIdlesIff(st: State, s: State, off: set<string>, batch: seq<string>, n: nat, job: Job, env: Environment)
    requires job.targets != [] && Distinct(job.targets) && DbOk(st.db) && Steady(env) && s.db == st.db
    requires Unique(batch) && forall i | 0 <= i < |batch| :: batch[i] in Candidates(st.db, job)
    ensures var BatchResult(s', _, cancelled) := Batch(s, off, batch, n, job, env);
            !cancelled && s'.db == st.db <==> forall i | 0 <= i < |batch| :: batch[i] in Staying(st, job, env)
    decreases |batch|
  {
    if |batch| > 0 {
      var p, o, rest := batch[0], env(n, s, batch[0]), batch[1..];
      assert p in Candidates(st.db, job) && o == env(0, st, p);
      MarkDependsOnDb(s, st, p, job, o);
      assert p in Staying(st, job, env) <==> Idles(s, p, job, o);
      var (m, out) := Mark(s, p, job, o);
      if Idles(s, p, job, o) {
        BatchIdlesIff(st, m, if LooksUp(s, p, o) then off + {p} else off, rest, n + 1, job, env);
        assert batch == [p] + rest;
      } else if !o.cancelled && out == Tried(Committed) {
        MarkShrinks(s, p, job, o);
        forall i | 0 <= i < |rest| ensures rest[i] in Candidates(m.db, job) {
          assert rest[i] == batch[i + 1];
        }
        BatchOnlyRemoves(m, if LooksUp(s, p, o) then off + {p} else off, rest, n + 1, job, env);
        assert batch[0] !in Staying(st, job, env);
      } else {
        assert batch[0] !in Staying(st, job, env);
      }
    }
  }

  /** A batch never puts a path back. */
  lemma {:induction false} BatchOnlyRemoves(st: State, off: set<string>, batch: seq<string>, n: nat, job: Job, env: Environment)
    requires job.targets != [] && Distinct(job.targets) && DbOk(st.db)
    requires Unique(batch) && forall i | 0 <= i < |batch| :: batch[i] in Candidates(st.db, job)
    ensures Batch(st, off, batch, n, job, env).st.db.files.Keys <= st.db.files.Keys
    decreases |batch|
  {
    if |batch| > 0 {
      var p, o, rest := batch[0], env(n, st, batch[0]), batch[1..];
      assert p in Candidates(st.db, job);
      var (m, out) := Mark(st, p, job, o);
      MarkShrinks(st, p, job, o);
      if !o.cancelled && out != Tried(Cancelled) {
        forall i | 0 <= i < |rest| ensures rest[i] in Candidates(m.db, job) {
          assert rest[i] == batch[i + 1];
        }
        BatchOnlyRemoves(m, if LooksUp(st, p, o) then off + {p} else off, rest, n + 1, job, env);
      }
    }
  }

  /** A full batch, as the query may return it, that is neither cancelled nor changes the tables. */
  ghost predicate StuckOn(st: State, job: Job, env: Environment, max: nat, n: nat, batch: seq<string>)
    requires job.targets != []
  {
    && |batch| == max && Unique(batch) && (forall i | 0 <= i < |batch| :: batch[i] in Candidates(st.db, job))
    && var BatchResult(st', _, cancelled) := Batch(st, {}, batch, n, job, env);
       !cancelled && st'.db == st.db
  }

  /** The query can return a full batch that changes nothing exactly when at least `max` candidates stay. */
  lemma {:induction false} StuckIff(st: State, job: Job, env: Environment, max: nat, n: nat)
    requires job.targets != [] && Distinct(job.targets) && DbOk(st.db) && Steady(env)
    ensures (exists batch :: StuckOn(st, job, env, max, n, batch)) <==> |Staying(st, job, env)| >= max
  {
    if batch :| StuckOn(st, job, env, max, n, batch) {
      BatchIdlesIff(st, st, {}, batch, n, job, env);
      UniqueCard(batch);
      CardMonotone(Elements(batch), Staying(st, job, env));
    }
    if |Staying(st, job, env)| >= max {
      var batch := TakeFrom(Staying(st, job, env), max);
      BatchIdlesIff(st, st, {}, batch, n, job, env);
      assert StuckOn(st, job, env, max, n, batch);
    }
  }

  lemma {:induction false} TakeFrom(s: set<string>, max: nat) returns (batch: seq<string>)
    requires |s| >= max
    ensures |batch| == max && Unique(batch) && forall i | 0 <= i < |batch| :: batch[i] in s
  {
    if max == 0 {
      batch := [];
    } else {
      var p :| p in s;
      var rest := TakeFrom(s - {p}, max - 1);
      batch := [p] + rest;
    }
  }

  /** The state after the same batch has been met `k` times, as the recursion meets it. */
  function Rounds(st: State, batch: seq<string>, n: nat, job: Job, env: Environment, k: nat): State
    decreases k
  {
    if k == 0 then st else Rounds(Batch(st, {}, batch, n, job, env).st, batch, n + |batch|, job, env, k - 1)
  }

  /** And then it goes on for ever: however often the batch is met again, the tables are still the same and it is still full. */
  lemma {:induction false} StuckForEver(st: State, s: State, job: Job, env: Environment, max: nat, n: nat, batch: seq<string>, k: nat)
    requires job.targets != [] && Distinct(job.targets) && DbOk(st.db) && Steady(env) && s.db == st.db
    requires StuckOn(st, job, env, max, n, batch)
    ensures Rounds(s, batch, n, job, env, k).db == st.db
    ensures StuckOn(Rounds(s, batch, n, job, env, k), job, env, max, n + k * |batch|, batch)
    decreases k
  {
    BatchIdlesIff(st, st, {}, batch, n, job, env);
    BatchIdlesIff(st, s, {}, batch, n, job, env);
    if k > 0 {
      var s' := Batch(s, {}, batch, n, job, env).st;
      BatchIdlesIff(st, st, {}, batch, n + |batch|, job, env);
      StuckForEver(st, s', job, env, max, n + |batch|, batch, k - 1);
      assert n + |batch| + (k - 1) * |batch| == n + k * |batch|;
    }
  }

  // ----- an input for every batch size -------------------------------------------------------------

  /** The names "", "f", "ff", and so on. */
  function Name(n: nat): string {
    seq(n, _ => 'f')
  }

  /** A record of that many readable paths, of which the job has collected none. */
  ghost function Recorded(max: nat): State {
    State(Db(map n: nat | 0 <= n < max :: Name(n) := Props(File, "", 0, 1, 1, "", "", "", "", false, "1"), [], []), Store(map[], {}))
  }

  /** Nothing fails, and every path is wanted and still on disk. */
  function StillThere(): Environment {
    (n, s, p) => Offer(false, false, false, true, true, TxEnv(false, false, false), t => TargetEnv(false, PutFailed, false, "", false, false, false))
  }

  /**
   * For every batch size, the one of the scheduler included: with that many readable paths on disk that the job did not
   * collect, the sweep meets a full batch that it leaves as it is, and so never ends.
   */
  lemma {:induction false} StuckExample(max: nat)
    ensures var job := Job("2", Config(false, false, (t, e) => 0), ["t"], {});
            StuckOn(Recorded(max), job, StillThere(), max, 0, seq(max, n requires 0 <= n < max => Name(n)))
  {
    var st, job, env := Recorded(max), Job("2", Config(false, false, (t, e) => 0), ["t"], {}), StillThere();
    var batch := seq(max, n requires 0 <= n < max => Name(n));
    forall i, j | 0 <= i < j < max ensures batch[i] != batch[j] {
      assert |batch[i]| == i && |batch[j]| == j;
    }
    forall i | 0 <= i < max ensures batch[i] in Candidates(st.db, job) && batch[i] in Staying(st, job, env) {
      assert Name(i) in st.db.files;
    }
    BatchIdlesIff(st, st, {}, batch, 0, job, env);
  }
}
