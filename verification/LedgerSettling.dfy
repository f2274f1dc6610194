/**
 * Settling: what repeated runs over an unchanging path come to, including that a stored record whose times are not after
 * 1970 is rejected when it is read back (backup/backup.go:39-110, 530-589).
 */
module LedgerSettling {
  import opened Common
  import opened Records
  import opened Ledger
  import opened LedgerTables
  import opened LedgerTransactions
  import opened LedgerHistory
  import opened LedgerJobs
  import Sweep

  // ----- one undisturbed run ---------------------------------------------------------------------

  /** Nothing fails and nothing is cancelled. */
  ghost predicate Undisturbed(e: DoEnv) {
    && !e.cancelled && !e.queryErr && e.tx == TxEnv(false, false, false)
    && forall i | 0 <= i < |e.targets| ::
         var t := e.targets[i];
         t.put.Stored? && !t.versionErr && !t.lookupErr && !t.insertErr && !t.collectErr
  }

  /** What is on record for a path. */
  function Stored(st: State, path: string): Option<Props> {
    if path in st.db.files then Some(st.db.files[path]) else None
  }

  /** The record is read back and agrees with the disk. */
  predicate Settled(rec: Option<Props>, disk: Disk, cfg: Config) {
    rec.Some? && ReadableBack(rec.value) && Agrees(rec.value, disk, cfg)
  }

  /** The record is rejected, or no new one can be made. */
  predicate Refuses(rec: Option<Props>, disk: Disk, cfg: Config, e: DoEnv) {
    || (disk.kind == Symlink && disk.link.None?)
    || match rec
       case None => disk.kind == Unknown || (cfg.checksum && disk.kind == File && disk.md5.None? && e.fallback.None?)
       case Some(r) => !ReadableBack(r) || (disk.kind == Unknown && !Agrees(r, disk, cfg))
  }

  /** The record that a run makes of what is on record and on disk. */
  function Made(rec: Option<Props>, disk: Disk, cfg: Config, e: DoEnv, job: string): Result<Props> {
    match rec
    case None => FullRecord(disk, cfg, if e.fallback.Some? then e.fallback.value else "", job)
    case Some(r) => UpdatedRecord(disk, cfg, r, job)
  }

  lemma DecideIs(st: State, item: Item, cfg: Config, job: string)
    requires Undisturbed(item.env)
    ensures var rec := Stored(st, item.path);
            var d := Decide(st, item.path, item.disk, cfg, job, item.env);
            if Refuses(rec, item.disk, cfg, item.env) then d.Err?
            else if Settled(rec, item.disk, cfg) then d == Ok(None)
            else d.Ok? && d.value.Some? && Made(rec, item.disk, cfg, item.env, job) == Ok(d.value.value.rec)
                 && d.value.value.path == item.path && d.value.value.op != Delete
  {
    if item.path in st.db.files {
      UpToDateIffAgrees(item.disk, st.db.files[item.path], cfg);
    }
  }

  /** Nothing blocks the transaction of an undisturbed run: a metadata update finds the row it copies. */
  lemma NotBlocked(st: State, c: Call, targets: seq<string>, e: DoEnv, i: nat)
    requires Inv(st, targets) && i < |targets| == |e.targets| && Undisturbed(e)
    requires c.op == MetadataUpdate ==> c.path in st.db.files
    ensures !Blocked(c, targets[i], e.targets[i], st.db.rows)
  {
    if c.op == MetadataUpdate {
      var rs := RowsOf(st.db.rows, c.path, targets[i]);
      assert Tells(st.db.files, c.path, rs);
      NewestIsLast(st.db.rows, c.path, targets[i]);
      AtVersionIs(st.db.rows, c.path, targets[i], |rs|);
    }
  }

  /** An undisturbed run refuses, finds the path up to date, or replaces the record: which of them, and by what. */
  lemma UndisturbedRun(st: State, item: Item, cfg: Config, targets: seq<string>, job: string)
    requires Inv(st, targets) && ItemOk(st, item, cfg, targets, job, targets) && Undisturbed(item.env)
    ensures var rec := Stored(st, item.path);
            var rec' := Stored(After(st, item, cfg, targets, job), item.path);
            var out := ItemOutcome(st, item, cfg, targets, job);
            if Refuses(rec, item.disk, cfg, item.env) then out == Refused && rec' == rec
            else if Settled(rec, item.disk, cfg) then out == UpToDate(true) && rec' == rec
            else out == Backed(Committed) && rec'.Some? && Made(rec, item.disk, cfg, item.env, job) == Ok(rec'.value)
  {
    var rec := Stored(st, item.path);
    DecideIs(st, item, cfg, job);
    if !Refuses(rec, item.disk, cfg, item.env) {
      if Settled(rec, item.disk, cfg) {
        CollectComplete(st, item.path, job, targets, item.env.targets);
        CollectKeeps(st, item.path, job, targets, item.env.targets);
      } else {
        var c := CallOf(st, EventOf(item, cfg, job)).value;
        DecideCall(st, item.path, item.disk, cfg, job, item.env);
        forall i | 0 <= i < |targets| ensures !Blocked(c, targets[i], item.env.targets[i], st.db.rows) {
          NotBlocked(st, c, targets, item.env, i);
        }
        CommitsIff(st, c, targets, item.env.targets, item.env.tx);
        CommitShows(st, c, targets, item.env.targets, item.env.tx, "", "", "");
      }
    }
  }

  // ----- repeated runs ---------------------------------------------------------------------------

  /** One of a series of runs over the same path: its job, and what it meets. */
  datatype Visit = Visit(job: string, env: DoEnv)

  function ItemAt(path: string, disk: Disk, v: Visit): Item {
    Item(path, disk, v.env)
  }

  /** What the visits meet: nothing fails, nothing is cancelled, nothing is skipped. */
  ghost predicate VisitsOk(st: State, path: string, disk: Disk, cfg: Config, targets: seq<string>, vs: seq<Visit>)
    decreases |vs|
  {
    |vs| > 0 ==>
      && ItemOk(st, ItemAt(path, disk, vs[0]), cfg, targets, vs[0].job, targets) && Undisturbed(vs[0].env)
      && VisitsOk(After(st, ItemAt(path, disk, vs[0]), cfg, targets, vs[0].job), path, disk, cfg, targets, vs[1..])
  }

  /** How visit number `n` ends. */
  function OutcomeAt(st: State, path: string, disk: Disk, cfg: Config, targets: seq<string>, vs: seq<Visit>, n: nat): DoOutcome
    requires n < |vs| && forall k | 0 <= k < |vs| :: |vs[k].env.targets| == |targets|
    decreases n
  {
    if n == 0 then ItemOutcome(st, ItemAt(path, disk, vs[0]), cfg, targets, vs[0].job)
    else OutcomeAt(After(st, ItemAt(path, disk, vs[0]), cfg, targets, vs[0].job), path, disk, cfg, targets, vs[1..], n - 1)
  }

  /** What one undisturbed visit makes of the record, and how it ends. */
  ghost predicate RecordStep(rec: Option<Props>, rec': Option<Props>, out: DoOutcome, disk: Disk, cfg: Config, v: Visit) {
    && (rec.Some? ==> WellFormed(rec.value))
    && if Refuses(rec, disk, cfg, v.env) then out == Refused && rec' == rec
       else if Settled(rec, disk, cfg) then out == UpToDate(true) && rec' == rec
       else out == Backed(Committed) && rec'.Some? && Made(rec, disk, cfg, v.env, v.job) == Ok(rec'.value)
  }

  lemma VisitIs(st: State, item: Item, cfg: Config, targets: seq<string>, job: string)
    requires Inv(st, targets) && ItemOk(st, item, cfg, targets, job, targets) && Undisturbed(item.env)
    ensures var st' := After(st, item, cfg, targets, job);
            && Inv(st', targets)
            && RecordStep(Stored(st, item.path), Stored(st', item.path), ItemOutcome(st, item, cfg, targets, job), item.disk, cfg,
                          Visit(job, item.env))
  {
    StepKeepsInv(st, targets, EventOf(item, cfg, job), targets);
    UndisturbedRun(st, item, cfg, targets, job);
  }

  /** Exactly what it takes to settle: to be settled already, or to be readable, after 1970 and not rejected. */
  predicate CanSettle(rec: Option<Props>, disk: Disk, cfg: Config) {
    || Settled(rec, disk, cfg)
    || (&& disk.kind != Unknown && Readable(disk, cfg) && disk.mtime > 0 && disk.ctime.value > 0
        && (rec.Some? ==> ReadableBack(rec.value)))
  }

  predicate LosesChecksum(rec: Option<Props>, disk: Disk, cfg: Config) {
    cfg.checksum && rec.Some? && EncryptionFlip(disk, rec.value, cfg)
  }

  /** A record made from a disk that can settle is read back; it agrees unless a flip lost the checksum, and never flips again. */
  lemma MadeSettles(rec: Option<Props>, disk: Disk, cfg: Config, e: DoEnv, job: string)
    requires disk.md5 != Some("") && CanSettle(rec, disk, cfg) && !Settled(rec, disk, cfg)
    ensures !Refuses(rec, disk, cfg, e) && Made(rec, disk, cfg, e, job).Ok?
    ensures var r := Some(Made(rec, disk, cfg, e, job).value);
            CanSettle(r, disk, cfg) && !LosesChecksum(r, disk, cfg) && (Settled(r, disk, cfg) <==> !LosesChecksum(rec, disk, cfg))
  {
    match rec
    case None => FullRecordAgrees(disk, cfg, if e.fallback.Some? then e.fallback.value else "", job);
    case Some(r) => UpdatedRecordAgrees(disk, r, cfg, job);
  }

  /** A record made from a disk that cannot settle cannot settle either. */
  lemma MadeNeverSettles(rec: Option<Props>, disk: Disk, cfg: Config, e: DoEnv, job: string)
    requires !CanSettle(rec, disk, cfg) && !Refuses(rec, disk, cfg, e) && (rec.Some? ==> WellFormed(rec.value))
    requires Made(rec, disk, cfg, e, job).Ok?
    ensures !CanSettle(Some(Made(rec, disk, cfg, e, job).value), disk, cfg)
  {}

  /** The records and outcomes of a series of visits. */
  ghost predicate Series(recs: seq<Option<Props>>, outs: seq<DoOutcome>, disk: Disk, cfg: Config, vs: seq<Visit>) {
    |recs| == |vs| + 1 && |outs| == |vs| && forall k | 0 <= k < |vs| :: RecordStep(recs[k], recs[k + 1], outs[k], disk, cfg, vs[k])
  }

  /** A path that can settle does so in at most two runs, one unless a flip loses the checksum; and it stays settled. */
  lemma {:induction false} SettlesSoon(recs: seq<Option<Props>>, outs: seq<DoOutcome>, disk: Disk, cfg: Config, vs: seq<Visit>, n: nat)
    requires Series(recs, outs, disk, cfg, vs) && n <= |vs| && disk.md5 != Some("") && CanSettle(recs[0], disk, cfg)
    ensures CanSettle(recs[n], disk, cfg)
    ensures n >= 1 ==> Settled(recs[n], disk, cfg) || !LosesChecksum(recs[n], disk, cfg)
    ensures n == 1 ==> (Settled(recs[1], disk, cfg) <==> Settled(recs[0], disk, cfg) || !LosesChecksum(recs[0], disk, cfg))
    ensures n >= 2 ==> Settled(recs[n], disk, cfg)
  {
    if n > 0 {
      SettlesSoon(recs, outs, disk, cfg, vs, n - 1);
      assert RecordStep(recs[n - 1], recs[n - 1 + 1], outs[n - 1], disk, cfg, vs[n - 1]);
      if !Settled(recs[n - 1], disk, cfg) {
        MadeSettles(recs[n - 1], disk, cfg, vs[n - 1].env, vs[n - 1].job);
      }
    }
  }

  /** A path that cannot settle never does. */
  lemma {:induction false} NeverSettles(recs: seq<Option<Props>>, outs: seq<DoOutcome>, disk: Disk, cfg: Config, vs: seq<Visit>, n: nat)
    requires Series(recs, outs, disk, cfg, vs) && n <= |vs| && !CanSettle(recs[0], disk, cfg)
    ensures !CanSettle(recs[n], disk, cfg)
  {
    if n > 0 {
      NeverSettles(recs, outs, disk, cfg, vs, n - 1);
      assert RecordStep(recs[n - 1], recs[n - 1 + 1], outs[n - 1], disk, cfg, vs[n - 1]);
      if !Refuses(recs[n - 1], disk, cfg, vs[n - 1].env) {
        MadeNeverSettles(recs[n - 1], disk, cfg, vs[n - 1].env, vs[n - 1].job);
      }
    }
  }

  /**
   * Settling, for `Do` itself. From any state of the ledger, with disk object and configuration fixed and nothing failing:
   * the first visit finds the path up to date exactly if its record is settled; the second exactly if it can settle and
   * no encryption flip lost the checksum; every later one exactly if it can settle.
   */
  lemma {:induction false} Settles(st: State, path: string, disk: Disk, cfg: Config, targets: seq<string>, vs: seq<Visit>, n: nat)
    requires forall k | 0 <= k < |vs| :: |vs[k].env.targets| == |targets|
    requires Inv(st, targets) && VisitsOk(st, path, disk, cfg, targets, vs) && n < |vs| && disk.md5 != Some("")
    ensures var rec := Stored(st, path);
            OutcomeAt(st, path, disk, cfg, targets, vs, n) == UpToDate(true) <==>
            if n == 0 then Settled(rec, disk, cfg)
            else CanSettle(rec, disk, cfg) && (n == 1 ==> Settled(rec, disk, cfg) || !LosesChecksum(rec, disk, cfg))
  {
    var recs, outs := SeriesOf(st, path, disk, cfg, targets, vs);
    OutcomesSettle(recs, outs, disk, cfg, vs, n);
  }

  lemma {:induction false} SeriesOf(st: State, path: string, disk: Disk, cfg: Config, targets: seq<string>, vs: seq<Visit>)
    returns (recs: seq<Option<Props>>, outs: seq<DoOutcome>)
    requires forall k | 0 <= k < |vs| :: |vs[k].env.targets| == |targets|
    requires Inv(st, targets) && VisitsOk(st, path, disk, cfg, targets, vs)
    ensures Series(recs, outs, disk, cfg, vs) && recs[0] == Stored(st, path)
    ensures forall k | 0 <= k < |vs| :: outs[k] == OutcomeAt(st, path, disk, cfg, targets, vs, k)
    decreases |vs|
  {
    if |vs| == 0 {
      recs, outs := [Stored(st, path)], [];
    } else {
      var item := ItemAt(path, disk, vs[0]);
      var st' := After(st, item, cfg, targets, vs[0].job);
      VisitIs(st, item, cfg, targets, vs[0].job);
      var recs', outs' := SeriesOf(st', path, disk, cfg, targets, vs[1..]);
      recs, outs := [Stored(st, path)] + recs', [ItemOutcome(st, item, cfg, targets, vs[0].job)] + outs';
      SeriesCons(recs, outs, disk, cfg, vs, recs', outs');
    }
  }

  lemma SeriesCons(recs: seq<Option<Props>>, outs: seq<DoOutcome>, disk: Disk, cfg: Config, vs: seq<Visit>,
                   recs': seq<Option<Props>>, outs': seq<DoOutcome>)
    requires |vs| > 0 && Series(recs', outs', disk, cfg, vs[1..]) && |recs| > 1 && |outs| > 0 && recs[1..] == recs' && outs[1..] == outs'
    requires RecordStep(recs[0], recs[1], outs[0], disk, cfg, vs[0])
    ensures Series(recs, outs, disk, cfg, vs)
  {
    forall k | 0 <= k < |vs| ensures RecordStep(recs[k], recs[k + 1], outs[k], disk, cfg, vs[k]) {
      if k > 0 {
        assert RecordStep(recs'[k - 1], recs'[k - 1 + 1], outs'[k - 1], disk, cfg, vs[1..][k - 1]);
      }
    }
  }

  lemma OutcomesSettle(recs: seq<Option<Props>>, outs: seq<DoOutcome>, disk: Disk, cfg: Config, vs: seq<Visit>, n: nat)
    requires Series(recs, outs, disk, cfg, vs) && n < |vs| && disk.md5 != Some("")
    ensures outs[n] == UpToDate(true) <==>
            if n == 0 then Settled(recs[0], disk, cfg)
            else CanSettle(recs[0], disk, cfg) && (n == 1 ==> Settled(recs[0], disk, cfg) || !LosesChecksum(recs[0], disk, cfg))
  {
    assert RecordStep(recs[n], recs[n + 1], outs[n], disk, cfg, vs[n]);
    if CanSettle(recs[0], disk, cfg) {
      SettlesSoon(recs, outs, disk, cfg, vs, n);
    } else {
      NeverSettles(recs, outs, disk, cfg, vs, n);
    }
  }

  // ----- rejected for ever -----------------------------------------------------------------------

  /** A record is rejected when it is read back: `Do` can only refuse the path and the sweep cannot find it. */
  lemma RejectedNow(st: State, path: string, disk: Disk, cfg: Config, targets: seq<string>, job: string, e: DoEnv,
                    sweeper: Sweep.Job, o: Sweep.Offer)
    requires path in st.db.files && !ReadableBack(st.db.files[path]) && |e.targets| == |targets|
    ensures DoPath(st, path, disk, cfg, targets, job, e) == (st, if e.cancelled then Stopped else Refused)
    ensures Sweep.Mark(st, path, sweeper, o) == (st, Sweep.NotFound)
  {}

  /** No event changes what is on record for another path. */
  lemma StepFrame(st: State, targets: seq<string>, ev: Event, p: string, t: string)
    requires TablesOk(st) && EventOk(st, targets, ev) && p != ev.path
    ensures SameFor(st, Step(st, targets, ev), ev.job, p, t)
  {
    if ev.Back? {
      DoFrame(st, Item(ev.path, ev.disk, ev.env), ev.cfg, targets, ev.job, ev.job, p, t);
    } else if CallOf(st, ev).Some? {
      Nothing(st, CallOf(st, ev).value, targets, ev.envs, ev.tx);
      if Transact(st, CallOf(st, ev).value, targets, ev.envs, ev.tx).1 == Committed {
        All(st, CallOf(st, ev).value, targets, ev.envs, ev.tx, ev.job, p, t);
      }
    }
  }

  /**
   * Once a record is rejected it is rejected for ever: over every run of jobs and deletions the record and the rows of the
   * path stay as they are.
   */
  lemma {:induction false} RejectedForEver(st: State, targets: seq<string>, evs: seq<Event>, good: seq<string>, path: string, t: string)
    requires forall i | 0 <= i < |evs| :: |EnvsOf(evs[i])| == |targets|
    requires TablesOk(st) && RunOk(st, targets, evs, good)
    requires path in st.db.files && !ReadableBack(st.db.files[path])
    ensures var end := RunAll(st, targets, evs);
            && path in end.db.files && end.db.files[path] == st.db.files[path]
            && RowsOf(end.db.rows, path, t) == RowsOf(st.db.rows, path, t)
    decreases |evs|
  {
    if |evs| > 0 {
      var ev := evs[0];
      StepKeepsTables(st, targets, ev);
      if ev.path == path {
        assert Step(st, targets, ev) == st;
      } else {
        StepFrame(st, targets, ev, path, t);
      }
      RejectedForEver(Step(st, targets, ev), targets, evs[1..], good, path, t);
    }
  }

  /** Exactly which successful runs leave a record that is rejected from then on. */
  lemma RejectedAfter(st: State, item: Item, cfg: Config, targets: seq<string>, job: string)
    requires Inv(st, targets) && ItemOk(st, item, cfg, targets, job, targets)
    requires ItemOutcome(st, item, cfg, targets, job) == Backed(Committed)
    ensures var st' := After(st, item, cfg, targets, job);
            && item.path in st'.db.files
            && (ReadableBack(st'.db.files[item.path]) <==> item.disk.mtime > 0 && item.disk.ctime.Some? && item.disk.ctime.value > 0)
  {
    CommitBranch(st, item, cfg, targets, job);
    CommitShows(st, CallOf(st, EventOf(item, cfg, job)).value, targets, item.env.targets, item.env.tx, "", "", "");
    DecideTimes(st, item, cfg, job);
  }

  lemma DecideTimes(st: State, item: Item, cfg: Config, job: string)
    requires CallOf(st, EventOf(item, cfg, job)).Some?
    ensures var c := CallOf(st, EventOf(item, cfg, job)).value;
            && c.path == item.path && c.op != Delete && c.rec.mtime == item.disk.mtime
            && c.rec.ctime == if item.disk.ctime.Some? then item.disk.ctime.value else ZERO_TIME
  {}
}
