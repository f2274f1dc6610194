/** Any number of daemons bringing up the keystore of one bucket, in every interleaving. */
module KeystoreAgreement {
  import opened Common
  import opened Format
  import opened Aead
  import opened Stream
  import opened RoundTrip
  import opened Keystore

  /** The local variables of an `initEncryption` call between its accesses to the bucket. */
  datatype Pc = Idle | Fetching(opts: Options) | Putting(opts: Options, kek: Bytes, sidecar: Sidecar) | Refetching(opts: Options)

  datatype Local = Local(enabled: bool, password: Bytes, initialised: bool, kek: Bytes, uuid: Bytes)

  datatype Daemon = Daemon(local: Local, pc: Pc)

  /** The sidecar object, and conditional creates that were reported as failed but may still reach the bucket. */
  datatype World = World(register: Option<Bytes>, inflight: set<Bytes>, daemons: seq<Daemon>)

  datatype Action =
    | Begin(i: nat, opts: Options)
    | Fetch(i: nat, fails: bool, draw: Draw)
    | TryCreate(i: nat, fails: bool)
    | Refetch(i: nat, fails: bool)
    | Land(body: Bytes)
    | Restart(i: nat, enabled: bool, password: Bytes)

  function Answer(register: Option<Bytes>, fails: bool): Fetched {
    if fails then FetchFailed else match register case None => Missing case Some(b) => Found(b)
  }

  /** The end of a call: on success the local state is filled in, on failure it is as before. */
  function Finish(l: Local, r: Result<(Bytes, Sidecar)>): Daemon {
    if r.Ok? && UuidBytes(r.value.1).Ok?
    then Daemon(Local(l.enabled, [], true, r.value.0, UuidBytes(r.value.1).value), Idle)
    else Daemon(l, Idle)
  }

  function Proceed(d: Daemon, next: Keystore.Next, opts: Options): Daemon {
    match next
    case Return(r) => Finish(d.local, r)
    case Create(kek, s) => d.(pc := Putting(opts, kek, s))
    case Adopt => d.(pc := Refetching(opts))
  }

  /** One atomic step; an action that is not enabled changes nothing. */
  function Step(c: Crypto, w: World, a: Action): World {
    match a
    case Begin(i, opts) =>
      if i < |w.daemons| && w.daemons[i].pc.Idle? && w.daemons[i].local.enabled && !w.daemons[i].local.initialised
         && w.daemons[i].local.password != []
      then w.(daemons := w.daemons[i := w.daemons[i].(pc := Fetching(opts))]) else w
    case Fetch(i, fails, draw) =>
      if i < |w.daemons| && w.daemons[i].pc.Fetching? then
        var d := w.daemons[i];
        w.(daemons := w.daemons[i := Proceed(d, AfterFetch(c, Answer(w.register, fails), d.local.password, d.pc.opts, draw), d.pc.opts)])
      else w
    case TryCreate(i, fails) =>
      if i < |w.daemons| && w.daemons[i].pc.Putting? then
        var d := w.daemons[i];
        var body := c.marshal(d.pc.sidecar);
        var answer := if fails then PutFailed else if w.register.Some? then Conflict else Created;
        World(if answer.Created? then Some(body) else w.register,
              if fails then w.inflight + {body} else w.inflight,
              w.daemons[i := Proceed(d, AfterPut(answer, d.pc.kek, d.pc.sidecar), d.pc.opts)])
      else w
    case Refetch(i, fails) =>
      if i < |w.daemons| && w.daemons[i].pc.Refetching? then
        var d := w.daemons[i];
        w.(daemons := w.daemons[i := Proceed(d, AfterRefetch(c, Answer(w.register, fails), d.local.password), d.pc.opts)])
      else w
    case Land(body) =>
      if body in w.inflight && w.register.None? then w.(register := Some(body)) else w
    case Restart(i, enabled, password) =>
      if i < |w.daemons| then w.(daemons := w.daemons[i := Daemon(Local(enabled, password, false, [], []), Idle)]) else w
  }

  /** Every bootstrap of the run is accounted for. */
  ghost predicate ActionOk(w: World, a: Action, boots: set<Boot>) {
    a.Fetch? && a.i < |w.daemons| ==> Boot(w.daemons[a.i].local.password, a.draw) in boots
  }

  ghost predicate DaemonOk(c: Crypto, register: Option<Bytes>, d: Daemon) {
    && (d.local.initialised ==> register.Some? && Holds(c, register.value, d.local.kek, d.local.uuid))
    && (!d.pc.Idle? ==> d.local.password != [])
    && (d.pc.Putting? ==>
          && d.pc.opts.allowBootstrap && !d.pc.opts.hasEncryptedFiles
          && UuidBytes(d.pc.sidecar).Ok?
          && Holds(c, c.marshal(d.pc.sidecar), d.pc.kek, UuidBytes(d.pc.sidecar).value))
  }

  ghost predicate WorldOk(c: Crypto, w: World) {
    forall i | 0 <= i < |w.daemons| :: DaemonOk(c, w.register, w.daemons[i])
  }

  /** The sidecar is created at most once and never changes. */
  lemma WrittenOnce(c: Crypto, w: World, a: Action)
    ensures w.register.Some? ==> Step(c, w, a).register == w.register
  {}

  /** Only an attempt that may bootstrap, and for which no encrypted files are on record, ever writes. */
  lemma OnlyBootstrapsWrite(c: Crypto, w: World, a: Action)
    requires WorldOk(c, w)
    requires Step(c, w, a).inflight != w.inflight || (!a.Land? && Step(c, w, a).register != w.register)
    ensures a.TryCreate? && a.i < |w.daemons| && w.daemons[a.i].pc.Putting?
    ensures w.daemons[a.i].pc.opts.allowBootstrap && !w.daemons[a.i].pc.opts.hasEncryptedFiles
  {
    assert a.TryCreate? && a.i < |w.daemons| && w.daemons[a.i].pc.Putting?;
    assert DaemonOk(c, w.register, w.daemons[a.i]);
  }

  /** A late write takes effect exactly if its create was reported as failed and the bucket has no sidecar yet. */
  lemma LandsIff(c: Crypto, w: World, body: Bytes)
    ensures var w' := Step(c, w, Land(body));
            w'.daemons == w.daemons && w'.inflight == w.inflight && w'.register == if body in w.inflight && w.register.None? then Some(body) else w.register
  {}

  /** A call begins exactly on a daemon that is idle, has encryption on, is not initialised and still has its password. */
  lemma BeginsIff(c: Crypto, w: World, i: nat, opts: Options)
    requires i < |w.daemons|
    ensures var d, w' := w.daemons[i], Step(c, w, Begin(i, opts));
            && (w' != w <==> d.pc.Idle? && d.local.enabled && !d.local.initialised && d.local.password != [])
            && (w' != w ==> w' == w.(daemons := w.daemons[i := Daemon(d.local, Fetching(opts))]))
  {}

  /** Once initialised, a daemon keeps its key and identifier, whatever the others do, until it is restarted, which forgets them. */
  lemma InitialisedStays(c: Crypto, w: World, a: Action, i: nat, enabled: bool, password: Bytes)
    requires i < |w.daemons|
    ensures w.daemons[i].pc.Idle? && w.daemons[i].local.initialised && !(a.Restart? && a.i == i) ==> Step(c, w, a).daemons[i] == w.daemons[i]
    ensures var d := Step(c, w, Restart(i, enabled, password)).daemons[i];
            d.pc.Idle? && !d.local.initialised && d.local.kek == [] && d.local.password == password && d.local.enabled == enabled
  {}

  /** A step that ends an attempt without success leaves the daemon's local state as it was, ready to begin again. */
  lemma FailureChangesNothing(c: Crypto, w: World, a: Action, i: nat)
    requires i < |w.daemons| && !a.Restart?
    requires Step(c, w, a).daemons[i].pc.Idle? && !Step(c, w, a).daemons[i].local.initialised
    ensures Step(c, w, a).daemons[i].local == w.daemons[i].local
  {}

  lemma FinishOk(c: Crypto, register: Option<Bytes>, body: Bytes, l: Local)
    requires register == Some(body) && DaemonOk(c, register, Daemon(l, Idle))
    ensures DaemonOk(c, register, Finish(l, VerifySidecar(c, body, l.password)))
  {
    if VerifySidecar(c, body, l.password).Ok? {
      VerifiedHolds(c, body, l.password);
    }
  }

  lemma FetchOk(c: Crypto, boots: set<Boot>, register: Option<Bytes>, d: Daemon, fails: bool, draw: Draw)
    requires Ideal(c, boots) && DaemonOk(c, register, d) && d.pc.Fetching? && Boot(d.local.password, draw) in boots
    ensures DaemonOk(c, register, Proceed(d, AfterFetch(c, Answer(register, fails), d.local.password, d.pc.opts, draw), d.pc.opts))
  {
    if register.Some? {
      FinishOk(c, register, register.value, d.local);
    } else {
      NewHolds(c, boots, d.local.password, draw);
    }
  }

  lemma StepKeepsWorld(c: Crypto, boots: set<Boot>, w: World, a: Action)
    requires Ideal(c, boots) && WorldOk(c, w) && ActionOk(w, a, boots)
    ensures WorldOk(c, Step(c, w, a))
  {
    var w' := Step(c, w, a);
    WrittenOnce(c, w, a);
    forall j | 0 <= j < |w'.daemons| ensures DaemonOk(c, w'.register, w'.daemons[j]) {
      var d := w.daemons[j];
      assert DaemonOk(c, w.register, d);
      if a.Fetch? && a.i == j && d.pc.Fetching? {
        FetchOk(c, boots, w.register, d, a.fails, a.draw);
      } else if a.Refetch? && a.i == j && d.pc.Refetching? && w.register.Some? {
        FinishOk(c, w.register, w.register.value, d.local);
      }
    }
  }

  /** The steps of one daemon add up to one call of `runEncryptionInit` on the answers it was given. */
  lemma StepsAreOneCall(c: Crypto, l: Local, opts: Options, draw: Draw, a: Fetched, p: Put, again: Fetched)
    requires l.password != []
    ensures var d1 := Proceed(Daemon(l, Fetching(opts)), AfterFetch(c, a, l.password, opts, draw), opts);
            var d2 := if d1.pc.Putting? then Proceed(d1, AfterPut(p, d1.pc.kek, d1.pc.sidecar), opts) else d1;
            var d3 := if d2.pc.Refetching? then Proceed(d2, AfterRefetch(c, again, d2.local.password), opts) else d2;
            d3 == Finish(l, RunInit(c, l.password, opts, draw, a, p, again))
  {}

  /** Whoever knows the password of the sidecar in the bucket is initialised by its next undisturbed fetch. */
  lemma RightPasswordSucceeds(c: Crypto, boots: set<Boot>, w: World, i: nat, winner: Draw, draw: Draw)
    requires Ideal(c, boots) && i < |w.daemons| && w.daemons[i].pc.Fetching? && w.daemons[i].local.password != []
    requires var password := w.daemons[i].local.password;
             && Boot(password, winner) in boots && |c.kdf(password, winner.salt, DEFAULT_PARAMS)| == KEK_SIZE
             && w.register == Some(Written(c, password, winner))
    ensures var l := Step(c, w, Fetch(i, false, draw)).daemons[i].local;
            l.initialised && l.uuid == winner.uuid && l.kek == c.kdf(w.daemons[i].local.password, winner.salt, DEFAULT_PARAMS)
  {
    NewThenVerify(c, boots, w.daemons[i].local.password, winner);
    NewHolds(c, boots, w.daemons[i].local.password, winner);
  }

  /** The daemon is initialised with the key and the identifier of the sidecar that a bootstrap with this password made. */
  ghost predicate HoldsOf(c: Crypto, l: Local, password: Bytes, winner: Draw) {
    l.initialised && l.uuid == winner.uuid && l.kek == c.kdf(password, winner.salt, DEFAULT_PARAMS) && l.password == []
  }

  /** The sidecar that a bootstrap with this password and these draws made is in the bucket, and its key has the right size. */
  ghost predicate Won(c: Crypto, boots: set<Boot>, w: World, password: Bytes, winner: Draw) {
    && password != [] && Boot(password, winner) in boots && |c.kdf(password, winner.salt, DEFAULT_PARAMS)| == KEK_SIZE
    && w.register == Some(Written(c, password, winner))
  }

  /** Whoever refetches the sidecar that its own password made adopts it. */
  lemma RefetchAdopts(c: Crypto, boots: set<Boot>, w: World, i: nat, winner: Draw)
    requires Ideal(c, boots) && i < |w.daemons| && w.daemons[i].pc.Refetching? && Won(c, boots, w, w.daemons[i].local.password, winner)
    ensures var w' := Step(c, w, Refetch(i, false));
            w'.register == w.register && HoldsOf(c, w'.daemons[i].local, w.daemons[i].local.password, winner) && w'.daemons[i].pc.Idle?
  {
    NewThenVerify(c, boots, w.daemons[i].local.password, winner);
    NewHolds(c, boots, w.daemons[i].local.password, winner);
  }

  /** The loser of a race for the sidecar ends initialised with the winner's, when both have the same password. */
  lemma LoserAdopts(c: Crypto, boots: set<Boot>, w: World, i: nat, winner: Draw)
    requires Ideal(c, boots) && i < |w.daemons| && w.daemons[i].pc.Putting? && Won(c, boots, w, w.daemons[i].local.password, winner)
    ensures var w' := Step(c, Step(c, w, TryCreate(i, false)), Refetch(i, false));
            w'.register == w.register && HoldsOf(c, w'.daemons[i].local, w.daemons[i].local.password, winner)
  {
    var d := w.daemons[i];
    var m := Step(c, w, TryCreate(i, false));
    assert m.register == w.register && m.daemons[i] == d.(pc := Refetching(d.pc.opts));
    RefetchAdopts(c, boots, m, i, winner);
  }

  /** With another password it ends uninitialised, and can begin again. */
  lemma LoserRefuses(c: Crypto, boots: set<Boot>, w: World, i: nat, password: Bytes, winner: Draw)
    requires Ideal(c, boots) && i < |w.daemons| && w.daemons[i].pc.Refetching? && Won(c, boots, w, password, winner)
    requires c.kdf(w.daemons[i].local.password, winner.salt, DEFAULT_PARAMS) != c.kdf(password, winner.salt, DEFAULT_PARAMS)
    ensures Step(c, w, Refetch(i, false)).daemons[i] == Daemon(w.daemons[i].local, Idle)
  {
    WrongPasswordFails(c, boots, password, winner, w.daemons[i].local.password);
  }

  /** A daemon that has begun on an empty bucket and may bootstrap ends initialised, with its sidecar in the bucket. */
  lemma BootstrapSucceeds(c: Crypto, boots: set<Boot>, w: World, i: nat, opts: Options, draw: Draw)
    requires Ideal(c, boots) && i < |w.daemons| && w.register.None? && opts.allowBootstrap && !opts.hasEncryptedFiles
    requires var d := w.daemons[i];
             && d.pc.Idle? && d.local.enabled && !d.local.initialised && d.local.password != [] && Boot(d.local.password, draw) in boots
    ensures var w' := Step(c, Step(c, Step(c, w, Begin(i, opts)), Fetch(i, false, draw)), TryCreate(i, false));
            && HoldsOf(c, w'.daemons[i].local, w.daemons[i].local.password, draw)
            && w'.register == Some(Written(c, w.daemons[i].local.password, draw))
            && w'.daemons == w.daemons[i := w'.daemons[i]]
  {
    var d := w.daemons[i];
    var (kek, s) := New(c, d.local.password, draw).value;
    NewHolds(c, boots, d.local.password, draw);
    var w1 := Step(c, w, Begin(i, opts));
    assert w1.daemons[i] == d.(pc := Fetching(opts)) && w1.register.None?;
    var w2 := Step(c, w1, Fetch(i, false, draw));
    assert w2.daemons[i] == d.(pc := Putting(opts, kek, s)) && w2.register.None?;
  }

  /** A create that is reported as failed leaves the daemon as it began; its sidecar may still reach an empty bucket. */
  lemma FailedCreateMayLand(c: Crypto, w: World, i: nat)
    requires i < |w.daemons| && w.daemons[i].pc.Putting?
    ensures var m, body := Step(c, w, TryCreate(i, true)), c.marshal(w.daemons[i].pc.sidecar);
            && m.register == w.register && m.daemons[i] == Daemon(w.daemons[i].local, Idle)
            && Step(c, m, Land(body)).register == if w.register.None? then Some(body) else w.register
  {}

  /** The sidecar as a store that keeps objects under keys holds it. */
  function Register(objects: map<string, Bytes>, key: string): Option<Bytes> {
    if key in objects then Some(objects[key]) else None
  }

  /**
   * Every access of the protocol to its register is one call of the in-memory store: fetches are `blobGet`, creates and
   * late writes are `blobPutIfNotExists`. Other objects are left alone.
   */
  method StepInStore(c: Crypto, w: World, a: Action, store: MemStore, key: string) returns (w': World)
    requires Register(store.objects, key) == w.register
    modifies store
    ensures w' == Step(c, w, a) && Register(store.objects, key) == w'.register
    ensures forall k | k != key :: Register(store.objects, k) == Register(old(store.objects), k)
  {
    match a
    case Fetch(i, fails, draw) =>
      var got := store.BlobGet(key);
      var d := if i < |w.daemons| then w.daemons[i] else Daemon(Local(false, [], false, [], []), Idle);
      if d.pc.Fetching? {
        var next := AfterFetch(c, if fails then FetchFailed else got, d.local.password, d.pc.opts, draw);
        w' := w.(daemons := w.daemons[i := Proceed(d, next, d.pc.opts)]);
      } else {
        w' := w;
      }
    case Refetch(i, fails) =>
      var got := store.BlobGet(key);
      var d := if i < |w.daemons| then w.daemons[i] else Daemon(Local(false, [], false, [], []), Idle);
      if d.pc.Refetching? {
        var next := AfterRefetch(c, if fails then FetchFailed else got, d.local.password);
        w' := w.(daemons := w.daemons[i := Proceed(d, next, d.pc.opts)]);
      } else {
        w' := w;
      }
    case TryCreate(i, fails) =>
      var d := if i < |w.daemons| then w.daemons[i] else Daemon(Local(false, [], false, [], []), Idle);
      if d.pc.Putting? {
        var body := c.marshal(d.pc.sidecar);
        var answer := PutFailed;
        if !fails {
          answer := store.BlobPutIfNotExists(key, body);
        }
        var register := if answer.Created? then Some(body) else w.register;
        w' := World(register, if fails then w.inflight + {body} else w.inflight,
                    w.daemons[i := Proceed(d, AfterPut(answer, d.pc.kek, d.pc.sidecar), d.pc.opts)]);
      } else {
        w' := w;
      }
    case Land(body) =>
      w' := w;
      if body in w.inflight {
        var answer := store.BlobPutIfNotExists(key, body);
        if answer.Created? {
          w' := w.(register := Some(body));
        }
      }
    case _ => w' := Step(c, w, a);
  }

  // ----- runs --------------------------------------------------------------------------------------

  function Run(c: Crypto, w: World, acts: seq<Action>): World
    decreases |acts|
  {
    if acts == [] then w else Run(c, Step(c, w, acts[0]), acts[1..])
  }

  ghost predicate RunOk(c: Crypto, w: World, acts: seq<Action>, boots: set<Boot>)
    decreases |acts|
  {
    acts != [] ==> ActionOk(w, acts[0], boots) && RunOk(c, Step(c, w, acts[0]), acts[1..], boots)
  }

  /** Any bucket, with or without a sidecar, and daemons that have just started. */
  ghost predicate Initial(w: World) {
    forall i | 0 <= i < |w.daemons| :: w.daemons[i].pc.Idle? && !w.daemons[i].local.initialised
  }

  lemma {:induction false} RunKeepsWorld(c: Crypto, boots: set<Boot>, w: World, acts: seq<Action>)
    requires Ideal(c, boots) && WorldOk(c, w) && RunOk(c, w, acts, boots)
    ensures WorldOk(c, Run(c, w, acts)) && (w.register.Some? ==> Run(c, w, acts).register == w.register)
    decreases |acts|
  {
    if acts != [] {
      StepKeepsWorld(c, boots, w, acts[0]);
      WrittenOnce(c, w, acts[0]);
      RunKeepsWorld(c, boots, Step(c, w, acts[0]), acts[1..]);
    }
  }

  /**
   * Keystore agreement: in every interleaving of any number of daemons, with whatever passwords, failures, restarts and
   * late writes, all daemons that have succeeded hold the same key and the same keystore identifier.
   */
  lemma {:induction false} Agreement(c: Crypto, boots: set<Boot>, w: World, acts: seq<Action>, i: nat, j: nat)
    requires Ideal(c, boots) && Initial(w) && RunOk(c, w, acts, boots)
    requires var end := Run(c, w, acts);
             && i < |end.daemons| && j < |end.daemons|
             && end.daemons[i].local.initialised && end.daemons[j].local.initialised
    ensures var end := Run(c, w, acts);
            end.daemons[i].local.kek == end.daemons[j].local.kek && end.daemons[i].local.uuid == end.daemons[j].local.uuid
  {
    RunKeepsWorld(c, boots, w, acts);
    var end := Run(c, w, acts);
    var a, b := end.daemons[i], end.daemons[j];
    assert DaemonOk(c, end.register, a) && DaemonOk(c, end.register, b);
    OneKeyPerSidecar(c, boots, end.register.value, a.local.kek, a.local.uuid, b.local.kek, b.local.uuid);
  }

  /** What one daemon encrypts the others decrypt, and they find their own keystore identifier in its header. */
  method OthersDecrypt(c: Crypto, ghost boots: set<Boot>, w: World, acts: seq<Action>, i: nat, j: nat, v: Vault, k: nat,
                       encLens: seq<nat>, decLens: seq<nat>) returns (header: Result<Header>, recovered: Bytes)
    requires OneCipher(c, boots, v) && Initial(w) && RunOk(c, w, acts, boots)
    requires var end := Run(c, w, acts);
             && i < |end.daemons| && j < |end.daemons|
             && end.daemons[i].local.initialised && end.daemons[j].local.initialised
             && v.kek == end.daemons[i].local.kek && k < |v.files| && v.files[k].uuid == end.daemons[i].local.uuid
    requires Useful(encLens) > EncryptedSize(|v.files[k].plain|) && Useful(decLens) > |v.files[k].plain|
    ensures header.Ok? && header.value.uuid == Run(c, w, acts).daemons[j].local.uuid
    ensures recovered == v.files[k].plain
  {
    AeadIsIdeal(c, boots, v);
    Agreement(c, boots, w, acts, i, j);
    var end := Run(c, w, acts);
    var sealed, sent := EncryptAll(c.seal, end.daemons[i].local.kek, v.files[k], false, encLens);
    header := PeekGenuine(c.open, end.daemons[j].local.kek, sealed, c.seal, v, k);
    var eof;
    ghost var owner;
    recovered, eof, owner := DecryptAll(c.open, Source(sealed, false), decLens, c.seal, v.(kek := end.daemons[j].local.kek), Some(k));
  }
}
