/**
 * The keystore sidecar and its bring-up (cbcrypto/keystore/keystore.go, objectstore/encryption.go). The key derivation,
 * the cipher and the YAML codec are parameters.
 */
module Keystore {
  import opened Common
  import opened Format
  import opened Aead
  import opened Base64

  const VERSION := 1
  const ALGORITHM := "argon2id"
  const SALT_SIZE := 32
  const VERIFIER_SIZE := 16

  datatype Params = Params(time: nat, memoryKiB: nat, threads: nat)

  const DEFAULT_PARAMS := Params(3, 64 * 1024, 4)

  datatype Sidecar = Sidecar(version: int, uuid: string, algorithm: string, params: Params, salt: string, nonce: string,
                             ciphertext: string)

  /** What one bootstrap draws at random. */
  datatype Draw = Draw(salt: Bytes, uuid: Bytes, nonce: Bytes)
  {
    predicate Sized() {
      |salt| == SALT_SIZE && |uuid| == UUID_SIZE && |nonce| == NONCE_SIZE
    }
  }

  /** The foreign functions: cipher, key derivation from (password, salt, params), YAML. */
  datatype Crypto = Crypto(seal: SealFn, open: OpenFn, kdf: (Bytes, Bytes, Params) -> Bytes, marshal: Sidecar -> Bytes,
                           unmarshal: Bytes -> Option<Sidecar>)

  // ----- the byte accessors and validation ---------------------------------------------------------

  function Exactly(field: string, size: nat): Result<Bytes> {
    var raw := Decode(field);
    if raw.Ok? && |raw.value| == size then raw else Err
  }

  function UuidBytes(s: Sidecar): Result<Bytes> {
    Exactly(s.uuid, UUID_SIZE)
  }

  function SaltBytes(s: Sidecar): Result<Bytes> {
    var raw := Decode(s.salt);
    if raw.Ok? && |raw.value| >= 16 then raw else Err
  }

  function NonceBytes(s: Sidecar): Result<Bytes> {
    Exactly(s.nonce, NONCE_SIZE)
  }

  function CiphertextBytes(s: Sidecar): Result<Bytes> {
    Exactly(s.ciphertext, VERIFIER_SIZE + TAG)
  }

  predicate Validates(s: Sidecar) {
    && s.version == VERSION && s.algorithm == ALGORITHM
    && s.params.time != 0 && s.params.memoryKiB != 0 && s.params.threads != 0
    && UuidBytes(s).Ok? && SaltBytes(s).Ok? && NonceBytes(s).Ok? && CiphertextBytes(s).Ok?
  }

  /** `NewWithParams` with the default parameters. */
  function New(c: Crypto, password: Bytes, d: Draw): Result<(Bytes, Sidecar)> {
    if password == [] then Err
    else
      var kek := c.kdf(password, d.salt, DEFAULT_PARAMS);
      Ok((kek, Sidecar(VERSION, Encode(d.uuid), ALGORITHM, DEFAULT_PARAMS, Encode(d.salt), Encode(d.nonce),
                       Encode(c.seal(kek, d.nonce, VERIFIER)))))
  }

  /** `DeriveAndVerify` */
  function DeriveAndVerify(c: Crypto, s: Sidecar, password: Bytes): Result<Bytes> {
    var salt, nonce, ct := SaltBytes(s), NonceBytes(s), CiphertextBytes(s);
    if password == [] || salt.Err? || nonce.Err? || ct.Err? then Err
    else
      var kek := c.kdf(password, salt.value, s.params);
      if c.open(kek, nonce.value, ct.value) == Some(VERIFIER) then Ok(kek) else Err
  }

  /** `verifySidecar` */
  function VerifySidecar(c: Crypto, body: Bytes, password: Bytes): Result<(Bytes, Sidecar)> {
    match c.unmarshal(body)
    case None => Err
    case Some(s) =>
      if !Validates(s) then Err
      else
        var kek := DeriveAndVerify(c, s, password);
        if kek.Err? || |kek.value| != KEK_SIZE then Err else Ok((kek.value, s))
  }

  ghost predicate Derived(c: Crypto, kek: Bytes) {
    exists password, salt, params :: kek == c.kdf(password, salt, params)
  }

  /** A key and an identifier that belong to a sidecar body. */
  ghost predicate Holds(c: Crypto, body: Bytes, kek: Bytes, uuid: Bytes) {
    match c.unmarshal(body)
    case None => false
    case Some(s) =>
      && Derived(c, kek) && UuidBytes(s) == Ok(uuid)
      && NonceBytes(s).Ok? && CiphertextBytes(s).Ok?
      && c.open(kek, NonceBytes(s).value, CiphertextBytes(s).value) == Some(VERIFIER)
  }

  /** A password and a draw that a daemon bootstraps with. */
  datatype Boot = Boot(password: Bytes, draw: Draw)
  {
    function Key(c: Crypto): Bytes {
      c.kdf(password, draw.salt, DEFAULT_PARAMS)
    }
  }

  /**
   * What the bring-up needs of the foreign functions, `boots` being every bootstrap of the run: a codec that reads back
   * what it wrote, nonces that do not repeat, and an ideal cipher, under which a verifier opens with a derived key
   * exactly if a bootstrap sealed it under that key and nonce.
   */
  ghost predicate Ideal(c: Crypto, boots: set<Boot>) {
    && Lengthens(c.seal)
    && (forall s :: c.unmarshal(c.marshal(s)) == Some(s))
    && (forall x, y | x in boots && y in boots :: x.draw.nonce == y.draw.nonce ==> x == y)
    && (forall x | x in boots :: x.draw.Sized())
    && (forall k, n, ct :: Derived(c, k) ==>
          (c.open(k, n, ct) == Some(VERIFIER) <==> exists x :: x in boots && k == x.Key(c) && n == x.draw.nonce && ct == c.seal(k, n, VERIFIER)))
  }

  /** One cipher for everything: the vault lists the verifiers of all bootstraps, and no content key is a derived key. */
  ghost predicate OneCipher(c: Crypto, boots: set<Boot>, v: Vault) {
    && IdealAead(c.seal, c.open, v) && Fresh(v)
    && v.verifiers == (set x | x in boots :: Slot(x.Key(c), x.draw.nonce))
    && (forall i | 0 <= i < |v.files| :: !Derived(c, v.files[i].cek))
    && (forall s :: c.unmarshal(c.marshal(s)) == Some(s))
    && (forall x, y | x in boots && y in boots :: x.draw.nonce == y.draw.nonce ==> x == y)
    && (forall x | x in boots :: x.draw.Sized())
  }

  /** The ideal cipher of the file format is ideal for the bring-up too. */
  lemma AeadIsIdeal(c: Crypto, boots: set<Boot>, v: Vault)
    requires OneCipher(c, boots, v)
    ensures Ideal(c, boots)
  {
    forall k, n, ct | Derived(c, k)
      ensures c.open(k, n, ct) == Some(VERIFIER) <==>
              exists x :: x in boots && k == x.Key(c) && n == x.draw.nonce && ct == c.seal(k, n, VERIFIER)
    {
      if c.open(k, n, ct) == Some(VERIFIER) {
        assert WasSealed(v, k, n, VERIFIER);
        assert Slot(k, n) in v.verifiers;
      }
      if x :| x in boots && k == x.Key(c) && n == x.draw.nonce && ct == c.seal(k, n, VERIFIER) {
        assert Slot(x.Key(c), x.draw.nonce) in v.verifiers;
        assert WasSealed(v, k, n, VERIFIER);
      }
    }
  }

  /** A fresh sidecar passes validation, and its key and identifier belong to it. */
  lemma NewHolds(c: Crypto, boots: set<Boot>, password: Bytes, d: Draw)
    requires Ideal(c, boots) && Boot(password, d) in boots && password != []
    ensures var (kek, s) := New(c, password, d).value;
            Validates(s) && UuidBytes(s) == Ok(d.uuid) && Holds(c, c.marshal(s), kek, d.uuid)
  {
    var (kek, s) := New(c, password, d).value;
    Base64RoundTrip(d.uuid);
    Base64RoundTrip(d.salt);
    Base64RoundTrip(d.nonce);
    Base64RoundTrip(c.seal(kek, d.nonce, VERIFIER));
    assert Boot(password, d).draw.Sized() && kek == Boot(password, d).Key(c);
  }

  /** The password that made a sidecar opens it again, to the same key. */
  lemma NewThenVerify(c: Crypto, boots: set<Boot>, password: Bytes, d: Draw)
    requires Ideal(c, boots) && Boot(password, d) in boots && password != []
    requires |c.kdf(password, d.salt, DEFAULT_PARAMS)| == KEK_SIZE
    ensures var (kek, s) := New(c, password, d).value; VerifySidecar(c, c.marshal(s), password) == Ok((kek, s))
  {
    NewHolds(c, boots, password, d);
    Base64RoundTrip(d.salt);
  }

  /** A password that derives another key from the sidecar's salt does not open it. */
  lemma WrongPasswordFails(c: Crypto, boots: set<Boot>, password: Bytes, d: Draw, other: Bytes)
    requires Ideal(c, boots) && Boot(password, d) in boots && password != []
    requires c.kdf(other, d.salt, DEFAULT_PARAMS) != c.kdf(password, d.salt, DEFAULT_PARAMS)
    ensures VerifySidecar(c, c.marshal(New(c, password, d).value.1), other).Err?
  {
    NewHolds(c, boots, password, d);
    Base64RoundTrip(d.salt);
    Base64RoundTrip(d.nonce);
    var k := c.kdf(other, d.salt, DEFAULT_PARAMS);
    assert Derived(c, k);
    assert forall x | x in boots && x.draw.nonce == d.nonce :: x == Boot(password, d);
  }

  /**
   * Which sidecars a password opens, field by field: version 1, argon2id with parameters that are not zero, an identifier
   * of 16 bytes, a salt of at least 16, a nonce of 12 and a verifier of 32, and a derived key of 32 bytes that opens it.
   */
  lemma VerifyIff(c: Crypto, body: Bytes, password: Bytes, kek: Bytes, s: Sidecar)
    ensures VerifySidecar(c, body, password) == Ok((kek, s)) <==>
            && c.unmarshal(body) == Some(s) && s.version == 1 && s.algorithm == "argon2id"
            && s.params.time != 0 && s.params.memoryKiB != 0 && s.params.threads != 0 && password != []
            && var id, salt, nonce, sealed := Decode(s.uuid), Decode(s.salt), Decode(s.nonce), Decode(s.ciphertext);
               && id.Ok? && |id.value| == 16 && salt.Ok? && |salt.value| >= 16
               && nonce.Ok? && |nonce.value| == 12 && sealed.Ok? && |sealed.value| == 32
               && kek == c.kdf(password, salt.value, s.params) && |kek| == 32
               && c.open(kek, nonce.value, sealed.value) == Some(VERIFIER)
  {}

  lemma VerifiedHolds(c: Crypto, body: Bytes, password: Bytes)
    requires VerifySidecar(c, body, password).Ok?
    ensures var (kek, s) := VerifySidecar(c, body, password).value;
            UuidBytes(s).Ok? && Holds(c, body, kek, UuidBytes(s).value)
  {}

  /** A sidecar has one key and one identifier, whatever passwords they were derived from. */
  lemma OneKeyPerSidecar(c: Crypto, boots: set<Boot>, body: Bytes, k1: Bytes, u1: Bytes, k2: Bytes, u2: Bytes)
    requires Ideal(c, boots) && Holds(c, body, k1, u1) && Holds(c, body, k2, u2)
    ensures k1 == k2 && u1 == u2
  {
    var s := c.unmarshal(body).value;
    var n := NonceBytes(s).value;
    var x :| x in boots && k1 == x.Key(c) && n == x.draw.nonce;
    var y :| y in boots && k2 == y.Key(c) && n == y.draw.nonce;
    assert x == y;
  }

  // ----- one bring-up ------------------------------------------------------------------------------

  datatype Options = Options(allowBootstrap: bool, hasEncryptedFiles: bool)

  /** What the bucket answers to a fetch, and to a conditional create. */
  datatype Fetched = Missing | Found(body: Bytes) | FetchFailed
  datatype Put = Created | Conflict | PutFailed

  /** What a bring-up does next: it ends, or it tries to create the sidecar, or it adopts the winner's. */
  datatype Next = Return(result: Result<(Bytes, Sidecar)>) | Create(kek: Bytes, sidecar: Sidecar) | Adopt

  function AfterFetch(c: Crypto, a: Fetched, password: Bytes, opts: Options, d: Draw): Next {
    match a
    case Found(body) => Return(VerifySidecar(c, body, password))
    case FetchFailed => Return(Err)
    case Missing =>
      if !opts.allowBootstrap || opts.hasEncryptedFiles then Return(Err)
      else match New(c, password, d)
        case Err => Return(Err)
        case Ok((kek, s)) => Create(kek, s)
  }

  function AfterPut(p: Put, kek: Bytes, s: Sidecar): Next {
    match p case Created => Return(Ok((kek, s))) case Conflict => Adopt case PutFailed => Return(Err)
  }

  function AfterRefetch(c: Crypto, a: Fetched, password: Bytes): Next {
    match a case Found(body) => Return(VerifySidecar(c, body, password)) case _ => Return(Err)
  }

  /** `runEncryptionInit`, given the answers it receives. */
  function RunInit(c: Crypto, password: Bytes, opts: Options, d: Draw, a: Fetched, p: Put, again: Fetched)
    : Result<(Bytes, Sidecar)>
  {
    if password == [] then Err
    else match AfterFetch(c, a, password, opts, d)
      case Return(r) => r
      case Create(kek, s) =>
        (match AfterPut(p, kek, s) case Return(r) => r case _ => AfterRefetch(c, again, password).result)
      case Adopt => Err
  }

  /**
   * When a bring-up succeeds, and with what: with the sidecar that is there if the password opens it; else, where creating
   * one is allowed and no encrypted file is on record, with its own new one if it was created, or with the winner's if
   * another daemon's came first and the password opens that.
   */
  lemma InitResult(c: Crypto, password: Bytes, opts: Options, d: Draw, a: Fetched, p: Put, again: Fetched)
    ensures var r := RunInit(c, password, opts, d, a, p, again);
            var may := password != [] && opts.allowBootstrap && !opts.hasEncryptedFiles;
            && (a.Found? && password != [] ==> r == VerifySidecar(c, a.body, password))
            && (a.Missing? && may && p.Created? ==> r == New(c, password, d) && r.Ok?)
            && (a.Missing? && may && p.Conflict? && again.Found? ==> r == VerifySidecar(c, again.body, password))
            && (r.Ok? ==> password != [] && (a.Found? || (a.Missing? && may && (p.Created? || (p.Conflict? && again.Found?)))))
  {}

  /** The key and the identifier that a bring-up obtains. */
  function Obtain(c: Crypto, password: Bytes, opts: Options, d: Draw, a: Fetched, p: Put, again: Fetched)
    : Result<(Bytes, Bytes)>
  {
    var r := RunInit(c, password, opts, d, a, p, again);
    if r.Err? || UuidBytes(r.value.1).Err? then Err else Ok((r.value.0, UuidBytes(r.value.1).value))
  }

  /** The sidecar that a bootstrap with this password and these draws writes. */
  function Written(c: Crypto, password: Bytes, d: Draw): Bytes
    requires password != []
  {
    c.marshal(New(c, password, d).value.1)
  }

  /** A password opens the sidecar it made, with the identifier that was drawn for it. */
  lemma WrittenOpens(c: Crypto, boots: set<Boot>, password: Bytes, d: Draw)
    requires Ideal(c, boots) && password != [] && Boot(password, d) in boots && |c.kdf(password, d.salt, DEFAULT_PARAMS)| == KEK_SIZE
    ensures var r := VerifySidecar(c, Written(c, password, d), password);
            r.Ok? && r.value.0 == c.kdf(password, d.salt, DEFAULT_PARAMS) && UuidBytes(r.value.1) == Ok(d.uuid)
  {
    NewThenVerify(c, boots, password, d);
    NewHolds(c, boots, password, d);
  }

  /**
   * A daemon that finds the sidecar that its password made, at once or after losing the race for it, obtains that sidecar's
   * key and identifier.
   */
  lemma ObtainsWinner(c: Crypto, boots: set<Boot>, password: Bytes, opts: Options, d: Draw, p: Put, again: Fetched, winner: Draw)
    requires Ideal(c, boots) && password != [] && Boot(password, winner) in boots && |c.kdf(password, winner.salt, DEFAULT_PARAMS)| == KEK_SIZE
    ensures var found, mine := Found(Written(c, password, winner)), Ok((c.kdf(password, winner.salt, DEFAULT_PARAMS), winner.uuid));
            && Obtain(c, password, opts, d, found, p, again) == mine
            && (opts.allowBootstrap && !opts.hasEncryptedFiles ==> Obtain(c, password, opts, d, Missing, Conflict, found) == mine)
  {
    WrittenOpens(c, boots, password, winner);
    InitResult(c, password, opts, d, Found(Written(c, password, winner)), p, again);
    InitResult(c, password, opts, d, Missing, Conflict, Found(Written(c, password, winner)));
  }

  /** A daemon that creates the sidecar obtains the key and the identifier it drew; one that may not obtains nothing. */
  lemma ObtainsOwn(c: Crypto, boots: set<Boot>, password: Bytes, opts: Options, d: Draw, p: Put, again: Fetched)
    requires Ideal(c, boots) && password != [] && Boot(password, d) in boots
    ensures opts.allowBootstrap && !opts.hasEncryptedFiles ==>
              Obtain(c, password, opts, d, Missing, Created, again) == Ok((c.kdf(password, d.salt, DEFAULT_PARAMS), d.uuid))
    ensures !opts.allowBootstrap || opts.hasEncryptedFiles ==> Obtain(c, password, opts, d, Missing, p, again).Err?
  {
    NewHolds(c, boots, password, d);
    InitResult(c, password, opts, d, Missing, Created, again);
    InitResult(c, password, opts, d, Missing, p, again);
  }

  /** `encryptionState` */
  class EncryptionState {
    var enabled: bool
    var password: array?<Byte>
    var kek: Bytes
    var uuid: Bytes
    var initialised: bool

    constructor (enabled: bool, password: array<Byte>)
      ensures this.enabled == enabled && this.password == password && !initialised && kek == [] && uuid == []
    {
      this.enabled, this.password, initialised, kek, uuid := enabled, password, false, [], [];
    }

    ghost function Secret(): Bytes
      reads this, password
    {
      if password == null then [] else password[..]
    }

    /**
     * `initEncryption`: does nothing when disabled or already done; a failure changes nothing, so the call can be
     * repeated; success stores the key and the identifier and wipes the password.
     */
    method InitEncryption(c: Crypto, opts: Options, d: Draw, a: Fetched, p: Put, again: Fetched) returns (ok: bool)
      modifies this, password
      ensures var r := Obtain(c, old(Secret()), opts, d, a, p, again);
              var due := old(enabled) && !old(initialised);
              && enabled == old(enabled)
              && ok == (due ==> r.Ok?)
              && (due && r.Ok? ==> initialised && (kek, uuid) == r.value && password == null)
              && (!(due && r.Ok?) ==>
                    && (initialised, kek, uuid, password) == (old(initialised), old(kek), old(uuid), old(password))
                    && Secret() == old(Secret()))
      ensures ok && old(enabled) && !old(initialised) && old(password) != null ==>
                forall i | 0 <= i < old(password).Length :: old(password)[i] == 0
    {
      if !enabled || initialised {
        return true;
      }
      var secret := if password == null then [] else password[..];
      var r := Obtain(c, secret, opts, d, a, p, again);
      if r.Err? {
        return false;
      }
      kek, uuid, initialised := r.value.0, r.value.1, true;
      if password != null {
        Wipe(password);
      }
      password := null;
      return true;
    }
  }

  /** The loop that overwrites the password. */
  method Wipe(secret: array<Byte>)
    modifies secret
    ensures forall i | 0 <= i < secret.Length :: secret[i] == 0
  {
    for i := 0 to secret.Length
      invariant forall j | 0 <= j < i :: secret[j] == 0
    {
      secret[i] := 0;
    }
  }

  /** The in-memory store, whose mutex makes each of these calls one atomic step (objectstore/store_test_null.go). */
  class MemStore {
    var objects: map<string, Bytes>

    constructor ()
      ensures objects == map[]
    {
      objects := map[];
    }

    method BlobGet(key: string) returns (r: Fetched)
      ensures r == if key in objects then Found(objects[key]) else Missing
    {
      r := if key in objects then Found(objects[key]) else Missing;
    }

    /** Whoever comes first wins: the object under a key is what the first of these calls put there. */
    method BlobPutIfNotExists(key: string, body: Bytes) returns (r: Put)
      modifies this
      ensures r == if key in old(objects) then Conflict else Created
      ensures key in objects && (r.Conflict? ==> objects == old(objects)) && (r.Created? ==> objects[key] == body)
      ensures forall k | k in old(objects) :: k in objects && objects[k] == old(objects)[k]
      ensures forall k | k in objects :: k in old(objects) || k == key
    {
      if key in objects {
        return Conflict;
      }
      objects := objects[key := body];
      return Created;
    }
  }
}
