/**
 * The abstract authenticated cipher (sections 2.1, 2.2 and 5.2 of RFC 5116) and what has been sealed with it.
 *
 * `seal` is any function of (key, nonce, plaintext) that adds a tag. `open` is ideal: it succeeds only on a
 * ciphertext that was really sealed under that key and nonce. "Really sealed" is read off a `Vault`, which lists
 * every file ever encrypted under one key-encryption key.
 */
module Aead {
  import opened Common
  import opened Format

  type SealFn = (Bytes, Bytes, Bytes) -> Bytes
  type OpenFn = (Bytes, Bytes, Bytes) -> Option<Bytes>

  /** The secrets drawn for one encrypted file, and its plaintext. */
  datatype File = File(cek: Bytes, wrapNonce: Bytes, prefix: Bytes, uuid: Bytes, plain: Bytes)
  {
    predicate Sized() {
      |cek| == CEK_SIZE && |wrapNonce| == NONCE_SIZE && |prefix| == PREFIX_SIZE && |uuid| == UUID_SIZE
    }

    /** The counter field can number every chunk. */
    predicate Countable() {
      NumChunks(|plain|) <= MAX_CHUNK_COUNTER + 1
    }
  }

  /**
   * Everything that was ever sealed: the content keys of all files under one KEK, the chunks of those files, and keystore
   * verifiers (16 zero bytes) under the listed keys and nonces.
   */
  datatype Vault = Vault(kek: Bytes, verifiers: set<Slot>, files: seq<File>)

  /** A nonce used under a key. */
  datatype Slot = Slot(key: Bytes, nonce: Bytes)

  const VERIFIER: Bytes := [0, 0, 0, 0, 0, 0, 0, 0, 0, 0, 0, 0, 0, 0, 0, 0]

  function NumChunks(n: nat): (c: nat)
    ensures c >= 1
  {
    if n == 0 then 1 else (n + CHUNK - 1) / CHUNK
  }

  /** How much of the plaintext the first `c` chunks cover. */
  function Covered(plain: Bytes, c: nat): nat {
    if c * CHUNK <= |plain| then c * CHUNK else |plain|
  }

  /** Chunk number `i`: CHUNK bytes, except that the last one holds what is left. */
  function Chunk(plain: Bytes, i: nat): Bytes
    requires i < NumChunks(|plain|)
  {
    plain[i * CHUNK..Covered(plain, i + 1)]
  }

  function IsLast(plain: Bytes, i: nat): bool {
    i == NumChunks(|plain|) - 1
  }

  ghost predicate Lengthens(seal: SealFn) {
    forall k, n, p :: |seal(k, n, p)| == |p| + TAG
  }

  /** Random keys and wrapping nonces did not repeat. */
  ghost predicate Fresh(v: Vault) {
    && |v.kek| == KEK_SIZE
    && (forall i | 0 <= i < |v.files| :: v.files[i].Sized() && v.files[i].Countable() && v.files[i].cek != v.kek)
    && (forall i, j | 0 <= i < j < |v.files| ::
          v.files[i].cek != v.files[j].cek && v.files[i].wrapNonce != v.files[j].wrapNonce)
    && (forall i | 0 <= i < |v.files| :: Slot(v.kek, v.files[i].wrapNonce) !in v.verifiers)
    && (forall i, x | 0 <= i < |v.files| && x in v.verifiers :: x.key != v.files[i].cek)
  }

  ghost predicate ChunkSealed(f: File, n: Bytes, p: Bytes, i: nat) {
    && i < NumChunks(|f.plain|)
    && n == Nonce(f.prefix, i, IsLast(f.plain, i))
    && p == Chunk(f.plain, i)
  }

  /** `p` was sealed under key `k` and nonce `n`. */
  ghost predicate WasSealed(v: Vault, k: Bytes, n: Bytes, p: Bytes) {
    || (Slot(k, n) in v.verifiers && p == VERIFIER)
    || (k == v.kek && exists i :: 0 <= i < |v.files| && v.files[i].wrapNonce == n && p == v.files[i].cek)
    || (exists i, c: nat :: 0 <= i < |v.files| && v.files[i].cek == k && ChunkSealed(v.files[i], n, p, c))
  }

  ghost predicate IdealAead(seal: SealFn, open: OpenFn, v: Vault) {
    && Lengthens(seal)
    && forall k, n, c, p :: open(k, n, c) == Some(p) <==> WasSealed(v, k, n, p) && seal(k, n, p) == c
  }

  /** No nonce was used twice under one key: at most one plaintext was sealed under a (key, nonce) pair. */
  lemma SealedOnce(v: Vault, k: Bytes, n: Bytes, p: Bytes, q: Bytes)
    requires Fresh(v) && WasSealed(v, k, n, p) && WasSealed(v, k, n, q)
    ensures p == q
  {
    if k != v.kek && Slot(k, n) !in v.verifiers {
      var i, c: nat :| 0 <= i < |v.files| && v.files[i].cek == k && ChunkSealed(v.files[i], n, p, c);
      var j, d: nat :| 0 <= j < |v.files| && v.files[j].cek == k && ChunkSealed(v.files[j], n, q, d);
      assert i == j;
      var f := v.files[i];
      NonceInjective(f.prefix, c, IsLast(f.plain, c), f.prefix, d, IsLast(f.plain, d));
    }
  }

  /** The ideal cipher exists for every vault, so assuming it assumes nothing impossible. */
  lemma IdealOpenExists(seal: SealFn, v: Vault) returns (open: OpenFn)
    requires Fresh(v) && Lengthens(seal)
    ensures IdealAead(seal, open, v)
  {
    open := (k, n, c) =>
      if exists p :: WasSealed(v, k, n, p) && seal(k, n, p) == c
      then var p :| WasSealed(v, k, n, p) && seal(k, n, p) == c; Some(p)
      else None;
    forall k, n, c, p
      ensures open(k, n, c) == Some(p) <==> WasSealed(v, k, n, p) && seal(k, n, p) == c
    {
      if WasSealed(v, k, n, p) && seal(k, n, p) == c {
        SealedOnce(v, k, n, open(k, n, c).value, p);
      }
    }
  }

  /** A wrapped content key that opens is the wrapped key of one file in the vault. */
  lemma UnwrapFindsFile(seal: SealFn, open: OpenFn, v: Vault, n: Bytes, c: Bytes) returns (i: nat)
    requires Fresh(v) && IdealAead(seal, open, v)
    requires |c| == WRAPPED_SIZE && open(v.kek, n, c).Some?
    ensures i < |v.files| && v.files[i].wrapNonce == n && open(v.kek, n, c) == Some(v.files[i].cek)
  {
    var p := open(v.kek, n, c).value;
    assert WasSealed(v, v.kek, n, p) && seal(v.kek, n, p) == c;
    assert |p| == CEK_SIZE;
    i :| 0 <= i < |v.files| && v.files[i].wrapNonce == n && p == v.files[i].cek;
  }

  /** A chunk that opens under a file's key is a genuine chunk, at its genuine place in that file. */
  lemma OpenedChunkIsGenuine(seal: SealFn, open: OpenFn, v: Vault, i: nat, prefix: Bytes, counter: nat, last: bool,
                             c: Bytes)
    requires Fresh(v) && IdealAead(seal, open, v) && i < |v.files|
    requires |prefix| == PREFIX_SIZE && counter <= MAX_CHUNK_COUNTER
    requires open(v.files[i].cek, Nonce(prefix, counter, last), c).Some?
    ensures var f := v.files[i];
            && prefix == f.prefix && counter < NumChunks(|f.plain|) && last == IsLast(f.plain, counter)
            && open(f.cek, Nonce(prefix, counter, last), c) == Some(Chunk(f.plain, counter))
  {
    var f, n := v.files[i], Nonce(prefix, counter, last);
    var p := open(f.cek, n, c).value;
    assert WasSealed(v, f.cek, n, p);
    var j, d: nat :| 0 <= j < |v.files| && v.files[j].cek == f.cek && ChunkSealed(v.files[j], n, p, d);
    assert j == i;
    NonceInjective(prefix, counter, last, f.prefix, d, IsLast(f.plain, d));
  }

  /** Sealing followed by opening, for the content key of a file in the vault. */
  lemma GenuineKeyOpens(seal: SealFn, open: OpenFn, v: Vault, i: nat)
    requires IdealAead(seal, open, v) && i < |v.files|
    ensures var f := v.files[i]; open(v.kek, f.wrapNonce, seal(v.kek, f.wrapNonce, f.cek)) == Some(f.cek)
  {
    var f := v.files[i];
    assert WasSealed(v, v.kek, f.wrapNonce, f.cek);
  }

  /** Sealing followed by opening, for a chunk of a file in the vault. */
  lemma GenuineChunkOpens(seal: SealFn, open: OpenFn, v: Vault, i: nat, c: nat)
    requires IdealAead(seal, open, v) && i < |v.files| && c < NumChunks(|v.files[i].plain|)
    ensures var f := v.files[i];
            var n := Nonce(f.prefix, c, IsLast(f.plain, c));
            open(f.cek, n, seal(f.cek, n, Chunk(f.plain, c))) == Some(Chunk(f.plain, c))
  {
    var f := v.files[i];
    var n := Nonce(f.prefix, c, IsLast(f.plain, c));
    assert ChunkSealed(f, n, Chunk(f.plain, c), c);
    assert WasSealed(v, f.cek, n, Chunk(f.plain, c));
  }
}
