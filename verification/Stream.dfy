/** The encrypting and decrypting readers (cbcrypto/reader.go). */
module Stream {
  import opened Common
  import opened Format
  import opened Aead

  /** An `io.Reader`: it delivers `rest` and then reports end of input, or an error when `broken`. */
  datatype Source = Source(rest: Bytes, broken: bool)

  /** What one call of `Read` returns. */
  datatype ReadResult = Data(bytes: Bytes) | Eof | Error

  /**
   * `readFullOrEOF` for `n` bytes followed by `Peek(1)`: the bytes read, and whether the input ended with them.
   * The error of a broken source shows as soon as either call reaches its end.
   */
  function NextBlock(src: Source, n: nat): Result<(Bytes, bool)> {
    if |src.rest| > n then Ok((src.rest[..n], false))
    else if src.broken then Err
    else Ok((src.rest, true))
  }

  /** The input that reading a block of `n` bytes leaves, whatever its outcome. */
  function AfterBlock(src: Source, n: nat): Source {
    src.(rest := if |src.rest| > n then src.rest[n..] else [])
  }

  // ----- the stream as a value ---------------------------------------------------------------

  function HeaderOf(seal: SealFn, kek: Bytes, f: File): Header {
    Header(1, f.uuid, f.wrapNonce, seal(kek, f.wrapNonce, f.cek), f.prefix, CHUNK)
  }

  function SealedChunk(seal: SealFn, f: File, c: nat): Bytes
    requires c < NumChunks(|f.plain|)
  {
    seal(f.cek, Nonce(f.prefix, c, IsLast(f.plain, c)), Chunk(f.plain, c))
  }

  /** Every sealed chunk from number `c` on. */
  function BodyFrom(seal: SealFn, f: File, c: nat): Bytes
    decreases NumChunks(|f.plain|) - c
  {
    if c >= NumChunks(|f.plain|) then [] else SealedChunk(seal, f, c) + BodyFrom(seal, f, c + 1)
  }

  ghost predicate Usable(seal: SealFn, kek: Bytes, f: File) {
    Lengthens(seal) && f.Sized() && |kek| == KEK_SIZE
  }

  /** The whole encrypted object. */
  ghost function Encrypted(seal: SealFn, kek: Bytes, f: File): Bytes
    requires Usable(seal, kek, f)
  {
    Marshal(HeaderOf(seal, kek, f)) + BodyFrom(seal, f, 0)
  }

  /** The chunks partition the plaintext, and only the last one is short. */
  lemma ChunkFacts(plain: Bytes, c: nat)
    requires c < NumChunks(|plain|)
    ensures Covered(plain, c) == c * CHUNK <= |plain|
    ensures var rest := plain[Covered(plain, c)..];
            && (IsLast(plain, c) <==> |rest| <= CHUNK)
            && Chunk(plain, c) == rest[..if |rest| <= CHUNK then |rest| else CHUNK]
            && plain[Covered(plain, c + 1)..] == rest[|Chunk(plain, c)|..]
            && plain[..Covered(plain, c)] + Chunk(plain, c) == plain[..Covered(plain, c + 1)]
    ensures Covered(plain, NumChunks(|plain|)) == |plain|
  {
  }

  /** The encrypted object has exactly the predicted size. */
  lemma {:induction false} BodySize(seal: SealFn, f: File, c: nat)
    requires Lengthens(seal) && c < NumChunks(|f.plain|)
    ensures |BodyFrom(seal, f, c)| == |f.plain| - c * CHUNK + (NumChunks(|f.plain|) - c) * TAG
    decreases NumChunks(|f.plain|) - c
  {
    ChunkFacts(f.plain, c);
    if c + 1 < NumChunks(|f.plain|) {
      BodySize(seal, f, c + 1);
    } else {
      assert BodyFrom(seal, f, c + 1) == [];
    }
  }

  lemma EncryptedSizeExact(seal: SealFn, kek: Bytes, f: File)
    requires Usable(seal, kek, f)
    ensures |Encrypted(seal, kek, f)| == EncryptedSize(|f.plain|)
  {
    BodySize(seal, f, 0);
  }

  /**
   * What the front of an encrypted object tells a reader that knows the format only: it starts with the magic bytes and
   * version 1, and carries the keystore's identifier, the content key sealed under the key-encryption key and its nonce,
   * the prefix of the chunk nonces and the chunk size.
   */
  lemma EncryptedHeader(seal: SealFn, kek: Bytes, f: File)
    requires Usable(seal, kek, f)
    ensures var b := Encrypted(seal, kek, f);
            && |b| >= HEADER_SIZE && b[0..4] == MAGIC && b[4] == 1 && b[8..24] == f.uuid && b[24..36] == f.wrapNonce
            && b[36..84] == seal(kek, f.wrapNonce, f.cek) && b[84..88] == f.prefix && b[88..92] == [0, 1, 0, 0]
    ensures var h := Unmarshal(Encrypted(seal, kek, f)[..HEADER_SIZE]);
            && h.Ok? && h.value.uuid == f.uuid && h.value.wrapNonce == f.wrapNonce && h.value.prefix == f.prefix
            && h.value.wrappedCek == seal(kek, f.wrapNonce, f.cek) && h.value.chunkSize == CHUNK
  {
    var b, m := Encrypted(seal, kek, f), Marshal(HeaderOf(seal, kek, f));
    assert b[..HEADER_SIZE] == m;
    MarshalFields(HeaderOf(seal, kek, f));
    HeaderRoundTrip(HeaderOf(seal, kek, f));
    assert b[0..4] == m[0..4] && b[8..24] == m[8..24] && b[24..36] == m[24..36] && b[36..84] == m[36..84] && b[84..88] == m[84..88]
        && b[88..92] == m[88..92];
  }

  lemma SliceBehind(first: Bytes, later: Bytes, at: nat, size: nat)
    requires at + size <= |later|
    ensures (first + later)[|first| + at..|first| + at + size] == later[at..at + size]
  {}

  lemma FullChunk(plain: Bytes, c: nat)
    requires c + 1 < NumChunks(|plain|)
    ensures |Chunk(plain, c)| == CHUNK
  {
    ChunkFacts(plain, c);
  }

  /** Where a body holds a chunk: so many full sealed chunks from its start. */
  ghost predicate HoldsChunk(seal: SealFn, f: File, body: Bytes, places: nat, k: nat)
    requires k < NumChunks(|f.plain|)
  {
    var at, sealed := places * (CHUNK + TAG), seal(f.cek, Nonce(f.prefix, k, k == NumChunks(|f.plain|) - 1), Chunk(f.plain, k));
    at + |sealed| <= |body| && body[at..at + |sealed|] == sealed
  }

  lemma HoldsFirst(seal: SealFn, f: File, later: Bytes, k: nat)
    requires k < NumChunks(|f.plain|)
    ensures HoldsChunk(seal, f, SealedChunk(seal, f, k) + later, 0, k)
  {
    var first := SealedChunk(seal, f, k);
    assert (first + later)[0..|first|] == first;
  }

  lemma HoldsBehind(seal: SealFn, f: File, first: Bytes, later: Bytes, places: nat, k: nat)
    requires k < NumChunks(|f.plain|) && |first| == CHUNK + TAG && HoldsChunk(seal, f, later, places, k)
    ensures HoldsChunk(seal, f, first + later, places + 1, k)
  {
    var sealed := seal(f.cek, Nonce(f.prefix, k, k == NumChunks(|f.plain|) - 1), Chunk(f.plain, k));
    SliceBehind(first, later, places * (CHUNK + TAG), |sealed|);
  }

  /** The chunks of an object lie behind its header one after the other, each sealed under its own number. */
  lemma {:induction false} ChunkInPlace(seal: SealFn, f: File, c: nat, k: nat)
    requires Lengthens(seal) && c <= k < NumChunks(|f.plain|)
    ensures HoldsChunk(seal, f, BodyFrom(seal, f, c), k - c, k)
    decreases k - c
  {
    if k > c {
      ChunkInPlace(seal, f, c + 1, k);
      FullChunk(f.plain, c);
      HoldsBehind(seal, f, SealedChunk(seal, f, c), BodyFrom(seal, f, c + 1), k - c - 1, k);
    } else {
      HoldsFirst(seal, f, BodyFrom(seal, f, k + 1), k);
    }
  }

  // ----- encrypting --------------------------------------------------------------------------

  /** Reading block after block of CHUNK bytes yields the file's chunks, each flagged as last or not. */
  lemma BlocksAreChunks(plain: Bytes, c: nat, broken: bool)
    requires c < NumChunks(|plain|)
    ensures var src := Source(plain[Covered(plain, c)..], broken);
            && AfterBlock(src, CHUNK).rest == plain[Covered(plain, c + 1)..]
            && (NextBlock(src, CHUNK) ==
                  if broken && IsLast(plain, c) then Err else Ok((Chunk(plain, c), IsLast(plain, c))))
            && (IsLast(plain, c) ==> AfterBlock(src, CHUNK).rest == [])
  {
    ChunkFacts(plain, c);
    var rest := plain[Covered(plain, c)..];
    if IsLast(plain, c) {
      assert rest[..|rest|] == rest && rest[|rest|..] == [];
    }
  }

  /** The fields of an encrypting reader, with what it has handed out and whether it has failed. */
  datatype EncState = EncState(src: Source, counter: nat, header: Bytes, headerEmitted: bool, pendingOut: Bytes,
                               lastEmitted: bool, emitted: Bytes, failed: bool)

  function NewEncState(header: Bytes, plain: Source): EncState {
    EncState(plain, 0, header, false, [], false, [], false)
  }

  /** `encryptNextChunk`: the new state, and whether a chunk was sealed. */
  function SealStep(seal: SealFn, f: File, s: EncState): (EncState, bool) {
    var block := NextBlock(s.src, CHUNK);
    var t := s.(src := AfterBlock(s.src, CHUNK));
    if block.Err? || s.counter > MAX_CHUNK_COUNTER then (t.(failed := true), false)
    else
      var (plain, isLast) := block.value;
      (t.(pendingOut := seal(f.cek, Nonce(f.prefix, s.counter, isLast), plain), counter := s.counter + 1,
          lastEmitted := isLast), true)
  }

  /** Handing out up to `n` bytes of the header. */
  function EmitHeader(s: EncState, n: nat): (EncState, ReadResult) {
    var k := if n < |s.header| then n else |s.header|;
    (s.(emitted := s.emitted + s.header[..k], header := s.header[k..], headerEmitted := k == |s.header|),
     Data(s.header[..k]))
  }

  /** Handing out up to `n` bytes of the sealed chunk. */
  function EmitChunk(s: EncState, n: nat): (EncState, ReadResult) {
    var k := if n < |s.pendingOut| then n else |s.pendingOut|;
    (s.(emitted := s.emitted + s.pendingOut[..k], pendingOut := s.pendingOut[k..]), Data(s.pendingOut[..k]))
  }

  /** `Read` once the header has been handed out. */
  function EncReadBody(seal: SealFn, f: File, s: EncState, n: nat): (EncState, ReadResult)
    decreases if s.counter > MAX_CHUNK_COUNTER then 0 else MAX_CHUNK_COUNTER + 1 - s.counter
  {
    if s.pendingOut != [] then EmitChunk(s, n)
    else if s.lastEmitted then (s, Eof)
    else
      var (t, ok) := SealStep(seal, f, s);
      if ok then EncReadBody(seal, f, t, n) else (t, Error)
  }

  /** One call of `Read` with a buffer of `n` bytes. */
  function EncReadSpec(seal: SealFn, f: File, s: EncState, n: nat): (EncState, ReadResult) {
    if !s.headerEmitted then EmitHeader(s, n) else EncReadBody(seal, f, s, n)
  }

  class EncryptingReader {
    const seal: SealFn
    const cek: Bytes
    const noncePrefix: Bytes
    var src: Source
    var counter: nat
    var header: Bytes
    var headerEmitted: bool
    var pendingOut: Bytes
    var lastEmitted: bool
    ghost const file: File
    /** Everything `Read` has returned so far. */
    ghost var emitted: Bytes
    /** A `Read` has reported an error. */
    ghost var failed: bool

    ghost predicate Valid()
      reads this
    {
      cek == file.cek && noncePrefix == file.prefix && |noncePrefix| == PREFIX_SIZE
    }

    ghost function Now(): EncState
      reads this
    {
      EncState(src, counter, header, headerEmitted, pendingOut, lastEmitted, emitted, failed)
    }

    /** `NewEncryptingReader`, with the random content key and nonces drawn by the caller as part of `f`. */
    constructor (seal: SealFn, kek: Bytes, f: File, broken: bool)
      requires Usable(seal, kek, f)
      ensures Valid() && this.seal == seal && file == f
      ensures Now() == NewEncState(Marshal(HeaderOf(seal, kek, f)), Source(f.plain, broken))
    {
      this.seal, cek, noncePrefix, file := seal, f.cek, f.prefix, f;
      src, counter, header := Source(f.plain, broken), 0, Marshal(HeaderOf(seal, kek, f));
      headerEmitted, pendingOut, lastEmitted, emitted, failed := false, [], false, [], false;
    }

    method Read(n: nat) returns (r: ReadResult)
      requires Valid()
      modifies this
      ensures Valid() && (Now(), r) == EncReadSpec(seal, file, old(Now()), n)
    {
      if !headerEmitted {
        var k := if n < |header| then n else |header|;
        r := Data(header[..k]);
        emitted, header := emitted + header[..k], header[k..];
        headerEmitted := |header| == 0;
        return;
      }
      while true
        invariant Valid() && EncReadBody(seal, file, Now(), n) == EncReadSpec(seal, file, old(Now()), n)
        decreases if counter > MAX_CHUNK_COUNTER then 0 else MAX_CHUNK_COUNTER + 1 - counter
      {
        if |pendingOut| > 0 {
          var k := if n < |pendingOut| then n else |pendingOut|;
          r := Data(pendingOut[..k]);
          emitted, pendingOut := emitted + pendingOut[..k], pendingOut[k..];
          return;
        }
        if lastEmitted {
          return Eof;
        }
        var ok := EncryptNextChunk();
        if !ok {
          return Error;
        }
      }
    }

    method EncryptNextChunk() returns (ok: bool)
      requires Valid()
      modifies this
      ensures Valid() && (Now(), ok) == SealStep(seal, file, old(Now()))
    {
      var chunk := NextBlock(src, CHUNK);
      src := AfterBlock(src, CHUNK);
      if chunk.Err? {
        failed := true;
        return false;
      }
      var (plain, isLast) := chunk.value;
      var nonce := BuildChunkNonce(noncePrefix, counter, isLast);
      if nonce.Err? {
        failed := true;
        return false;
      }
      pendingOut, counter, lastEmitted := seal(cek, nonce.value, plain), counter + 1, isLast;
      ok := true;
    }
  }

  /** After an error every further `Read` is an error. */
  ghost predicate Stuck(f: File, s: EncState) {
    && s.headerEmitted && s.pendingOut == [] && !s.lastEmitted
    && ((s.src.broken && s.src.rest == []) || (s.counter > MAX_CHUNK_COUNTER && !f.Countable()))
  }

  /** Where a reader that has not failed stands in the plaintext, and what it still has to hand out. */
  ghost predicate InStep(seal: SealFn, f: File, whole: Bytes, s: EncState) {
    && s.counter <= NumChunks(|f.plain|) && s.counter <= MAX_CHUNK_COUNTER + 1
    && (s.lastEmitted <==> s.counter == NumChunks(|f.plain|))
    && (s.lastEmitted ==> !s.src.broken)
    && s.src.rest == f.plain[Covered(f.plain, s.counter)..]
    && s.emitted + s.header + s.pendingOut + BodyFrom(seal, f, s.counter) == whole
  }

  /** The invariant of a reader that is to produce the bytes `whole` from the file `f`. */
  ghost predicate EncInv(seal: SealFn, f: File, whole: Bytes, s: EncState) {
    && (s.headerEmitted <==> s.header == [])
    && (!s.headerEmitted ==> s.pendingOut == [])
    && s.emitted <= whole
    && (if s.failed then Stuck(f, s) else InStep(seal, f, whole, s))
  }

  lemma NewEncInv(seal: SealFn, kek: Bytes, f: File, broken: bool)
    requires Usable(seal, kek, f)
    ensures EncInv(seal, f, Encrypted(seal, kek, f), NewEncState(Marshal(HeaderOf(seal, kek, f)), Source(f.plain, broken)))
  {
    var header := Marshal(HeaderOf(seal, kek, f));
    assert f.plain[0..] == f.plain;
    assert [] + header + [] + BodyFrom(seal, f, 0) == header + BodyFrom(seal, f, 0);
  }

  lemma EmitHeaderKeepsInv(seal: SealFn, f: File, whole: Bytes, s: EncState, n: nat)
    requires EncInv(seal, f, whole, s) && !s.headerEmitted
    ensures EncInv(seal, f, whole, EmitHeader(s, n).0)
  {
    var later := BodyFrom(seal, f, s.counter);
    var t := EmitHeader(s, n).0;
    assert t.emitted + t.header == s.emitted + s.header;
    assert t.emitted + t.header + [] + later == whole;
  }

  lemma EmitChunkKeepsInv(seal: SealFn, f: File, whole: Bytes, s: EncState, n: nat)
    requires EncInv(seal, f, whole, s) && s.headerEmitted && s.pendingOut != []
    ensures EncInv(seal, f, whole, EmitChunk(s, n).0)
  {
    var later := BodyFrom(seal, f, s.counter);
    var t := EmitChunk(s, n).0;
    assert t.emitted + [] + t.pendingOut == s.emitted + [] + s.pendingOut;
    assert t.emitted + [] + t.pendingOut + later == whole;
  }

  /** On a reader in step, the next block is the next chunk and is sealed as such. */
  lemma SealStepInStep(seal: SealFn, f: File, whole: Bytes, s: EncState)
    requires InStep(seal, f, whole, s) && !s.lastEmitted
    ensures var (t, ok) := SealStep(seal, f, s);
            var c := s.counter;
            && (ok <==> !(s.src.broken && IsLast(f.plain, c)) && c <= MAX_CHUNK_COUNTER)
            && (ok ==> t == s.(src := Source(f.plain[Covered(f.plain, c + 1)..], s.src.broken),
                               pendingOut := SealedChunk(seal, f, c), counter := c + 1, lastEmitted := IsLast(f.plain, c)))
            && (!ok && c <= MAX_CHUNK_COUNTER ==> t.src.rest == [])
  {
    BlocksAreChunks(f.plain, s.counter, s.src.broken);
    assert s.src == Source(f.plain[Covered(f.plain, s.counter)..], s.src.broken);
  }

  /** Sealing the next block keeps the invariant. */
  lemma SealStepKeepsInv(seal: SealFn, f: File, whole: Bytes, s: EncState)
    requires Lengthens(seal) && EncInv(seal, f, whole, s)
    requires s.headerEmitted && s.pendingOut == [] && !s.lastEmitted
    ensures var (t, ok) := SealStep(seal, f, s);
            && EncInv(seal, f, whole, t) && t.emitted == s.emitted && t.headerEmitted && t.src.broken == s.src.broken
            && (ok ==> !t.failed && t.pendingOut != [])
            && (!ok ==> t.failed && (s.src.broken || !f.Countable()))
  {
    var (t, ok) := SealStep(seal, f, s);
    if s.failed {
      assert !ok;
    } else {
      SealStepInStep(seal, f, whole, s);
      if ok {
        var ct := SealedChunk(seal, f, s.counter);
        assert s.emitted + [] + ct + BodyFrom(seal, f, s.counter + 1) == s.emitted + [] + [] + BodyFrom(seal, f, s.counter);
        assert InStep(seal, f, whole, t);
      } else {
        assert Stuck(f, t);
      }
    }
  }

  /**
   * Whatever the buffer length, the bytes one `Read` hands out are the next bytes of the encrypted object; end of input
   * is reported only after all of it; an error is reported only when the plaintext source failed or the file has more
   * chunks than the counter can number, and then it is reported ever after.
   */
  lemma EncReadSound(seal: SealFn, f: File, whole: Bytes, s: EncState, n: nat)
    requires Lengthens(seal) && EncInv(seal, f, whole, s)
    ensures var (t, r) := EncReadSpec(seal, f, s, n);
            && EncInv(seal, f, whole, t) && t.src.broken == s.src.broken
            && t.emitted == s.emitted + (if r.Data? then r.bytes else []) <= whole
            && (r.Data? ==> |r.bytes| <= n && (n > 0 ==> |r.bytes| > 0))
            && (r.Eof? ==> t.emitted == whole && !s.src.broken && f.Countable())
            && (r.Error? ==> s.src.broken || !f.Countable())
            && (t.failed <==> r.Error?)
  {
    if !s.headerEmitted {
      EmitHeaderKeepsInv(seal, f, whole, s, n);
    } else if s.pendingOut != [] {
      EmitChunkKeepsInv(seal, f, whole, s, n);
    } else if s.lastEmitted {
      assert s.emitted + [] + [] + [] == s.emitted;
    } else {
      SealStepKeepsInv(seal, f, whole, s);
      var (t, ok) := SealStep(seal, f, s);
      if ok {
        EmitChunkKeepsInv(seal, f, whole, t, n);
        assert EncReadBody(seal, f, s, n) == EncReadBody(seal, f, t, n) == EmitChunk(t, n);
      }
    }
  }

  // ----- decrypting --------------------------------------------------------------------------

  const MAX_HEADER_CHUNK := 64 * 1024 * 1024

  /** The fields of a decrypting reader, with what it has handed out. `stash` holds the KEK until the header is tried. */
  datatype DecState = DecState(src: Source, stash: Bytes, cek: Bytes, noncePrefix: Bytes, chunkSize: nat, counter: nat,
                               header: Option<Header>, headerParsed: bool, pendingOut: Bytes, lastConsumed: bool,
                               delivered: Bytes)

  function NewDecState(kek: Bytes, input: Source): DecState {
    DecState(input, kek, [], [], 0, 0, None, false, [], false, [])
  }

  /** `UnwrapCEK`, then the key-length check of the block cipher. */
  function UnwrapCek(open: OpenFn, kek: Bytes, hdr: Header): Result<Bytes> {
    if |kek| != KEK_SIZE then Err
    else match open(kek, hdr.wrapNonce, hdr.wrappedCek)
      case None => Err
      case Some(cek) => if |cek| in {16, 24, 32} then Ok(cek) else Err
  }

  /** `parseHeader`: the new state, and whether the header was accepted. The KEK is given up in either case. */
  function ParseStep(open: OpenFn, s: DecState): (DecState, bool) {
    var t := s.(stash := [], src := AfterBlock(s.src, HEADER_SIZE));
    var parsed := HeaderAndKey(open, s.stash, s.src.rest);
    if parsed.Err? then (t, false)
    else
      var (h, cek) := parsed.value;
      (t.(header := Some(h), cek := cek, noncePrefix := h.prefix, chunkSize := h.chunkSize,
          headerParsed := h.chunkSize <= MAX_HEADER_CHUNK),
       h.chunkSize <= MAX_HEADER_CHUNK)
  }

  /** The header at the front of the input, and the content key it wraps. */
  function HeaderAndKey(open: OpenFn, kek: Bytes, input: Bytes): (r: Result<(Header, Bytes)>)
    ensures r.Ok? ==> r.value.0.Sized()
  {
    var hdr := if |input| < HEADER_SIZE then Err else Unmarshal(input[..HEADER_SIZE]);
    if hdr.Err? then Err
    else
      var key := UnwrapCek(open, kek, hdr.value);
      if key.Err? then Err else Ok((hdr.value, key.value))
  }

  /** `decryptNextChunk`: the new state, and whether a chunk was opened. */
  function ChunkStep(open: OpenFn, s: DecState): (r: (DecState, bool))
    ensures r.1 ==> |r.0.src.rest| < |s.src.rest|
  {
    var next := NextBlock(s.src, s.chunkSize + TAG);
    var t := s.(src := AfterBlock(s.src, s.chunkSize + TAG));
    if next.Err? || |next.value.0| < TAG || s.counter > MAX_CHUNK_COUNTER then (t, false)
    else
      var (block, isLast) := next.value;
      var pt := open(s.cek, Nonce(s.noncePrefix, s.counter, isLast), block);
      if pt.None? then (t, false)
      else (t.(pendingOut := pt.value, counter := s.counter + 1, lastConsumed := isLast), true)
  }

  /** Handing out up to `n` pending bytes. */
  function Emit(s: DecState, n: nat): (DecState, ReadResult) {
    var k := if n < |s.pendingOut| then n else |s.pendingOut|;
    (s.(delivered := s.delivered + s.pendingOut[..k], pendingOut := s.pendingOut[k..]), Data(s.pendingOut[..k]))
  }

  /** `Read` once the header is parsed. */
  function ReadBody(open: OpenFn, s: DecState, n: nat): (DecState, ReadResult)
    decreases |s.src.rest|
  {
    if s.pendingOut != [] then Emit(s, n)
    else if s.lastConsumed then (s, Eof)
    else
      var (t, ok) := ChunkStep(open, s);
      if ok then ReadBody(open, t, n) else (t, Error)
  }

  /** One call of `Read` with a buffer of `n` bytes. */
  function ReadSpec(open: OpenFn, s: DecState, n: nat): (DecState, ReadResult) {
    if s.headerParsed then ReadBody(open, s, n)
    else
      var (t, ok) := ParseStep(open, s);
      if ok then ReadBody(open, t, n) else (t, Error)
  }

  /**
   * Which headers are accepted, told from the bytes: magic, version 1, a chunk size from 1 to 64 MiB, and a content key of
   * one of three lengths that opens under a key-encryption key of 32 bytes. The reader gives up its key in any case.
   */
  lemma AcceptsHeaderIff(open: OpenFn, s: DecState)
    ensures var b, (t, ok) := s.src.rest, ParseStep(open, s);
            && t.stash == [] && t.delivered == s.delivered && t.pendingOut == s.pendingOut
            && (ok <==> && |b| >= 92 && b[0..4] == [0x43, 0x42, 0x45, 0x31] && b[4] == 1
                        && 0 < FromBigEndian32(b[88..92]) <= 64 * 1024 * 1024 && |s.stash| == 32
                        && var key := open(s.stash, b[24..36], b[36..84]); key.Some? && |key.value| in {16, 24, 32})
            && (ok ==> && Some(t.cek) == open(s.stash, b[24..36], b[36..84]) && t.noncePrefix == b[84..88]
                       && t.chunkSize == FromBigEndian32(b[88..92]) && t.header.Some? && t.header.value.uuid == b[8..24]
                       && t.src.rest == b[92..] && t.headerParsed)
  {
    var b := s.src.rest;
    if |b| >= HEADER_SIZE {
      var h := b[..HEADER_SIZE];
      assert h[0..4] == b[0..4] && h[4] == b[4] && h[8..24] == b[8..24] && h[24..36] == b[24..36] && h[36..84] == b[36..84];
      assert h[84..88] == b[84..88] && h[88..92] == b[88..92];
    }
  }

  /**
   * Which blocks are accepted: at least a tag long, numbered up to 2^56 - 1, and opening under the nonce made of the file's
   * prefix, that number and whether the input ends with the block. What opens is what is handed out next.
   */
  lemma AcceptsChunkIff(open: OpenFn, s: DecState)
    ensures var (t, ok) := ChunkStep(open, s);
            var n := s.chunkSize + 16;
            var last := |s.src.rest| <= n;
            var block := if last then s.src.rest else s.src.rest[..n];
            var nonce := s.noncePrefix + CounterBytes(s.counter) + [if last then 1 else 0];
            && t.delivered == s.delivered && t.headerParsed == s.headerParsed
            && (ok <==> !(last && s.src.broken) && |block| >= 16 && s.counter < 0x100_0000_0000_0000 && open(s.cek, nonce, block).Some?)
            && (ok ==> Some(t.pendingOut) == open(s.cek, nonce, block) && t.counter == s.counter + 1 && t.lastConsumed == last)
  {}

  class DecryptingReader {
    const open: OpenFn
    var src: Source
    var stash: Bytes
    var cek: Bytes
    var noncePrefix: Bytes
    var chunkSize: nat
    var counter: nat
    var header: Option<Header>
    var headerParsed: bool
    var pendingOut: Bytes
    var lastConsumed: bool
    /** Everything `Read` has returned so far. */
    ghost var delivered: Bytes

    ghost function Now(): DecState
      reads this
    {
      DecState(src, stash, cek, noncePrefix, chunkSize, counter, header, headerParsed, pendingOut, lastConsumed, delivered)
    }

    /** `NewDecryptingReader` */
    constructor (open: OpenFn, kek: Bytes, input: Source)
      ensures this.open == open && Now() == NewDecState(kek, input)
    {
      this.open := open;
      src, stash, cek, noncePrefix, chunkSize, counter := input, kek, [], [], 0, 0;
      header, headerParsed, pendingOut, lastConsumed, delivered := None, false, [], false, [];
    }

    method ParseHeader() returns (ok: bool)
      modifies this
      ensures (Now(), ok) == ParseStep(open, old(Now()))
    {
      var parsed := HeaderAndKey(open, stash, src.rest);
      stash, src := [], AfterBlock(src, HEADER_SIZE);
      if parsed.Err? {
        return false;
      }
      var (hdr, key) := parsed.value;
      header, cek, noncePrefix, chunkSize := Some(hdr), key, hdr.prefix, hdr.chunkSize;
      headerParsed := chunkSize <= MAX_HEADER_CHUNK;
      ok := headerParsed;
    }

    /** `PeekHeader`: parse the header, if that has not happened yet, without consuming plaintext. */
    method PeekHeader() returns (r: Result<Header>)
      requires headerParsed ==> header.Some?
      modifies this
      ensures if old(headerParsed) then Now() == old(Now()) && r == Ok(header.value)
              else Now() == ParseStep(open, old(Now())).0 && (r.Ok? <==> headerParsed) && (r.Ok? ==> header == Some(r.value))
    {
      if headerParsed {
        return Ok(header.value);
      }
      var ok := ParseHeader();
      r := if ok then Ok(header.value) else Err;
    }

    method Read(n: nat) returns (r: ReadResult)
      modifies this
      ensures (Now(), r) == ReadSpec(open, old(Now()), n)
    {
      if !headerParsed {
        var ok := ParseHeader();
        if !ok {
          return Error;
        }
      }
      while true
        invariant ReadBody(open, Now(), n) == ReadSpec(open, old(Now()), n)
        decreases |src.rest|
      {
        if |pendingOut| > 0 {
          var k := if n < |pendingOut| then n else |pendingOut|;
          r := Data(pendingOut[..k]);
          delivered, pendingOut := delivered + pendingOut[..k], pendingOut[k..];
          return;
        }
        if lastConsumed {
          return Eof;
        }
        var ok := DecryptNextChunk();
        if !ok {
          return Error;
        }
      }
    }

    method DecryptNextChunk() returns (ok: bool)
      modifies this
      ensures (Now(), ok) == ChunkStep(open, old(Now()))
    {
      var next := NextBlock(src, chunkSize + TAG);
      src := AfterBlock(src, chunkSize + TAG);
      if next.Err? {
        return false;
      }
      var (block, isLast) := next.value;
      if |block| < TAG {
        return false;
      }
      if counter > MAX_CHUNK_COUNTER {
        return false;
      }
      var nonce := Nonce(noncePrefix, counter, isLast);
      var pt := open(cek, nonce, block);
      if pt.None? {
        return false;
      }
      pendingOut, counter, lastConsumed := pt.value, counter + 1, isLast;
      ok := true;
    }
  }

  // ----- integrity: any input whatever ---------------------------------------------------------

  /** Where the reader stands in the genuine file number `owner`, whatever bytes it was fed. */
  ghost predicate DecInv(v: Vault, owner: nat, s: DecState) {
    && (s.stash == v.kek || s.stash == [])
    && (!s.headerParsed ==> s.counter == 0 && s.pendingOut == [] && s.delivered == [] && !s.lastConsumed)
    && (s.headerParsed ==>
          && owner < |v.files| && s.header.Some? && s.header.value.wrapNonce == v.files[owner].wrapNonce
          && InFile(v.files[owner], s))
  }

  ghost predicate InFile(f: File, s: DecState) {
    && s.cek == f.cek && |s.noncePrefix| == PREFIX_SIZE
    && s.counter <= NumChunks(|f.plain|)
    && (s.lastConsumed <==> s.counter == NumChunks(|f.plain|))
    && s.delivered + s.pendingOut == f.plain[..Covered(f.plain, s.counter)]
  }

  /** A header whose content key opens belongs to one file of the vault. */
  lemma ParseFindsFile(seal: SealFn, open: OpenFn, v: Vault, s: DecState) returns (owner: nat)
    requires Fresh(v) && IdealAead(seal, open, v) && DecInv(v, 0, s) && !s.headerParsed
    ensures DecInv(v, owner, ParseStep(open, s).0)
  {
    owner := 0;
    var (t, ok) := ParseStep(open, s);
    if ok {
      var hdr := t.header.value;
      owner := UnwrapFindsFile(seal, open, v, hdr.wrapNonce, hdr.wrappedCek);
      ChunkFacts(v.files[owner].plain, 0);
    }
  }

  /** Any block that opens is the file's next chunk: nothing was dropped, swapped, repeated or cut off. */
  lemma ChunkStepKeepsInv(seal: SealFn, open: OpenFn, v: Vault, owner: nat, s: DecState)
    requires Fresh(v) && IdealAead(seal, open, v) && DecInv(v, owner, s) && s.headerParsed
    requires s.pendingOut == [] && !s.lastConsumed
    ensures DecInv(v, owner, ChunkStep(open, s).0) && ChunkStep(open, s).0.headerParsed
    ensures ChunkStep(open, s).0.delivered == s.delivered
  {
    var (t, ok) := ChunkStep(open, s);
    if ok {
      var f := v.files[owner];
      var (block, isLast) := NextBlock(s.src, s.chunkSize + TAG).value;
      OpenedChunkIsGenuine(seal, open, v, owner, s.noncePrefix, s.counter, isLast, block);
      ChunkFacts(f.plain, s.counter);
      assert s.delivered + [] == s.delivered;
    }
  }

  lemma EmitKeepsDecInv(v: Vault, owner: nat, s: DecState, n: nat)
    requires DecInv(v, owner, s) && s.headerParsed && s.pendingOut != []
    ensures DecInv(v, owner, Emit(s, n).0)
  {
    var t := Emit(s, n).0;
    assert t.delivered + t.pendingOut == s.delivered + s.pendingOut;
  }

  /** What a call of `Read` that left the reader in state `t` may have returned. */
  ghost predicate Sound(v: Vault, owner: nat, s: DecState, n: nat, t: DecState, r: ReadResult) {
    && DecInv(v, owner, t)
    && t.delivered == s.delivered + (if r.Data? then r.bytes else [])
    && (r.Data? ==> t.headerParsed && |r.bytes| <= n && (n > 0 ==> |r.bytes| > 0))
    && (t.headerParsed ==> t.delivered <= v.files[owner].plain)
    && (r.Eof? ==> t.headerParsed && t.delivered == v.files[owner].plain)
  }

  lemma DeliveredIsPrefix(f: File, s: DecState)
    requires InFile(f, s)
    ensures s.delivered <= f.plain
    ensures s.lastConsumed && s.pendingOut == [] ==> s.delivered == f.plain
  {
    ChunkFacts(f.plain, if s.counter < NumChunks(|f.plain|) then s.counter else s.counter - 1);
    assert s.delivered <= s.delivered + s.pendingOut;
  }

  lemma {:induction false} ReadBodySound(seal: SealFn, open: OpenFn, v: Vault, owner: nat, s: DecState, n: nat)
    requires Fresh(v) && IdealAead(seal, open, v) && DecInv(v, owner, s) && s.headerParsed
    ensures var (t, r) := ReadBody(open, s, n); Sound(v, owner, s, n, t, r) && t.headerParsed
    decreases |s.src.rest|
  {
    var f := v.files[owner];
    if s.pendingOut != [] {
      EmitKeepsDecInv(v, owner, s, n);
      DeliveredIsPrefix(f, Emit(s, n).0);
    } else if s.lastConsumed {
      DeliveredIsPrefix(f, s);
    } else {
      var (t, ok) := ChunkStep(open, s);
      ChunkStepKeepsInv(seal, open, v, owner, s);
      DeliveredIsPrefix(f, t);
      if ok {
        ReadBodySound(seal, open, v, owner, t, n);
      }
    }
  }

  /**
   * Stream integrity. The input may be anything: truncated, reordered, extended or made up, header included, and the
   * caller may go on reading after errors. What `Read` hands out continues a prefix of one genuine file's plaintext,
   * the file named by the header, and end of input is reported only when all of that file has been handed out.
   */
  lemma ReadSound(seal: SealFn, open: OpenFn, v: Vault, owner: nat, s: DecState, n: nat) returns (owner': nat)
    requires Fresh(v) && IdealAead(seal, open, v) && DecInv(v, owner, s)
    ensures var (t, r) := ReadSpec(open, s, n); Sound(v, owner', s, n, t, r)
    ensures s.headerParsed ==> ReadSpec(open, s, n).0.headerParsed && owner' == owner
  {
    owner' := owner;
    if s.headerParsed {
      ReadBodySound(seal, open, v, owner, s, n);
    } else {
      owner' := ParseFindsFile(seal, open, v, s);
      var (t, ok) := ParseStep(open, s);
      if ok {
        ReadBodySound(seal, open, v, owner', t, n);
      }
    }
  }

  // ----- round trip: genuine input -------------------------------------------------------------

  /** The input still to be read is exactly the rest of the genuine encrypted file `f`. */
  ghost predicate Genuine(seal: SealFn, kek: Bytes, f: File, s: DecState)
    requires Usable(seal, kek, f)
  {
    && !s.src.broken
    && (!s.headerParsed ==> s.counter == 0 && s.stash == kek && s.src.rest == Encrypted(seal, kek, f))
    && (s.headerParsed ==> InBody(seal, kek, f, s))
  }

  ghost predicate InBody(seal: SealFn, kek: Bytes, f: File, s: DecState) {
    && s.header == Some(HeaderOf(seal, kek, f)) && s.noncePrefix == f.prefix && s.chunkSize == CHUNK && s.cek == f.cek
    && s.src.rest == BodyFrom(seal, f, s.counter)
  }

  /** The genuine header parses, and leaves the genuine body. */
  lemma GenuineParses(seal: SealFn, open: OpenFn, v: Vault, i: nat, s: DecState)
    requires Fresh(v) && IdealAead(seal, open, v) && i < |v.files| && !s.headerParsed
    requires Genuine(seal, v.kek, v.files[i], s)
    ensures ParseStep(open, s).1 && Genuine(seal, v.kek, v.files[i], ParseStep(open, s).0)
  {
    var f := v.files[i];
    var hdr := HeaderOf(seal, v.kek, f);
    GenuineKeyOpens(seal, open, v, i);
    HeaderRoundTrip(hdr);
    BodySize(seal, f, 0);
    assert s.src.rest[..HEADER_SIZE] == Marshal(hdr);
    assert s.src.rest[HEADER_SIZE..] == BodyFrom(seal, f, 0);
  }

  /** A genuine body is read back chunk by chunk. */
  lemma BodyBlocks(seal: SealFn, f: File, c: nat)
    requires Lengthens(seal) && c < NumChunks(|f.plain|)
    ensures var src := Source(BodyFrom(seal, f, c), false);
            && |SealedChunk(seal, f, c)| >= TAG
            && NextBlock(src, CHUNK + TAG) == Ok((SealedChunk(seal, f, c), IsLast(f.plain, c)))
            && AfterBlock(src, CHUNK + TAG).rest == BodyFrom(seal, f, c + 1)
  {
    ChunkFacts(f.plain, c);
    var block, later := SealedChunk(seal, f, c), BodyFrom(seal, f, c + 1);
    var body := BodyFrom(seal, f, c);
    assert body == block + later;
    if IsLast(f.plain, c) {
      assert later == [] && body == block;
    } else {
      BodySize(seal, f, c + 1);
      assert body[..CHUNK + TAG] == block && body[CHUNK + TAG..] == later;
    }
  }

  lemma GenuineChunkStep(seal: SealFn, open: OpenFn, v: Vault, i: nat, s: DecState)
    requires Fresh(v) && IdealAead(seal, open, v) && i < |v.files| && s.headerParsed
    requires s.counter < NumChunks(|v.files[i].plain|) && Genuine(seal, v.kek, v.files[i], s)
    ensures ChunkStep(open, s).1 && Genuine(seal, v.kek, v.files[i], ChunkStep(open, s).0)
  {
    var f := v.files[i];
    var block, isLast := SealedChunk(seal, f, s.counter), IsLast(f.plain, s.counter);
    GenuineChunkOpens(seal, open, v, i, s.counter);
    BodyBlocks(seal, f, s.counter);
    assert s.src == Source(BodyFrom(seal, f, s.counter), false);
    ChunkStepOpens(open, s, block, isLast, Chunk(f.plain, s.counter));
  }

  /** One unfolding of `ChunkStep` for a block that opens. */
  lemma ChunkStepOpens(open: OpenFn, s: DecState, block: Bytes, isLast: bool, pt: Bytes)
    requires NextBlock(s.src, s.chunkSize + TAG) == Ok((block, isLast)) && |block| >= TAG && s.counter <= MAX_CHUNK_COUNTER
    requires open(s.cek, Nonce(s.noncePrefix, s.counter, isLast), block) == Some(pt)
    ensures ChunkStep(open, s) == (s.(src := AfterBlock(s.src, s.chunkSize + TAG), pendingOut := pt,
                                      counter := s.counter + 1, lastConsumed := isLast), true)
  {}

  lemma {:induction false} ReadBodyGenuine(seal: SealFn, open: OpenFn, v: Vault, i: nat, s: DecState, n: nat)
    requires Fresh(v) && IdealAead(seal, open, v) && i < |v.files| && DecInv(v, i, s) && s.headerParsed
    requires Genuine(seal, v.kek, v.files[i], s)
    ensures var (t, r) := ReadBody(open, s, n); !r.Error? && Genuine(seal, v.kek, v.files[i], t)
    decreases |s.src.rest|
  {
    if s.pendingOut == [] && !s.lastConsumed {
      GenuineChunkStep(seal, open, v, i, s);
      ChunkStepKeepsInv(seal, open, v, i, s);
      ReadBodyGenuine(seal, open, v, i, ChunkStep(open, s).0, n);
    }
  }

  /** Reading a genuine encrypted file never fails. */
  lemma ReadGenuine(seal: SealFn, open: OpenFn, v: Vault, i: nat, s: DecState, n: nat)
    requires Fresh(v) && IdealAead(seal, open, v) && i < |v.files| && DecInv(v, i, s)
    requires Genuine(seal, v.kek, v.files[i], s)
    ensures var (t, r) := ReadSpec(open, s, n); !r.Error? && t.headerParsed && Genuine(seal, v.kek, v.files[i], t)
    ensures DecInv(v, i, ReadSpec(open, s, n).0)
  {
    var t := s;
    if !s.headerParsed {
      GenuineParses(seal, open, v, i, s);
      t := ParseStep(open, s).0;
      ChunkFacts(v.files[i].plain, 0);
    }
    ReadBodyGenuine(seal, open, v, i, t, n);
    ReadBodySound(seal, open, v, i, t, n);
  }
}
