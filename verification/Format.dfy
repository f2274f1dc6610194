/** The on-the-wire format of an encrypted object: header, chunk nonces and sizes (cbcrypto/crypto.go). */
module Format {
  import opened Common

  const HEADER_SIZE := 92
  const CHUNK := 65536
  const TAG := 16
  const KEK_SIZE := 32
  const CEK_SIZE := 32
  const UUID_SIZE := 16
  const NONCE_SIZE := 12
  const PREFIX_SIZE := 4
  const WRAPPED_SIZE := CEK_SIZE + TAG
  const MAX_CHUNK_COUNTER := 0x100_0000_0000_0000 - 1
  const MAX_INT64 := 0x8000_0000_0000_0000 - 1
  /** The largest plaintext whose encrypted size still fits a signed 64-bit integer. */
  const MAX_PLAINTEXT := 9221120786662719379

  /** "CBE1" */
  const MAGIC: Bytes := [0x43, 0x42, 0x45, 0x31]

  // ----- header ------------------------------------------------------------------------------

  datatype Header = Header(version: Byte, uuid: Bytes, wrapNonce: Bytes, wrappedCek: Bytes,
                           prefix: Bytes, chunkSize: nat)
  {
    /** The widths of the fixed-size arrays and integers of the source's struct. */
    predicate Sized() {
      && |uuid| == UUID_SIZE && |wrapNonce| == NONCE_SIZE && |wrappedCek| == WRAPPED_SIZE
      && |prefix| == PREFIX_SIZE && chunkSize < 0x1_0000_0000
    }
  }

  function BigEndian32(n: nat): Bytes
    requires n < 0x1_0000_0000
  {
    [n / 0x100_0000, (n / 0x1_0000) % 256, (n / 0x100) % 256, n % 256]
  }

  function FromBigEndian32(b: Bytes): nat
    requires |b| == 4
  {
    var d0: int := b[0];
    ((d0 * 256 + b[1]) * 256 + b[2]) * 256 + b[3]
  }

  function Marshal(h: Header): (b: Bytes)
    requires h.Sized()
    ensures |b| == HEADER_SIZE
  {
    MAGIC + [h.version, 0, 0, 0] + h.uuid + h.wrapNonce + h.wrappedCek + h.prefix + BigEndian32(h.chunkSize)
  }

  function Unmarshal(b: Bytes): (r: Result<Header>)
    ensures r.Ok? ==> r.value.Sized() && r.value.version == 1 && r.value.chunkSize > 0
  {
    if |b| < HEADER_SIZE then Err
    else if b[0..4] != MAGIC then Err
    else if b[4] != 1 then Err
    else
      var h := Header(b[4], b[8..24], b[24..36], b[36..84], b[84..88], FromBigEndian32(b[88..92]));
      if h.chunkSize == 0 then Err else Ok(h)
  }

  /** The buffer-filling form of `Marshal`. */
  method MarshalBinary(h: Header) returns (buf: array<Byte>)
    requires h.Sized()
    ensures fresh(buf) && buf[..] == Marshal(h)
  {
    buf := new Byte[HEADER_SIZE](_ => 0);
    forall i | 0 <= i < 4 { buf[i] := MAGIC[i]; }
    buf[4] := h.version;
    forall i | 8 <= i < 24 { buf[i] := h.uuid[i - 8]; }
    forall i | 24 <= i < 36 { buf[i] := h.wrapNonce[i - 24]; }
    forall i | 36 <= i < 84 { buf[i] := h.wrappedCek[i - 36]; }
    forall i | 84 <= i < 88 { buf[i] := h.prefix[i - 84]; }
    var size := BigEndian32(h.chunkSize);
    forall i | 88 <= i < 92 { buf[i] := size[i - 88]; }
    assert buf[0..4] == MAGIC && buf[4..8] == [h.version, 0, 0, 0];
    assert buf[8..24] == h.uuid && buf[24..36] == h.wrapNonce && buf[36..84] == h.wrappedCek;
    assert buf[84..88] == h.prefix && buf[88..92] == size;
    assert buf[..] == buf[0..4] + buf[4..8] + buf[8..24] + buf[24..36] + buf[36..84] + buf[84..88] + buf[88..92];
  }

  lemma SliceOf(before: Bytes, field: Bytes, rest: Bytes, whole: Bytes)
    requires whole == before + field + rest
    ensures whole[|before|..|before| + |field|] == field
  {}

  /** What each field slice of a marshalled header holds. */
  lemma MarshalFields(h: Header)
    requires h.Sized()
    ensures var b := Marshal(h);
            && b[0..4] == MAGIC && b[4] == h.version && b[5..8] == [0, 0, 0] && b[8..24] == h.uuid
            && b[24..36] == h.wrapNonce && b[36..84] == h.wrappedCek && b[84..88] == h.prefix
            && b[88..92] == BigEndian32(h.chunkSize)
  {
    var b, size := Marshal(h), BigEndian32(h.chunkSize);
    var start := MAGIC + [h.version, 0, 0, 0];
    var toNonce := start + h.uuid;
    var toCek := toNonce + h.wrapNonce;
    var toPrefix := toCek + h.wrappedCek;
    assert |start| == 8 && |toNonce| == 24 && |toCek| == 36 && |toPrefix| == 84;
    SliceOf(start, h.uuid, h.wrapNonce + h.wrappedCek + h.prefix + size, b);
    SliceOf(toNonce, h.wrapNonce, h.wrappedCek + h.prefix + size, b);
    SliceOf(toCek, h.wrappedCek, h.prefix + size, b);
    SliceOf(toPrefix, h.prefix, size, b);
    SliceOf(toPrefix + h.prefix, size, [], b);
    assert b[..8] == start;
  }

  /** A header survives a round trip exactly when it is one this version accepts. */
  lemma HeaderRoundTrip(h: Header)
    requires h.Sized()
    ensures Unmarshal(Marshal(h)) == Ok(h) <==> h.version == 1 && h.chunkSize > 0
    ensures Unmarshal(Marshal(h)).Ok? ==> Unmarshal(Marshal(h)) == Ok(h)
  {
    MarshalFields(h);
    assert FromBigEndian32(BigEndian32(h.chunkSize)) == h.chunkSize;
  }

  /** Parsing loses only the three reserved bytes and whatever follows the header. */
  lemma UnmarshalThenMarshal(b: Bytes)
    requires Unmarshal(b).Ok?
    ensures Marshal(Unmarshal(b).value) == b[..5] + [0, 0, 0] + b[8..HEADER_SIZE]
  {
    var h := Unmarshal(b).value;
    var size := b[88..92];
    BigEndian32Inverse(size);
    var head := b[..5] + [0, 0, 0];
    assert head == MAGIC + [h.version, 0, 0, 0] by { assert b[..5] == b[0..4] + [b[4]]; }
    var rest := b[24..36] + b[36..84] + b[84..88] + size;
    assert b[8..92] == b[8..24] + rest by { assert b[24..92] == rest; }
    assert Marshal(h) == head + (b[8..24] + rest);
  }

  lemma BigEndian32Inverse(b: Bytes)
    requires |b| == 4
    ensures FromBigEndian32(b) < 0x1_0000_0000 && BigEndian32(FromBigEndian32(b)) == b
  {
    var d0: int := b[0];
    var n2 := d0 * 256 + b[1];
    var n1 := n2 * 256 + b[2];
    var n := n1 * 256 + b[3];
    assert n / 256 == n1 && n1 / 256 == n2 && n2 / 256 == d0;
    assert n / 0x1_0000 == n2 && n / 0x100_0000 == d0;
  }

  // ----- chunk nonces ------------------------------------------------------------------------

  /** prefix(4) || counter(7, big-endian) || last flag(1) */
  function Nonce(prefix: Bytes, counter: nat, last: bool): (n: Bytes)
    ensures |n| == |prefix| + 8
  {
    prefix + CounterBytes(counter) + [if last then 1 else 0]
  }

  function CounterBytes(counter: nat): (b: Bytes)
    ensures |b| == 7
  {
    [(counter / 0x1_0000_0000_0000) % 256, (counter / 0x100_0000_0000) % 256, (counter / 0x1_0000_0000) % 256,
     (counter / 0x100_0000) % 256, (counter / 0x1_0000) % 256, (counter / 0x100) % 256, counter % 256]
  }

  function ReadCounter(b: Bytes): nat
    requires |b| == 7
  {
    var d0: int := b[0];
    (((((d0 * 256 + b[1]) * 256 + b[2]) * 256 + b[3]) * 256 + b[4]) * 256 + b[5]) * 256 + b[6]
  }

  lemma CounterRoundTrip(counter: nat)
    requires counter <= MAX_CHUNK_COUNTER
    ensures ReadCounter(CounterBytes(counter)) == counter
  {
    var c1 := counter / 256;
    var c2 := c1 / 256;
    var c3 := c2 / 256;
    var c4 := c3 / 256;
    var c5 := c4 / 256;
    var c6 := c5 / 256;
    assert c2 == counter / 0x1_0000 && c3 == counter / 0x100_0000 && c4 == counter / 0x1_0000_0000;
    assert c5 == counter / 0x100_0000_0000 && c6 == counter / 0x1_0000_0000_0000;
    assert c6 < 256;
  }

  /** The layout of a nonce: the prefix, seven bytes that spell the counter big-endian, and one byte that flags the last chunk. */
  lemma NonceLayout(prefix: Bytes, counter: nat, last: bool)
    requires |prefix| == PREFIX_SIZE && counter <= MAX_CHUNK_COUNTER
    ensures var n := Nonce(prefix, counter, last);
            |n| == NONCE_SIZE && n[..4] == prefix && ReadCounter(n[4..11]) == counter && n[11] == (if last then 1 else 0)
  {
    var n := Nonce(prefix, counter, last);
    assert n[4..11] == CounterBytes(counter);
    CounterRoundTrip(counter);
  }

  /** Every (prefix, counter, flag) triple the program can use has a nonce of its own. */
  lemma NonceInjective(p: Bytes, c: nat, l: bool, p': Bytes, c': nat, l': bool)
    requires |p| == |p'| == PREFIX_SIZE
    requires c <= MAX_CHUNK_COUNTER && c' <= MAX_CHUNK_COUNTER
    requires Nonce(p, c, l) == Nonce(p', c', l')
    ensures p == p' && c == c' && l == l'
  {
    var n, n' := Nonce(p, c, l), Nonce(p', c', l');
    assert n[..4] == p && n'[..4] == p';
    assert n[4..11] == CounterBytes(c) && n'[4..11] == CounterBytes(c');
    assert n[11] == (if l then 1 else 0) && n'[11] == (if l' then 1 else 0);
    CounterRoundTrip(c);
    CounterRoundTrip(c');
  }

  /** The bound is exact: one past it the counter bytes repeat. */
  lemma NonceRepeatsPastTheBound(p: Bytes, l: bool)
    ensures Nonce(p, MAX_CHUNK_COUNTER + 1, l) == Nonce(p, 0, l)
  {
    assert CounterBytes(MAX_CHUNK_COUNTER + 1) == CounterBytes(0);
  }

  /** The buffer-filling form of `Nonce`, refusing counters it could not tell apart. */
  method BuildChunkNonce(prefix: Bytes, counter: nat, last: bool) returns (r: Result<Bytes>)
    requires |prefix| == PREFIX_SIZE
    ensures r == if counter > MAX_CHUNK_COUNTER then Err else Ok(Nonce(prefix, counter, last))
  {
    if counter > MAX_CHUNK_COUNTER {
      return Err;
    }
    var nonce := new Byte[NONCE_SIZE](_ => 0);
    forall i | 0 <= i < PREFIX_SIZE { nonce[i] := prefix[i]; }
    nonce[4] := (counter / 0x1_0000_0000_0000) % 256;
    nonce[5] := (counter / 0x100_0000_0000) % 256;
    nonce[6] := (counter / 0x1_0000_0000) % 256;
    nonce[7] := (counter / 0x100_0000) % 256;
    nonce[8] := (counter / 0x1_0000) % 256;
    nonce[9] := (counter / 0x100) % 256;
    nonce[10] := counter % 256;
    if last {
      nonce[11] := 1;
    }
    assert nonce[..4] == prefix;
    assert nonce[4..11] == [nonce[4], nonce[5], nonce[6], nonce[7], nonce[8], nonce[9], nonce[10]];
    assert nonce[..] == nonce[..4] + nonce[4..11] + [nonce[11]];
    r := Ok(nonce[..]);
  }

  // ----- sizes -------------------------------------------------------------------------------

  /** Go's wrap-around of a 64-bit signed result. */
  function Wrap64(x: int): int {
    (x + 0x8000_0000_0000_0000) % 0x1_0000_0000_0000_0000 - 0x8000_0000_0000_0000
  }

  /** The size an encrypted object has on the wire, over unbounded integers. */
  function EncryptedSize(n: int): int {
    if n < 0 then 0
    else if n == 0 then HEADER_SIZE + TAG
    else
      var chunks := n / CHUNK + (if n % CHUNK != 0 then 1 else 0);
      HEADER_SIZE + n + chunks * TAG
  }

  /** The same computation in the source's 64-bit arithmetic. */
  function EncryptedSize64(n: int): int {
    if n < 0 then 0
    else if n == 0 then HEADER_SIZE + TAG
    else
      var chunks := n / CHUNK + (if n % CHUNK != 0 then 1 else 0);
      Wrap64(Wrap64(HEADER_SIZE + n) + Wrap64(chunks * TAG))
  }

  lemma EncryptedSizeIncreasing(n: nat, m: nat)
    requires n < m
    ensures EncryptedSize(n) < EncryptedSize(m)
  {}

  /** 64-bit arithmetic gives the true size exactly up to `MAX_PLAINTEXT`. */
  lemma EncryptedSizeFits(n: int)
    requires n <= MAX_INT64
    ensures EncryptedSize64(n) == EncryptedSize(n) <==> n <= MAX_PLAINTEXT
    ensures n <= MAX_PLAINTEXT ==> EncryptedSize(n) <= MAX_INT64
  {
    if n > MAX_PLAINTEXT {
      EncryptedSizeIncreasing(MAX_PLAINTEXT, n);
      assert EncryptedSize(MAX_PLAINTEXT) == MAX_INT64;
    }
  }
}
