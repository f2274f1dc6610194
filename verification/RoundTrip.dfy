/** Draining the two readers with any sequence of buffer lengths, and the round trip between them. */
module RoundTrip {
  import opened Common
  import opened Format
  import opened Aead
  import opened Stream

  /** How many of the buffers can hold at least one byte. */
  function Useful(lens: seq<nat>): nat {
    if lens == [] then 0
    else Useful(lens[..|lens| - 1]) + (if lens[|lens| - 1] > 0 then 1 else 0)
  }

  lemma UsefulNext(lens: seq<nat>, k: nat)
    requires k < |lens|
    ensures Useful(lens[..k + 1]) == Useful(lens[..k]) + (if lens[k] > 0 then 1 else 0)
  {
    assert lens[..k + 1][..k] == lens[..k];
  }

  /** Reads an encrypting reader with buffers of the given lengths until it ends or the buffers run out. */
  method EncryptAll(seal: SealFn, kek: Bytes, f: File, broken: bool, lens: seq<nat>)
    returns (out: Bytes, end: Option<ReadResult>)
    requires Usable(seal, kek, f)
    ensures out <= Encrypted(seal, kek, f)
    ensures end == Some(Eof) ==> out == Encrypted(seal, kek, f)
    ensures end == Some(Error) ==> broken || !f.Countable()
    ensures broken || !f.Countable() ==> end != Some(Eof)
    ensures Useful(lens) > EncryptedSize(|f.plain|) ==> end == Some(if broken || !f.Countable() then Error else Eof)
  {
    EncryptedSizeExact(seal, kek, f);
    NewEncInv(seal, kek, f, broken);
    ghost var whole := Encrypted(seal, kek, f);
    var reader := new EncryptingReader(seal, kek, f, broken);
    out, end := [], None;
    for k := 0 to |lens|
      invariant reader.Valid() && fresh(reader) && reader.seal == seal && reader.file == f
      invariant reader.src.broken == broken && !reader.failed && reader.emitted == out && end.None?
      invariant EncInv(seal, f, whole, reader.Now())
      invariant Useful(lens[..k]) <= |out|
    {
      UsefulNext(lens, k);
      EncReadSound(seal, f, whole, reader.Now(), lens[k]);
      var r := reader.Read(lens[k]);
      if !r.Data? {
        end := Some(r);
        return;
      }
      out := out + r.bytes;
    }
    assert lens[..|lens|] == lens;
  }

  /**
   * Reads a decrypting reader over any input. Everything handed out is a prefix of the plaintext of one file in the
   * vault, all of it when the end is reported. When the input is the genuine file number `honest`, it is that file,
   * there is no error, and enough buffers reach the end.
   */
  method DecryptAll(open: OpenFn, input: Source, lens: seq<nat>, ghost seal: SealFn, v: Vault, ghost honest: Option<nat>)
    returns (out: Bytes, end: Option<ReadResult>, ghost owner: nat)
    requires Fresh(v) && IdealAead(seal, open, v)
    requires honest.Some? ==>
               honest.value < |v.files| && input == Source(Encrypted(seal, v.kek, v.files[honest.value]), false)
    ensures out == [] || (owner < |v.files| && out <= v.files[owner].plain)
    ensures end == Some(Eof) ==> owner < |v.files| && out == v.files[owner].plain
    ensures honest.Some? && lens != [] ==> owner == honest.value && end != Some(Error)
    ensures honest.Some? && Useful(lens) > |v.files[honest.value].plain| ==> end == Some(Eof)
  {
    var reader := new DecryptingReader(open, v.kek, input);
    out, end, owner := [], None, if honest.Some? then honest.value else 0;
    for k := 0 to |lens|
      invariant fresh(reader) && reader.open == open && reader.delivered == out && end.None?
      invariant DecInv(v, owner, reader.Now())
      invariant reader.headerParsed ==> out <= v.files[owner].plain
      invariant honest.Some? ==> owner == honest.value && Genuine(seal, v.kek, v.files[owner], reader.Now())
      invariant Useful(lens[..k]) <= |out|
    {
      UsefulNext(lens, k);
      ghost var s := reader.Now();
      ghost var who := ReadSound(seal, open, v, owner, s, lens[k]);
      if honest.Some? {
        ReadGenuine(seal, open, v, owner, s, lens[k]);
        SameOwner(v, owner, who, ReadSpec(open, s, lens[k]).0);
      }
      owner := who;
      var r := reader.Read(lens[k]);
      if !r.Data? {
        end := Some(r);
        return;
      }
      out := out + r.bytes;
    }
    assert lens[..|lens|] == lens;
  }

  /** The header a new reader peeks at in a genuine object holds the keystore identifier that the object was written with. */
  method PeekGenuine(open: OpenFn, kek: Bytes, sealed: Bytes, ghost seal: SealFn, ghost v: Vault, ghost i: nat)
    returns (header: Result<Header>)
    requires Fresh(v) && IdealAead(seal, open, v) && i < |v.files| && kek == v.kek && sealed == Encrypted(seal, kek, v.files[i])
    ensures header.Ok? && header.value.uuid == v.files[i].uuid && header.value.wrapNonce == v.files[i].wrapNonce
  {
    var reader := new DecryptingReader(open, kek, Source(sealed, false));
    GenuineParses(seal, open, v, i, reader.Now());
    EncryptedHeader(seal, kek, v.files[i]);
    HeaderRoundTrip(HeaderOf(seal, kek, v.files[i]));
    assert sealed[..HEADER_SIZE] == Marshal(HeaderOf(seal, kek, v.files[i]));
    header := reader.PeekHeader();
  }

  lemma SameOwner(v: Vault, i: nat, j: nat, s: DecState)
    requires Fresh(v) && DecInv(v, i, s) && DecInv(v, j, s) && s.headerParsed
    ensures i == j
  {}

  /**
   * Stream round trip: for every plaintext and every sequence of buffer lengths on both sides that is long enough,
   * what the decrypting reader returns is the plaintext the encrypting reader was given.
   */
  method EncryptThenDecrypt(seal: SealFn, open: OpenFn, v: Vault, i: nat, encLens: seq<nat>, decLens: seq<nat>)
    returns (recovered: Bytes)
    requires Fresh(v) && IdealAead(seal, open, v) && i < |v.files|
    requires Useful(encLens) > EncryptedSize(|v.files[i].plain|) && Useful(decLens) > |v.files[i].plain|
    ensures recovered == v.files[i].plain
  {
    var f := v.files[i];
    var sealed, sent := EncryptAll(seal, v.kek, f, false, encLens);
    var end;
    ghost var owner;
    recovered, end, owner := DecryptAll(open, Source(sealed, false), decLens, seal, v, Some(i));
  }
}
