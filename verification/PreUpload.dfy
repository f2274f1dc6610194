/** The checks made for each target before anything is uploaded (backup/preupload.go). */
module PreUpload {
  import opened Common
  import opened Format
  import opened Aead
  import opened Stream

  const RESERVED := ".cbcrypt"

  /** `preUploadReservedPathCheck`: is a '/'-separated component of `part + path` the reserved name? */
  predicate HasReserved(path: string, part: string := "")
    decreases |path|
  {
    if path == "" then part == RESERVED
    else if path[0] == '/' then part == RESERVED || HasReserved(path[1..], "")
    else HasReserved(path[1..], part + [path[0]])
  }

  /** The reserved name is a whole component of the path: it starts at `a` and is bounded by separators or the ends. */
  ghost predicate ReservedAt(path: string, a: int) {
    && 0 <= a && a + 8 <= |path| && path[a..a + 8] == ".cbcrypt"
    && (a == 0 || path[a - 1] == '/') && (a + 8 == |path| || path[a + 8] == '/')
  }

  /** The check finds the reserved name exactly if it is a whole component of the path. */
  lemma {:induction false} ReservedIff(path: string)
    ensures HasReserved(path) <==> exists a :: ReservedAt(path, a)
  {
    ReservedIn(path, "", path);
  }

  lemma {:induction false} ReservedIn(path: string, part: string, whole: string)
    requires '/' !in part && whole == part + path
    ensures HasReserved(path, part) <==> exists a :: ReservedAt(whole, a)
    decreases |path|
  {
    if path == "" {
      assert whole == part;
      ReservedAlone(part);
    } else if path[0] == '/' {
      ReservedIn(path[1..], "", path[1..]);
      ReservedSplit(part, path[1..], whole);
    } else {
      ReservedIn(path[1..], part + [path[0]], whole);
    }
  }

  lemma ReservedAlone(part: string)
    requires '/' !in part
    ensures (exists a :: ReservedAt(part, a)) <==> part == RESERVED
  {
    if a :| ReservedAt(part, a) {
      assert a == 0 && |part| == 8 && part[0..8] == part;
    }
    if part == RESERVED {
      assert part[0..8] == part;
      assert ReservedAt(part, 0);
    }
  }

  /** A component is the one before the first separator or one behind it. */
  lemma {:induction false} ReservedSplit(part: string, rest: string, whole: string)
    requires '/' !in part && whole == part + "/" + rest
    ensures (exists a :: ReservedAt(whole, a)) <==> part == RESERVED || exists a :: ReservedAt(rest, a)
  {
    ReservedFirst(part, rest, whole);
    if a :| ReservedAt(whole, a) && a > 0 {
      assert whole[a - 1] == '/' && a - 1 >= |part|;
      ReservedLater(part, rest, whole, a - |part| - 1);
    }
    if a :| ReservedAt(rest, a) {
      ReservedLater(part, rest, whole, a);
    }
  }

  lemma ReservedFirst(part: string, rest: string, whole: string)
    requires '/' !in part && whole == part + "/" + rest
    ensures ReservedAt(whole, 0) <==> part == RESERVED
  {
    if ReservedAt(whole, 0) {
      assert whole[|part|] == '/' && forall i | 0 <= i < 8 :: whole[i] == RESERVED[i] != '/';
      assert |whole| > 8 && whole[8] == '/';
      assert |part| == 8;
    }
    if part == RESERVED {
      assert whole[0..8] == part && whole[8] == '/';
    }
  }

  lemma ReservedLater(part: string, rest: string, whole: string, a: int)
    requires whole == part + "/" + rest
    ensures ReservedAt(rest, a) <==> ReservedAt(whole, a + |part| + 1) && a >= 0
  {
    if 0 <= a && a + 8 <= |rest| {
      assert whole[a + |part| + 1..a + |part| + 9] == rest[a..a + 8];
      assert whole[a + |part|] == if a == 0 then '/' else rest[a - 1];
    }
  }

  /** The bytes that go over the wire for one file. */
  ghost function WireBytes(seal: SealFn, kek: Bytes, f: File, encrypted: bool): Bytes
    requires Usable(seal, kek, f)
  {
    if encrypted then Encrypted(seal, kek, f) else f.plain
  }

  /** `preUploadSizeCheck`: is an object of recorded size `size` let through to a target accepting `maxSize` bytes? */
  predicate SizeAdmits(isFile: bool, size: int, encrypt: bool, skipEncryption: bool, maxSize: bool -> int)
  {
    if !isFile then true
    else
      var encrypted := encrypt && !skipEncryption;
      (if encrypted then EncryptedSize64(size) else size) <= maxSize(encrypted)
  }

  /** The gate lets a file through exactly when the bytes it will put on the wire fit the target's limit. */
  lemma SizeGateExact(seal: SealFn, kek: Bytes, f: File, encrypt: bool, skipEncryption: bool, maxSize: bool -> int)
    requires Usable(seal, kek, f) && |f.plain| <= MAX_PLAINTEXT
    ensures var encrypted := encrypt && !skipEncryption;
            SizeAdmits(true, |f.plain|, encrypt, skipEncryption, maxSize)
            <==> |WireBytes(seal, kek, f, encrypted)| <= maxSize(encrypted)
  {
    EncryptedSizeExact(seal, kek, f);
    EncryptedSizeFits(|f.plain|);
  }

  /** Past `MAX_PLAINTEXT` the 64-bit size is negative, so the gate lets through what cannot fit any limit. */
  lemma SizeGateOverflow(n: nat, maxSize: bool -> int)
    requires MAX_PLAINTEXT < n <= MAX_INT64 && maxSize(true) >= 0
    ensures EncryptedSize(n) > MAX_INT64 && SizeAdmits(true, n, true, false, maxSize)
  {
    EncryptedSizeIncreasing(MAX_PLAINTEXT, n);
    assert EncryptedSize(MAX_PLAINTEXT) == MAX_INT64;
  }
}
