# cloudbackup: a verified model of its core

cloudbackup is an incremental, versioned, multi-target backup daemon with client-side encryption. This project models
the parts of it whose correctness is hard to see from the code, and proves what they are for:

- the **backup ledger** (`files`, `remote_files`, `backup_collections` and one versioned object store per target), with
  every step that can fail or be cancelled part-way through the loop over targets, up to "the collection of an
  incremental job records what a full backup would have recorded";
- the **encrypted stream**: integrity for any input and the round trip for every pair of read-buffer sequences;
- the **keystore bring-up** of any number of daemons over one conditional-create register;
- the **resumable restore** under failure, stop, crash and resume, and the exactness of its LIKE-based selection;
- the **database gate** and the **list of running jobs**, as interleaved protocols;
- **masking and unmasking** of configurations, and **pagination tokens** with the paging built on them.

Pure logic is modelled by functions and lemmas. Code that updates objects or arrays in place is modelled by classes and
methods whose `ensures` equate the new state with a specification function of the old one; the invariants are then
proved about those functions, over every run. Everything outside the program (what the disk looks like, which call
fails, when a context is cancelled, which random value is drawn, when a crash falls) is an input that the theorems
quantify over.

Run `dafny verify dfyconfig.toml` to check everything.

| files | component |
|---|---|
| `Format`, `Aead`, `Stream`, `RoundTrip`, `PreUpload` | `cbcrypto`, the ideal cipher, the pre-upload size gate |
| `Records` | change detection and what is recorded about a path |
| `Ledger`, `LedgerTables`, `LedgerEffects`, `LedgerTransactions`, `LedgerHistory`, `LedgerJobs`, `LedgerFields`, `LedgerContent`, `LedgerSettling`, `LedgerExamples` | the backup ledger and its theorems |
| `Sweep`, `Backup` | the deletion sweep; the backup's methods as they change state |
| `Base64`, `Keystore`, `KeystoreAgreement` | sidecar, bring-up, agreement of daemons |
| `Restore`, `RestoreLoop`, `Selection` | the restore job and its manifest query |
| `Gate`, `GateSkew`, `RunningJobs` | shared-state gates |
| `Masking`, `MaskingSecrets`, `MaskingInPlace`, `Tokens`, `StartTimes` | the two undo pairs, and the order of the report |

## What the model found

Properties one would expect that do not hold of the code. Each has a lemma with the exact condition under which the code
does meet it and, where that condition does not already name the inputs, a lemma with an input or a run that shows the
failure.

- A target that is skipped (too large, or reserved path) while the content or the encryption setting changes gets, at the
  next metadata change, a row whose flag, size and checksum are those of the file on disk but whose object is the old one:
  `LedgerContent.SkippedTargetMislabels`. Exact conditions: `LedgerContent.MetadataFlagIff` for the flag,
  `LedgerContent.MetadataDescribesIff` for size and checksum. On targets never skipped it cannot happen:
  `LedgerHistory.LedgerInvariant`, `LedgerContent.RowsDescribeObjects`.
- After a cancelled upload the compensating deletes use the same cancelled context, so every object sent to an earlier
  target stays behind: `LedgerExamples.CancelOrphansExample`. The store is as before exactly if no earlier target was sent
  one: `LedgerTransactions.CancelOrphans`.
- A failing commit leaves uploaded objects that no table mentions: `LedgerExamples.CommitFailureExample`. The stores are as
  before exactly if only attributes changed, the path is no file, or every target is passed over:
  `LedgerTransactions.CommitFailureOrphans`.
- The up-to-date branch of `Do` reports success even when its queries failed and the job's collection stayed incomplete:
  `LedgerExamples.UpToDateExample`; `LedgerJobs.UpToDateHolds` says exactly for which targets,
  `LedgerJobs.UpToDateComplete` exactly when.
- An encryption flip with checksums on stores an empty checksum, so the path is uploaded twice; a path with something
  unreadable, or with times not after 1970, never settles: `LedgerSettling.Settles` has the exact condition.
- A record with such times is rejected by every later run and by the sweep, and stays in the ledger for ever:
  `LedgerSettling.RejectedAfter`, `LedgerSettling.RejectedNow`, `LedgerSettling.RejectedForEver`. A candidate of the sweep is
  offered to `markDeleted` exactly if its look-up works: `Backup.Backup.FindAndMarkDeleted`.
- The sweep need not end: `Sweep.StuckIff` says exactly when a full batch changes nothing, `Sweep.StuckForEver` that it is
  then met again without end, `Sweep.StuckExample` gives an input for every batch size.
- Past 9221120786662719379 bytes the 64-bit size wraps and the size gate lets the file through: `PreUpload.SizeGateOverflow`,
  `PreUpload.SizeGateExact`.
- A restore job is resumed to `finished` without restoring anything exactly if every row of its manifest is done, also when
  the manifest was never written: `Restore.ResumeFinishesIff`, `Restore.EmptyJobFinishes`.
- A resume that cannot open the restore database ends without preserving the record, and the cleanup writes `failed` over
  it, so that a finished job becomes a failed one that can be resumed again (restore/restore.go:373-382, 770-788,
  scheduler/scheduler.go:823-831): `Restore.FinishedBecomesFailed`. A refused resume leaves the record alone exactly if it
  could open the database, `Restore.RefusedResume`, and without such a resume a finished record never changes,
  `Restore.FinishedForEver`.
- LIKE is case-insensitive on ASCII letters, so a restore of `/a` also selects `/A/x`; and nothing inside a requested `/` is
  selected: `Selection.CaseAndRoot`, with the exact condition in `Selection.ExactIff`.
- `CloseDb` can return while a handle is still open: `Gate.OpenHandleAfterClose`; the threads with an open handle are then
  exactly those between their decrement and their close: `Gate.HandleOutlivesCount`.
- A backup whose sweep was cancelled is cleaned up twice and disconnects twice, so that the client count wraps around. A
  polling `CloseDb` then goes on exactly when there are as many clients as stray disconnects, `GateSkew.SkewedGate`: with
  none left it polls for ever and keeps the database locked, `GateSkew.SecondCleanupIsStuck`, `GateSkew.PollsForEver`; with
  one left it returns too early, `GateSkew.SecondCleanupIsEarly`.
- Masking covers an empty secret parameter, which unmasking then refuses, and of two emails to one server and user the second
  comes back with the password of the first: `Masking.EmptySecretExample`, `Masking.TwoEmailsExample`, with the exact
  condition in `Masking.MaskRoundTrip`.
- The error message for an unknown email entry indexes the old list and panics when that is too short:
  `MaskingInPlace.EmailPanicExample`; `MaskingInPlace.CopyEmailPasswords` says exactly when.
- The restore report is sorted by the text of the start time, which in UTC puts a tenth of a second behind fifteen
  hundredths: `StartTimes.MisreadExample`. Of two times in one zone the text order is the order of time exactly unless, in
  UTC and within one second, the later fraction continues the earlier: `StartTimes.TextOrderIff`.
- A page token with limit 0 is its own successor: `Tokens.NeverStopsIffLimitZero`; a page whose end does not fit 64 bits is a
  slice out of bounds: `Tokens.PageFailsIff`.

## Model

| member | source | states |
|---|---|---|
| Format.MarshalBinary | cbcrypto/crypto.go:157-168 | the buffer filled in place is the marshalled header |
| Format.HeaderRoundTrip | cbcrypto/crypto.go:157-193 | a header survives marshal then unmarshal exactly if its version is 1 and its chunk size positive |
| Format.UnmarshalThenMarshal | cbcrypto/crypto.go:173-193 | marshalling what was parsed gives the input back, up to the reserved bytes and what follows the header |
| Format.BuildChunkNonce | cbcrypto/crypto.go:216-234 | the nonce filled in place is prefix, 56-bit big-endian counter and last flag; a larger counter is refused |
| Format.NonceLayout | cbcrypto/crypto.go:216-234 | the first four bytes are the prefix, the next seven spell the counter big-endian, the last flags the last chunk |
| Format.NonceInjective | cbcrypto/crypto.go:216-234 | nonces are distinct for all (prefix, counter, last) up to 2^56 - 1 |
| Format.NonceRepeatsPastTheBound | cbcrypto/crypto.go:216-234 | that bound is exact |
| Format.EncryptedSizeIncreasing | cbcrypto/crypto.go:199-211 | the encrypted size is strictly increasing |
| Format.EncryptedSizeFits | cbcrypto/crypto.go:199-211 | 64-bit arithmetic gives the true size exactly up to a stated bound |
| Aead.SealedOnce | cbcrypto/reader.go:38-76 | no (key, nonce) pair is used for two plaintexts |
| Aead.IdealOpenExists | cbcrypto/crypto.go:131-144 | the ideal cipher the theorems assume exists for every set of encrypted files |
| Aead.OpenedChunkIsGenuine | cbcrypto/reader.go:264-298 | a chunk that opens is a genuine chunk at its genuine place, last flag included |
| Stream.EncryptedSizeExact | cbcrypto/crypto.go:199-211 | `EncryptedSize(n)` is the exact length of the encrypted object for every plaintext |
| Stream.EncryptedHeader | cbcrypto/reader.go:50-66 | an encrypted object starts with magic, version 1, the keystore's identifier, the wrap nonce, the content key sealed under the key-encryption key, the nonce prefix and the chunk size, and parses to these |
| Stream.ChunkInPlace | cbcrypto/reader.go:112-143 | chunk number k lies k full chunks behind the header, sealed under the file's prefix, that number and the last flag |
| Stream.EncryptingReader.Read | cbcrypto/reader.go:81-110 | one `Read` equals its specification for every buffer length |
| Stream.EncryptingReader.EncryptNextChunk | cbcrypto/reader.go:112-143 | sealing the next block equals its specification, errors included |
| Stream.EncReadSound | cbcrypto/reader.go:81-143 | every read hands out the next bytes of the encrypted object; EOF only at its end |
| Stream.DecryptingReader.ParseHeader | cbcrypto/reader.go:225-262 | header parsing and key unwrapping equal their specification |
| Stream.AcceptsHeaderIff | cbcrypto/reader.go:225-262 | which headers are accepted, told from the bytes, chunk sizes up to 64 MiB; the key-encryption key is given up in any case |
| Stream.DecryptingReader.PeekHeader | cbcrypto/reader.go:191-201 | peeking parses at most once and consumes no body |
| Stream.DecryptingReader.DecryptNextChunk | cbcrypto/reader.go:264-298 | opening the next block equals its specification |
| Stream.AcceptsChunkIff | cbcrypto/reader.go:264-298 | which blocks are accepted: long enough, numbered below 2^56, and opening under the nonce of their number and of whether the input ends with them |
| Stream.DecryptingReader.Read | cbcrypto/reader.go:203-223 | one `Read` equals its specification for every buffer length |
| Stream.ReadSound | cbcrypto/reader.go:203-298 | integrity: for any input bytes, everything delivered is a prefix of one original plaintext and EOF is reached only when all of it was |
| Stream.ReadGenuine | cbcrypto/reader.go:203-298 | on a genuine object a read never fails and makes progress |
| RoundTrip.EncryptAll | cbcrypto/reader.go:81-143 | draining the encrypting reader yields the whole object, with its header and chunks as stated above, or an error exactly when the source breaks or is too long |
| RoundTrip.DecryptAll | cbcrypto/reader.go:203-298 | draining any input yields a prefix of one plaintext; of the genuine object, all of it |
| RoundTrip.PeekGenuine | cbcrypto/reader.go:191-201 | the header peeked in a genuine object holds the keystore identifier it was written with |
| RoundTrip.EncryptThenDecrypt | cbcrypto/reader.go:81-298 | the round trip for every plaintext and all buffer lengths on both sides |
| PreUpload.SizeGateExact | backup/preupload.go:35-57 | a file is let through exactly when its bytes on the wire fit the target's limit |
| PreUpload.SizeGateOverflow | backup/preupload.go:35-57 | beyond the stated bound the gate lets through what cannot fit |
| PreUpload.ReservedIff | backup/preupload.go:69-84 | the reserved name is found exactly if it is a whole component of the path |
| Records.UpToDateIffAgrees | backup/backup.go:600-658 | the detector reports no change exactly when record and disk agree on every compared field |
| Records.UpdatedRecordAgrees | backup/backup.go:57-76 | an updated record agrees with the disk exactly if everything was readable and no encryption flip lost the checksum |
| Records.FullRecordAgrees | backup/backup.go:144-181 | a new record agrees with the disk exactly if everything was readable |
| Records.RecordedChecksum | backup/backup.go:144-181 | which checksum is recorded: none with checksums off or for what is no file, the one read, the random one, or none after an encryption flip |
| Records.AgreeingRecordsAreTheSame | backup/backup.go:600-701 | beside a record that agrees with the disk, another agrees exactly if the two are the same in every field the detector determines |
| LedgerTables.NewestIsLast | backup/backup.go:396-437 | the next version is one more than the number of rows |
| LedgerTables.NewestLiveIsLast | backup/backup.go:483-524 | the newest live row is the last one when that is live |
| LedgerTables.UndoRemoves | backup/backup.go:314-319 | compensation removes exactly the placed objects whose delete succeeds |
| LedgerEffects.LoopShows | backup/backup.go:223-302 | a loop that ends well adds to each target the row it is due, with its collection entry, and changes nothing else |
| LedgerEffects.LoopStore | backup/backup.go:239-267 | the loop overwrites no object, and all it adds is on its list |
| LedgerEffects.UndoRestores | backup/backup.go:303-319 | compensation never touches earlier objects and restores the store when every delete succeeds |
| LedgerTransactions.CommitsIff | backup/backup.go:201-335 | a transaction commits exactly when nothing fails or is cancelled at any target or around the loop |
| LedgerTransactions.BlockedIff | backup/backup.go:223-302 | what stands in the way at a target, told from the answers of queries and stores; and when a transaction is cancelled there |
| LedgerTransactions.Nothing | backup/backup.go:303-331 | without commit the tables are unchanged; after failure or cancellation the objects are gone too when the deletes succeed; no earlier object is ever touched |
| LedgerTransactions.RolledBackIff | backup/backup.go:303-319 | after failure or cancellation the stores hold what they held and the objects of the targets that were reached, were sent one and refuse the delete; so they are as they were exactly if there is no such target, or the loop was never entered |
| LedgerTransactions.CancelOrphans | objectstore/store_aws_s3.go:168-180 | on the S3 and GCP stores, which delete under the cancelled context, a cancelled transaction leaves the store as it was exactly if no earlier target was sent an object |
| LedgerTransactions.All | backup/backup.go:208-335 | with commit every target not skipped gains exactly one row and one entry, with its object stored; everything else is as it was |
| LedgerTransactions.CommitFailureOrphans | backup/backup.go:328-331 | a failing commit leaves every uploaded object behind; the stores are as they were exactly if only attributes changed, the path is no file, or every target is passed over |
| LedgerTransactions.LoopSends | backup/backup.go:223-302 | the list of placed objects holds exactly those of the targets that the loop reaches and sends one, told from the tables before the transaction |
| LedgerTransactions.SkipsIff | backup/preupload.go:35-84 | a target is passed over exactly if the reserved name is in the path or a file's size on the wire exceeds the target's limit |
| LedgerHistory.DecideCall | backup/backup.go:57-106 | what the branches of `Do` hand to the transaction; a metadata update keeps kind and encryption |
| LedgerHistory.TransactKeepsInv | backup/backup.go:185-335 | every transaction keeps the ledger invariant on the targets it does not skip |
| LedgerHistory.StepKeepsInv | backup/backup.go:39-335 | so does every step of every job |
| LedgerHistory.StepKeepsTables | backup/backup.go:185-335 | every step, skips included, keeps versions gapless, uuids unique and collections without dangling entries |
| LedgerHistory.LedgerInvariant | backup/backup.go:39-335 | over every run from empty: gapless versions everywhere; on every target never skipped, whatever happened to the others, a path is in `files` iff its newest row is live, with the same properties, and every live file row names its object, ciphertext iff flagged |
| LedgerHistory.VersionsWithSkips | backup/backup.go:239-249 | versions stay 1..n across skipped and rolled-back attempts |
| LedgerJobs.DoFrame | backup/backup.go:39-110 | `Do` leaves rows, collections and record of every other path alone |
| LedgerJobs.UpToDateHolds | backup/backup.go:77-98 | the up-to-date branch collects exactly from the targets whose queries worked |
| LedgerJobs.UpToDateComplete | backup/backup.go:77-98 | it is complete exactly if no query failed |
| LedgerJobs.FailedDoRecordsNothing | backup/backup.go:39-110 | a `Do` that neither commits nor finds the path up to date leaves the tables alone |
| LedgerJobs.StoppedDoDoesNothing | backup/backup.go:39-56 | a `Do` that finds its job cancelled or cannot read the record does nothing |
| LedgerJobs.DoRecordsDisk | backup/backup.go:39-110 | after a successful `Do`, whichever branch ran, the job holds one live row per target; it agrees with the disk exactly if readable and no checksum was lost |
| LedgerJobs.JobRecordsDisk | backup/backup.go:39-110 | the same at the end of a whole job in which other paths may fail, for every path whose `Do` succeeded, after any history |
| LedgerJobs.IncrementalEqualsFull | backup/backup.go:39-335 | for every path that both jobs managed to back up, the incremental collection holds the same record as that of a first full backup, except exactly for a lost checksum |
| LedgerFields.StepKeepsObserved | backup/backup.go:57-181 | every step keeps: each record was made from something observed at its path |
| LedgerFields.RunKeepsObserved | backup/backup.go:39-335 | the same over every run |
| LedgerFields.DoMakes | backup/backup.go:39-110 | when the change time moves with the attributes, after a successful `Do` the record says what was observed in every field, whichever branch ran |
| LedgerFields.IncrementalEqualsFullInAllFields | backup/backup.go:600-701 | then the incremental collection holds the same record as a first full backup in every field, owner and permissions included, except exactly for a lost checksum |
| LedgerExamples.CancelOrphansExample | backup/backup.go:303-319 | two targets, cancelled at the second: the object of the first stays |
| LedgerExamples.CommitFailureExample | backup/backup.go:328-331 | a first upload whose commit fails: its object stays |
| LedgerExamples.UpToDateExample | backup/backup.go:77-98 | an unchanged file whose collecting fails is reported without error and missing from the collection |
| LedgerContent.StepKeepsChecksums | backup/backup.go:600-701 | recorded sizes and checksums describe the stored bytes, through every kind of step |
| LedgerContent.RowsDescribeObjects | backup/backup.go:39-335 | the same for every row of every run, on every target never skipped |
| LedgerContent.DoStoresDisk | backup/backup.go:39-335 | with checksums on, the collected row's object holds exactly the bytes on disk, encrypted as configured |
| LedgerContent.JobStoresDisk | backup/backup.go:39-335 | the same at the end of a whole job in which other paths may fail |
| LedgerContent.ChangesAreUploaded | backup/backup.go:57-107 | a file that is new, or differs from its record in the encryption setting, in the checksum when those are on, or else in size, modification time or kind, is uploaded: the collected row's object holds the bytes on disk |
| LedgerContent.JobUploadsChanges | backup/backup.go:600-658 | the same at the end of a whole job in which other paths may fail |
| LedgerContent.OnlyChangesAreUploaded | backup/backup.go:57-100 | when none of these differs nothing is sent and the collected row names the object the newest row named |
| LedgerContent.MetadataFlagIff | backup/backup.go:268-289 | exactly when a metadata-only row names its object with the right encryption flag, with skipped targets allowed |
| LedgerContent.MetadataDescribesIff | backup/backup.go:268-289 | exactly when its size and checksum describe that object |
| LedgerContent.FirstUploadIsAJob | backup/backup.go:144-181 | a first backup meets the assumptions of the theorems about jobs |
| LedgerContent.SkippedTargetMislabels | backup/backup.go:239-289 | a run that ends with eleven encrypted bytes on record and an empty plaintext object |
| LedgerSettling.UndisturbedRun | backup/backup.go:39-110 | an undisturbed run refuses, finds the path up to date or replaces the record: exactly which, and by what |
| LedgerSettling.Settles | backup/backup.go:39-110 | from any ledger state, exactly when `Do` finds an unchanging path up to date on its first, second and every later run |
| LedgerSettling.RejectedAfter | backup/backup.go:664-701 | exactly which successful runs leave a record that is rejected from then on |
| LedgerSettling.RejectedNow | backup/backup.go:530-589 | such a record makes every `Do` refuse and every look-up of the sweep fail, without any change |
| LedgerSettling.RejectedForEver | backup/backup.go:530-589 | over every later run of jobs and deletions it stays as it is |
| Sweep.MarkShrinks | backup/backup.go:964-1112 | an offered path leaves the candidates exactly when its deletion commits; no other path changes |
| Sweep.MarkRemovesIff | backup/backup.go:964-1112 | a path is removed exactly when it is excluded, not included or gone, and nothing fails; a wanted path on disk never is |
| Sweep.BatchShrinks | backup/backup.go:910-946 | an uncancelled batch removes all its paths but those that may stay, and nothing outside it |
| Sweep.BatchOffers | backup/backup.go:910-946 | a path of an uncancelled batch reaches `markDeleted` exactly if its look-up works and its record is not rejected |
| Sweep.CancelStopsBatch | backup/backup.go:910-921 | a batch stops at the first path before which the job is cancelled and leaves that path and all later ones alone |
| Sweep.MarkSweeps | backup/backup.go:1007-1111 | a committed removal adds one delete marker per target, in the job's collection too; every other path is untouched |
| Sweep.MarkStoresMarker | backup/backup.go:1040-1075 | the delete marker of a removed file is in the store of every target, under the version of its new row |
| Sweep.BatchIdlesIff | backup/backup.go:910-946 | a batch changes no table and is not cancelled exactly if each of its paths stays |
| Sweep.StuckIff | backup/backup.go:954-960 | a full batch that changes nothing exists exactly if at least `max` candidates stay |
| Sweep.StuckForEver | backup/backup.go:954-960 | such a batch is met again without end |
| Sweep.StuckExample | backup/backup.go:954-960 | for every batch size an input on which the sweep never ends |
| Backup.Backup.UploadAndUpdate | backup/backup.go:185-335 | the transaction with its loop, `processed` list and rollback equals its specification |
| Backup.Backup.TakeBack | backup/backup.go:314-319 | the loop of compensating deletes equals its specification |
| Backup.Backup.Do | backup/backup.go:39-110 | `Do` with its loop over targets equals its specification |
| Backup.Backup.MarkDeleted | backup/backup.go:922-939 | the look-up and `markDeleted` equal their specification; the path counts as offered exactly if the look-up succeeds |
| Backup.Backup.MarkBatch | backup/backup.go:910-946 | the loop over a batch equals its specification |
| Backup.Backup.FindDeleted | backup/backup.go:868-909 | the query returns distinct candidates, all of them or as many as asked for |
| Backup.Backup.FindAndMarkDeleted | backup/backup.go:864-960 | with fewer than `max` paths that may stay the recursion ends; uncancelled, a candidate was offered exactly if its look-ups work, every candidate that may not stay is gone and has a delete marker in the job's collection on every target, and no other path is touched; what the job collected or failed to back up stays on record |
| Base64.Base64RoundTrip | cbcrypto/keystore/keystore.go:185-196 | base64 decoding inverts encoding for all bytes |
| Keystore.NewHolds | cbcrypto/keystore/keystore.go:102-138 | a fresh sidecar validates, and its key and identifier belong to it |
| Keystore.NewThenVerify | cbcrypto/keystore/keystore.go:246-285 | the password that made a sidecar opens it to the same key |
| Keystore.WrongPasswordFails | cbcrypto/keystore/keystore.go:246-285 | a password that derives another key does not open it |
| Keystore.VerifyIff | cbcrypto/keystore/keystore.go:198-285 | which sidecars a password opens, field by field |
| Keystore.InitResult | objectstore/encryption.go:128-176 | when a bring-up succeeds, and with which sidecar: the one found, its own if created, the winner's after a conflict |
| Keystore.ObtainsWinner | objectstore/encryption.go:165-172 | a daemon that finds the sidecar its password made, at once or after losing the race, obtains that sidecar's key and identifier |
| Keystore.ObtainsOwn | objectstore/encryption.go:141-164 | one that creates the sidecar obtains the key and the identifier it drew; one that may not bootstrap obtains nothing |
| Keystore.OneKeyPerSidecar | cbcrypto/keystore/keystore.go:246-285 | a sidecar has one key and one identifier, whatever passwords they come from |
| Keystore.AeadIsIdeal | cbcrypto/keystore/keystore.go:287-304 | the cipher assumption of the stream covers the verifiers too |
| Keystore.EncryptionState.InitEncryption | objectstore/encryption.go:73-98 | success stores key and identifier and wipes the password; failure changes nothing; idempotent |
| Keystore.Wipe | objectstore/encryption.go:91-96 | the password array is all zeros |
| Keystore.MemStore.BlobPutIfNotExists | objectstore/store_test_null.go:420-429 | creates only when absent, reports a conflict otherwise, changes nothing else |
| KeystoreAgreement.WrittenOnce | objectstore/encryption.go:162-175 | the sidecar is created at most once and never changes |
| KeystoreAgreement.OnlyBootstrapsWrite | objectstore/encryption.go:141-162 | only an attempt that may bootstrap and has no encrypted files on record writes |
| KeystoreAgreement.LandsIff | objectstore/encryption.go:162-175 | a late write takes effect exactly if its create was reported as failed and the bucket has no sidecar |
| KeystoreAgreement.BeginsIff | objectstore/encryption.go:73-90 | a call begins exactly on an idle daemon with encryption on that is not initialised and has its password |
| KeystoreAgreement.InitialisedStays | objectstore/encryption.go:73-98 | once initialised, key and identifier stay until a restart forgets them |
| KeystoreAgreement.FailureChangesNothing | objectstore/encryption.go:73-98 | an attempt that fails leaves the daemon's state as it was |
| KeystoreAgreement.StepsAreOneCall | objectstore/encryption.go:128-176 | the interleaved steps of one daemon are one call of `runEncryptionInit` |
| KeystoreAgreement.StepInStore | objectstore/store_test_null.go:366-429 | every access of the protocol to its register is one call of the in-memory store, which leaves other objects alone |
| KeystoreAgreement.RunKeepsWorld | objectstore/encryption.go:128-193 | every interleaving keeps the protocol invariant |
| KeystoreAgreement.Agreement | objectstore/encryption.go:128-193 | all daemons that succeed hold the same key and keystore identifier, in every interleaving |
| KeystoreAgreement.OthersDecrypt | objectstore/encryption.go:128-193 | any file one daemon encrypts the others decrypt, and the header they peek holds their own keystore identifier |
| KeystoreAgreement.RightPasswordSucceeds | objectstore/encryption.go:128-192 | whoever knows the password of the sidecar in the bucket is initialised by its next undisturbed fetch |
| KeystoreAgreement.RefetchAdopts | objectstore/encryption.go:165-172 | whoever refetches the sidecar that its own password made is initialised with it |
| KeystoreAgreement.LoserAdopts | objectstore/encryption.go:162-172 | so the loser of a race ends with the winner's key and identifier |
| KeystoreAgreement.LoserRefuses | objectstore/encryption.go:165-172 | with another password it ends uninitialised and can begin again |
| KeystoreAgreement.BootstrapSucceeds | objectstore/encryption.go:141-164 | an undisturbed begin, fetch and create on an empty bucket ends initialised, with the drawn sidecar in the bucket |
| KeystoreAgreement.FailedCreateMayLand | objectstore/encryption.go:162-175 | a create reported as failed leaves the daemon as it was, and its sidecar may still reach an empty bucket |
| Restore.LoopStepKeeps | restore/restore.go:184-261 | each write of the loop keeps the run's invariant and how far each counter is ahead of the rows, exactly for items and bytes, from below for failures and skips |
| Restore.StepKeepsInv | restore/restore.go:158-359 | every step, stop, crash, recovery and resume keeps the invariant |
| Restore.DoneIsFinal | restore/restore.go:173-261 | a done row is never changed and never attempted again |
| Restore.DoneForEver | restore/restore.go:158-261 | the same over every later run |
| Restore.RefusedResume | restore/restore.go:373-395 | a resume of a job that cannot be resumed leaves everything as it was exactly if it could open the restore database |
| Restore.FinishedBecomesFailed | restore/restore.go:373-382 | a run to a finished job that such a resume turns into a failed one |
| Restore.FinishedForEver | restore/restore.go:363-423 | over every run in which no resume fails to open the database, a finished record never changes |
| Restore.RestoreInvariant | restore/restore.go:158-423 | over every run: finished means settled; not running means finished or resumable; memory equals database between items; the deficit is at most one item per crash, and without crashes counts and bytes are exact; failed rows exceed the counted failures by at most one per crash, and skipped rows never exceed the counted skips |
| Restore.TotalsMean | restore/restore.go:216-250 | the totals the counters are compared with: done rows by kind, sizes of done files, failed and skipped rows |
| Restore.CrashesAreCounted | restore/restore.go:158-261 | the crashes that bound the deficit are those of the run |
| Restore.NothingLeftIffAllDone | restore/restore.go:173-180 | nothing is left to load exactly when every row is done |
| Restore.ResumeFinishesIff | restore/restore.go:163-180 | in every reachable world a resume ends as `finished` without restoring anything exactly when every row is done |
| Restore.EmptyJobFinishes | restore/restore.go:163-180 | a job without manifest is resumed to `finished` |
| Restore.FailsBeforeLoop | restore/restore.go:163-176 | a run that cannot write or load its manifest ends as failed with rows and counters untouched |
| Restore.ResumeEffects | restore/restore.go:365-423 | a resume changes no row and no counter; it starts a run exactly if nothing fails |
| Restore.RecoverKeeps | database/restore_db.go:211-265 | crash recovery makes the job resumable and keeps the invariant |
| Restore.RecoverEffects | database/restore_db.go:211-265 | recovery marks a started or stopping job as crashed and changes nothing else |
| Restore.StartRefused | restore/restore.go:163-166 | a start that fails, or whose id has a record, leaves everything as it was |
| RestoreLoop.LoopRunSound | restore/restore.go:184-261 | the loop without crashes: settled when finished, memory equal to database, counts in step with the rows, done rows untouched |
| RestoreLoop.ItemOutcome | restore/restore.go:185-250 | one item ends done exactly if its attempt restored it, failed exactly if the attempt failed or the kind is unknown, skipped if it is a delete marker, and ends the job if it was given up |
| RestoreLoop.LoopOutcome | restore/restore.go:184-261 | the whole loop told from the attempts: every row reached ends so, all others are as they were; cancelled exactly if interrupted, otherwise finished exactly if something was restored |
| RestoreLoop.FreshJobOutcome | restore/restore.go:158-359 | the same from the start of a job to its stored record |
| RestoreLoop.ItemRunIsSteps | restore/restore.go:185-250 | one item of the loop is a sequence of steps of the protocol that crashes interrupt |
| RestoreLoop.StopIsHonoured | restore/restore.go:184-193 | a requested stop ends the job as cancelled at the next item or behind the last |
| RestoreLoop.RestoreJob.RestoreItem | restore/restore.go:185-250 | one item, write by write, equals its specification, and leaves its row as its attempt says |
| RestoreLoop.RestoreJob.FinishItem | restore/restore.go:216-250 | the writes after an attempt, in their order, equal their specification: done if the attempt restored the item, failed if not |
| RestoreLoop.RestoreJob.RestoreItems | restore/restore.go:184-261 | the loop over the manifest equals its specification, and its result and rows are those that the attempts make |
| Selection.EscapedPrefix | restore/restore.go:548-556 | LIKE on an escaped prefix plus `%` matches exactly the strings with that prefix, up to LIKE's equality |
| Selection.PercentIsAnyText | restore/restore.go:548-556 | a percent sign in a pattern stands for any text |
| Selection.UnderscoreIsOneCharacter | restore/restore.go:548-556 | an underscore stands for one character |
| Selection.EscapedIsItself | restore/restore.go:548-556 | an escaped text stands for itself, up to LIKE's equality |
| Selection.FetchItems | restore/restore.go:503-572 | selected are precisely the requested rows and those below a requested directory with a row; no uuid is repeated |
| Selection.MergeUnseen | restore/restore.go:563-571 | the merge adds every child once |
| Selection.ExactIff | restore/restore.go:539-556 | the child query finds exactly what is inside a directory, for all paths, exactly if its name has no ASCII letter and does not end in the separator |
| Selection.SelectedExactly | restore/restore.go:503-572 | then the selection is exactly the requested rows and those inside a requested directory |
| Selection.CaseAndRoot | restore/restore.go:539-556 | over-selection by case, and a root whose content is not selected |
| Selection.StripTrailing | restore/restore.go:637-656 | the longest prefix without trailing separator, roots preserved |
| Gate.MutexWithTimeout.GetLockWithTimeout | utils/lock.go:23-34 | takes the token when there is one |
| Gate.MutexWithTimeout.ReleaseLock | utils/lock.go:41-54 | puts the token back, repeatedly safe |
| Gate.DbAccess.OpenDb | database/database.go:149-167 | counts a client exactly if it succeeds and gives the token back; it is the protocol's undisturbed open |
| Gate.DbAccess.DisconnectFromDb | database/database.go:192-199 | counts one client less, wrapping in 32 bits; it is the protocol's undisturbed disconnect |
| Gate.StepKeepsInv | database/database.go:144-268 | every atomic step keeps: one token, count equals clients, zero while a close holds |
| Gate.GateInvariant | database/database.go:144-268 | in every interleaving the count equals the clients and never underflows; from `CloseDb` to `UnlockDb` it is zero and nobody is past the gate |
| Gate.NobodyEnters | database/database.go:226-268 | while the lock is kept no step of another thread gets in |
| Gate.HandleOutlivesCount | database/database.go:192-204 | in every run, while a close holds the lock, the threads with an open handle are exactly those between decrement and close |
| Gate.OpenHandleAfterClose | database/database.go:192-204 | there are runs with such a thread |
| Gate.CloseAloneIs | database/database.go:226-268 | an undisturbed close with `releaseLock` gives the token back; without it the close keeps the token until the unlock |
| Gate.DisconnectAloneIs | database/database.go:192-210 | an undisturbed disconnect gives up one client and leaves the lock alone |
| Gate.WaitersWait | database/database.go:149-162 | a thread that waits for the token gets it by taking it only; an open gives up by its timeout only |
| GateSkew.RunKeepsSkew | database/database.go:144-268 | over every interleaving with stray disconnects the count is the clients less the strays, in 32 bits, and there is one token |
| GateSkew.SkewedGate | database/database.go:226-250 | a polling `CloseDb` goes on exactly when there are as many clients as stray disconnects |
| GateSkew.PollsForEver | database/database.go:226-250 | with fewer clients than stray disconnects it polls for ever, and no other thread ever has the token |
| GateSkew.SecondCleanupIsStuck | scheduler/scheduler.go:399-403 | the second cleanup after a cancelled sweep is such a case when no client is left |
| GateSkew.SecondCleanupIsEarly | scheduler/scheduler.go:399-403 | with one client left its close returns while that client is connected |
| RunningJobs.JobsState.IsRunning | shared/structs_scheduler.go:346-368 | whether some job matches name and id |
| RunningJobs.JobsState.IsStopping | shared/structs_scheduler.go:370-393 | whether some matching job is stopping |
| RunningJobs.JobsState.MarkRunning | shared/structs_scheduler.go:395-537 | takes the name's slot exactly if it is free |
| RunningJobs.JobsState.MarkStopped | shared/structs_scheduler.go:542-591 | the rebuilt list, or an error and no change |
| RunningJobs.JobsState.IncrementCounter | shared/structs_scheduler.go:593-651 | one more in one counter of the first job of the name |
| RunningJobs.JobsState.SeedCounter | shared/structs_scheduler.go:653-668 | overwrites an existing counter of one job |
| RunningJobs.StopIsMeantIff | shared/structs_scheduler.go:542-591 | `MarkStopped` keeps every other job exactly when no job of that name has another id |
| RunningJobs.OneSlotPerName | scheduler/scheduler.go:162-257 | no sequence of commands makes two jobs of one name run |
| RunningJobs.StopAfterAnyCommands | scheduler/scheduler.go:691-746 | after any commands, stopping a job changes or removes that job only and keeps all others in place |
| RunningJobs.StopAndFinish | shared/structs_scheduler.go:542-591 | a stop leaves the job in its place as stopping; a finish removes it and frees its name |
| RunningJobs.FinishThenStart | scheduler/scheduler.go:162-257 | after any commands a running job cannot be started again, a stop marks it, and a finished one can be started or resumed |
| RunningJobs.TickCounts | shared/structs_scheduler.go:593-651 | counting adds one in 64 bits to one counter of one job |
| RunningJobs.SeedSets | shared/structs_scheduler.go:653-668 | seeding sets a counter the job has and no other |
| RunningJobs.NoSuchJob | shared/structs_scheduler.go:542-668 | a command about a job that is not there changes nothing |
| RunningJobs.StartRefused | scheduler/scheduler.go:162-257 | a resume without id or target, and any start of a name in use, changes nothing |
| Masking.MaskRoundTrip | config/config.go:924-1172 | unmasking the masked form of a validated configuration gives it back exactly if no secret parameter is empty and emails to one server and user share one password |
| Masking.ParamRoundTrip | config/config.go:1088-1169 | a parameter comes back exactly if it is not an empty secret |
| Masking.EmailRoundTrip | config/config.go:1026-1051 | an email password comes back exactly if the first entry for server and user has the same one |
| Masking.EmptySecretExample | config/config.go:1088-1169 | a validated configuration with an empty secret parameter does not come back |
| Masking.TwoEmailsExample | config/config.go:1026-1051 | the second of two emails to one server and user comes back with the password of the first |
| MaskingSecrets.MaskHides | config/config.go:927-956 | in a masked configuration every password is empty if it was and stars otherwise, every parameter with one of the four secret names is stars, and every other field is as it was |
| MaskingSecrets.FoldsCase | config/config.go:940-946 | folding joins the two cases of a letter and keeps every other ASCII character apart |
| MaskingSecrets.FoldsWhole | config/config.go:940-946 | parameter names are compared whole, by their folded characters |
| MaskingSecrets.StarsOnly | config/config.go:958-961 | a value counts as masked exactly if it is not empty and all stars |
| MaskingSecrets.UserIsPutBack | config/config.go:996-1017 | a user is taken as sent unless its password is stars; then it gets that of the first old user of its name, or the copy fails |
| MaskingSecrets.EmailIsPutBack | config/config.go:1026-1051 | the same for an email, by server and user |
| MaskingSecrets.PassIsPutBack | config/config.go:1060-1087 | the same for an encryption password, by backup, which must not have been empty |
| MaskingSecrets.ParamIsPutBack | config/config.go:1088-1169 | the same for a secret parameter, by backup, target, type and name |
| MaskingSecrets.EverythingIsPutBack | config/config.go:966-1172 | a configuration copied without an error has every entry put back by these rules and is otherwise as sent |
| MaskingInPlace.Sanitize | config/config.go:927-956 | the slices overwritten in place hold the masked configuration, in which `MaskHides` leaves no secret |
| MaskingInPlace.MaskParamArray | config/config.go:940-946 | the nested loop over secret names masks exactly the secret parameters |
| MaskingInPlace.GetCopy | shared/structs_config.go:178-234 | an equal configuration in which every slice that masking writes to is new and unshared |
| MaskingInPlace.GetMasked | httpd/api_rest_config.go:18-29 | the masked copy; without `modifies`, so the live configuration is untouched |
| MaskingInPlace.CopyUserPasswords | config/config.go:996-1017 | the in-place copy equals its specification, errors included |
| MaskingInPlace.CopyEmailPasswords | config/config.go:1026-1051 | the in-place copy for email entries equals its specification; it panics exactly if the first entry without counterpart lies beyond the old list |
| MaskingInPlace.EmailPanicExample | config/config.go:1026-1051 | a masked email against an empty old list meets the condition of the panic |
| MaskingInPlace.CopyParamSecrets | config/config.go:1090-1168 | the in-place copy for the parameters of a target equals its specification |
| Tokens.ListTokenRoundTrip | httpd/api_rest_report.go:280-323 | decoding inverts building for all values |
| Tokens.FileTokenRoundTrip | httpd/api_rest_report.go:991-1177 | decoding inverts building exactly if the job id has no colon, for every path |
| Tokens.SortedIsStable | httpd/api_rest_report.go:604-607 | sorted by the text of the start time, equal texts in their old order |
| Tokens.RestoreListPage | httpd/api_rest_report.go:592-617 | a page is the slice of the sorted merge of all targets |
| Tokens.PagingIsComplete | httpd/api_rest_report.go:553-617 | for every limit but zero, following tokens from offset 0 delivers every merged row exactly once, in order, and stops |
| Tokens.NeverStopsIffLimitZero | httpd/api_rest_report.go:553-556 | a token is answered with itself exactly if its limit is zero |
| Tokens.PageFailsIff | httpd/api_rest_report.go:609-617 | a page is a slice out of bounds exactly if it starts inside the list and its end does not fit 64 bits |
| StartTimes.TextOrderIff | httpd/api_rest_report.go:603-607 | of two times in one zone the earlier has the smaller text exactly unless, in UTC and within one second, the later fraction continues it |
| StartTimes.ReportOrder | httpd/api_rest_report.go:603-607 | sorted rows in one zone are in the order of time except at such pairs |
| StartTimes.MisreadExample | httpd/api_rest_report.go:603-607 | .15 seconds is sorted before .1 seconds in UTC |

## Assumptions

- AES-256-GCM is the abstract AEAD of sections 2.1, 2.2 and 5.2 of RFC 5116, ideal: a ciphertext opens only if it was
  sealed under that key and nonce. Random keys, nonces and uuids do not repeat. `Aead.IdealOpenExists` shows that the
  assumption can be met.
- A store hands out a fresh version for every PUT and fetches by remote version, as the S3 and GCP stores do
  (objectstore/store_aws_s3.go:158-163, 405-417); an upload that is reported as failed has stored nothing.
- A database transaction is atomic, and a failing commit leaves the tables unchanged.
- A conditional create is atomic (section 13.1.2 of RFC 9110); one that is reported as failed may still take effect at
  any later time.
- The change time of a path moves whenever its kind, size, modification time, link, owner or permissions do, where
  `LedgerFields.ChangeTimeTells` says so; the detector relies on it (backup/backup.go:631-632).
- Times are integers; MD5 has no collisions where `LedgerContent` says so, and its values are not the empty string.
- `Do` and the sweep work on a fixed set of distinct targets. Theorems about what the tables and stores hold are for the
  targets that were never skipped; any other target may have been.
- A cancelled upload and the compensating deletes of all targets share one context (objectstore/store_aws_s3.go:168-175, 372;
  objectstore/store_gcp_storage.go:319; scheduler/scheduler.go:306), where `LedgerTransactions.OneContext` says so.

## Left out

- Retention and expiry of old jobs, and the upload of the database copy: not modelled, so "versions are 1..n" is about
  histories from which nothing was purged.
- Azure and the test store fetch by version, not by remote version (objectstore/store_azure_blob.go:315,
  objectstore/store_test_null.go:259): the content theorems are not claimed for them.
- The registration of a database entry by `OpenDb` (database/database.go:168-185): the gate starts from a registered entry.
- The cleanup after a job (scheduler/scheduler.go:409-564) beyond its disconnect and its `CloseDb`: scripts, notifications
  and the second write of the job's row.
- Start times formatted with different zone offsets, as around a change to summer time: `StartTimes` compares texts of one
  zone.
- Restore databases: one restore job is modelled, since all its rows are keyed by its id; writes to the restore database
  are taken to succeed, and the row that `FinalizeJobRecord` fails to update is not modelled.
- The path of `fetchItems` with several targets in one collection: the selection theorem is about the joined rows it is given.
- Row-level scan errors of the sweep query, which shorten a batch: a failing query is modelled, a failing row is not.
- MaskingInPlace.GetCopy: reads the source's values before it fills the new slices; slices that masking does not write to
  (paths, exclusions, schedules) are part of `rest`.
- MaskingInPlace.CopyParamSecrets: the traversal of definitions and targets around it is modelled on values only
  (`Masking.Unmask`).
- `EqualFold` folds the letters that can reach ASCII, which decides every comparison with a secret parameter name.
- Watch messages, rate counters, notifications, rate limits, logging: best effort by design.
- Cloud SDK clients, HTTP transport, YAML and JSON text, argon2id, file system calls, glob matching, permissions: inputs.
- The configuration validators that the masking theorems do not rest on (schedules, sizes, paths, network settings), the
  mapping of restored paths into the restore directory, and the squashing of repeated slashes.
