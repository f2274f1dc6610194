/** What a backup records about one path, and how it decides that the path changed (backup/backup.go:591-701). */
module Records {
  import opened Common

  datatype Kind = File | Dir | Symlink | Unknown

  /** `shared.BackedUpFileProperties` without the path; times are nanoseconds since the epoch. */
  datatype Props = Props(kind: Kind, link: string, size: int, mtime: int, ctime: int, owner: string, perms: string,
                         checksum: string, checksumType: string, encrypted: bool, job: string)

  /** What one backup run observes of a path; `None` is an observation that failed. */
  datatype Disk = Disk(kind: Kind, size: int, mtime: int, ctime: Option<int>, link: Option<string>, owner: string,
                       perms: string, md5: Option<string>, content: Bytes)

  /** The settings of a backup job that the model reads; `limit` is each target's largest object, encrypted or not. */
  datatype Config = Config(checksum: bool, encrypt: bool, limit: (string, bool) -> int)

  /** Go's zero time in nanoseconds, recorded when the change time could not be read. */
  const ZERO_TIME := -6795364578871345152

  datatype Detection = Detection(contentChanged: bool, metadataChanged: bool, ctime: int, checksum: string)

  /** `needsUpload` */
  function NeedsUpload(disk: Disk, rec: Props, compareChecksum: bool, encrypt: bool): Detection {
    var byChecksum := compareChecksum && disk.kind == File;
    var flip := rec.encrypted != encrypt && disk.kind == File;
    var content :=
      if flip then true
      else if byChecksum then disk.md5 != Some(rec.checksum)
      else if rec.kind != Dir && disk.size != rec.size then true
      else if disk.mtime != rec.mtime then true
      else disk.kind != rec.kind;
    var checksum := if !flip && byChecksum && disk.md5.Some? then disk.md5.value else "";
    var metadata :=
      if disk.ctime != Some(rec.ctime) then true
      else disk.kind == Symlink && disk.link != Some(rec.link);
    Detection(content, metadata, if disk.ctime.Some? then disk.ctime.value else ZERO_TIME, checksum)
  }

  /** `PrepareFileRecord` */
  function Prepare(disk: Disk, encrypt: bool, ctime: int, checksum: string, job: string): Result<Props> {
    if disk.kind == Symlink && disk.link.None? then Err
    else
      Ok(Props(disk.kind, if disk.kind == Symlink then disk.link.value else "", if disk.kind == Dir then 0 else disk.size,
               disk.mtime, ctime, disk.owner, disk.perms, checksum, if checksum != "" then "md5" else "", encrypt, job))
  }

  /** The checksum `backupNewItem` records: a random one when the file could not be read, so the next run differs. */
  function NewChecksum(disk: Disk, cfg: Config, fallback: string): string {
    if cfg.checksum && disk.kind == File then (if disk.md5.Some? then disk.md5.value else fallback) else ""
  }

  /** The record a full backup, one with nothing on record yet, makes of the path. */
  function FullRecord(disk: Disk, cfg: Config, fallback: string, job: string): Result<Props> {
    Prepare(disk, cfg.encrypt, if disk.ctime.Some? then disk.ctime.value else ZERO_TIME,
            NewChecksum(disk, cfg, fallback), job)
  }

  /** The record an incremental backup makes of a path whose stored record is `rec`. */
  function UpdatedRecord(disk: Disk, cfg: Config, rec: Props, job: string): Result<Props> {
    var d := NeedsUpload(disk, rec, cfg.checksum, cfg.encrypt);
    Prepare(disk, cfg.encrypt, d.ctime, d.checksum, job)
  }

  /** The record and the object on disk agree on every field this configuration compares. */
  predicate Agrees(rec: Props, disk: Disk, cfg: Config) {
    && (disk.kind == File ==> rec.encrypted == cfg.encrypt)
    && (disk.kind == File && cfg.checksum ==> disk.md5 == Some(rec.checksum))
    && (!(disk.kind == File && cfg.checksum) ==>
          rec.kind == disk.kind && rec.mtime == disk.mtime && (disk.kind != Dir ==> rec.size == disk.size))
    && disk.ctime == Some(rec.ctime)
    && (disk.kind == Symlink ==> disk.link == Some(rec.link))
  }

  /** The detector is exact: it reports the path up to date exactly when the record agrees with the disk. */
  lemma UpToDateIffAgrees(disk: Disk, rec: Props, cfg: Config)
    ensures var d := NeedsUpload(disk, rec, cfg.checksum, cfg.encrypt);
            !d.contentChanged && !d.metadataChanged <==> Agrees(rec, disk, cfg)
  {}

  /** Every observation that the comparison needs could be made. */
  predicate Readable(disk: Disk, cfg: Config) {
    && disk.ctime.Some?
    && (disk.kind == Symlink ==> disk.link.Some?)
    && (cfg.checksum && disk.kind == File ==> disk.md5.Some?)
  }

  /** The detector takes its first branch, which compares no checksum and leaves the recorded one empty. */
  predicate EncryptionFlip(disk: Disk, rec: Props, cfg: Config) {
    disk.kind == File && rec.encrypted != cfg.encrypt
  }

  /**
   * The record written by an update agrees with the disk exactly when everything was readable and the checksum was
   * not lost to an encryption flip. (`md5 != ""` is a fact about MD5 strings.)
   */
  lemma UpdatedRecordAgrees(disk: Disk, rec: Props, cfg: Config, job: string)
    requires disk.md5 != Some("")
    requires UpdatedRecord(disk, cfg, rec, job).Ok?
    ensures Agrees(UpdatedRecord(disk, cfg, rec, job).value, disk, cfg)
            <==> Readable(disk, cfg) && !(cfg.checksum && EncryptionFlip(disk, rec, cfg))
  {}

  /** The record written for a new path agrees with the disk exactly when everything was readable. */
  lemma FullRecordAgrees(disk: Disk, cfg: Config, fallback: string, job: string)
    requires FullRecord(disk, cfg, fallback, job).Ok?
    ensures Agrees(FullRecord(disk, cfg, fallback, job).value, disk, cfg) <==> Readable(disk, cfg)
  {}

  /**
   * Which checksum is recorded: none for what is no file or with checksums off; for a new file the one that was read, or the
   * random one if it could not be; for a known file the one that was read, unless the encryption setting flipped.
   */
  lemma RecordedChecksum(disk: Disk, cfg: Config, fallback: string, rec: Props, job: string)
    ensures var full, updated := FullRecord(disk, cfg, fallback, job), UpdatedRecord(disk, cfg, rec, job);
            && (full.Ok? <==> updated.Ok?) && (full.Ok? <==> !(disk.kind == Symlink && disk.link.None?))
            && (full.Ok? ==>
                  var taken := cfg.checksum && disk.kind == File;
                  && full.value.checksum == (if !taken then "" else if disk.md5.Some? then disk.md5.value else fallback)
                  && updated.value.checksum == (if taken && disk.md5.Some? && rec.encrypted == cfg.encrypt then disk.md5.value else "")
                  && full.value.encrypted == cfg.encrypt && updated.value.encrypted == cfg.encrypt
                  && full.value.job == job && updated.value.job == job)
  {}

  /** What every record satisfies that `Do` writes. */
  predicate WellFormed(rec: Props) {
    && rec.kind != Unknown
    && (rec.kind != Symlink ==> rec.link == "")
    && (rec.kind == Dir ==> rec.size == 0)
    && (rec.checksum != "" ==> rec.kind == File)
    && rec.checksumType == if rec.checksum != "" then "md5" else ""
  }

  /** The records are the same in every field that the fields this configuration compares determine. */
  predicate SameRecord(a: Props, b: Props, disk: Disk, cfg: Config) {
    && a.kind == b.kind && a.link == b.link && a.ctime == b.ctime
    && (disk.kind == File ==> a.encrypted == b.encrypted)
    && (if disk.kind == File && cfg.checksum
        then a.checksum == b.checksum && a.checksumType == b.checksumType
        else a.size == b.size && a.mtime == b.mtime)
  }

  /** Beside a record that agrees with the disk, another one agrees exactly if the two are the same. */
  lemma AgreeingRecordsAreTheSame(a: Props, b: Props, disk: Disk, cfg: Config)
    requires WellFormed(a) && WellFormed(b) && Agrees(b, disk, cfg) && disk.md5 != Some("")
    ensures Agrees(a, disk, cfg) <==> SameRecord(a, b, disk, cfg)
  {}

  /**
   * `getBackedupObjectPropertiesFromDb`: a record whose times are not after 1970 is rejected when it is read back.
   */
  predicate ReadableBack(rec: Props) {
    rec.mtime > 0 && rec.ctime > 0
  }
}
