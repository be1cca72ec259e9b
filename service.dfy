/**
 * What both HTTP servers share: the configured limits, the parsed request
 * body, the fresh identifiers a request may draw, the persisted state
 * (the ledger file and the upload directory) and the responses.
 */
module Service {
  import opened Ledger
  import opened BlobStore
  import opened Expiry
  import opened Recent

  /** `1024**3`: the configuration gives the caps in GB, counted as GiB. */
  const GiB: nat := 1073741824

  /** The configured limits, in bytes and seconds. */
  datatype Limits = Limits(keyCap: nat, globalCap: nat, maxAge: int)

  /**
   * `IP_LIMIT_GB * 1024**3`, `MAX_STORAGE_GB * 1024**3` and
   * `MAX_AGE_HOURS * 3600` from the configuration file.
   */
  function FromConfig(maxStorageGb: nat, keyLimitGb: nat, maxAgeHours: int): Limits {
    Limits(keyLimitGb * GiB, maxStorageGb * GiB, maxAgeHours * 3600)
  }

  /**
   * The request body: a multipart form without a `file` field, or the
   * uploaded bytes (their count) with the client's filename; a raw body and
   * a file part without a filename both carry the empty name.
   */
  datatype Body = NoFileField | Payload(size: nat, clientName: string)

  /**
   * The identifiers `uuid.uuid4()` would produce for this request: a new
   * token (its `.hex`), and the stored-name prefixes (`.hex` and `str`).
   */
  datatype Fresh = Fresh(token: string, hex: string, text: string)

  /** The files database as persisted, and the upload directory. */
  datatype State = State(db: Ledger, blobs: Blobs)

  datatype Response =
    | Error(code: nat)
    | Uploaded(filename: string, key: string, size: nat, allocatedRemaining: int, keyRemaining: int)
    | ClearedKey(key: string, freed: nat)
    | KeyUsage(key: string, count: nat, used: nat, remaining: nat)
    | Index(used: nat)
    | IndexWithRecent(used: nat, recent: RecentView)
    | Script
    | StaticFile(name: string, contentType: string)
    | Download(name: string, size: nat)

  datatype Outcome = Outcome(state: State, response: Response)

  /**
   * `cleanup_old_files()` at the start of every request: the sweep
   * always deletes the files it condemns, but the ledger file is only
   * rewritten when something was removed.
   */
  function AfterSweep(s: State, now: int, maxAge: int): (r: State)
    ensures |r.db| <= |s.db|
    ensures Shrunk(r.blobs, s.blobs)
  {
    SweptFacts(s.db, s.blobs, now, maxAge);
    var r := Swept(s.db, s.blobs, now, maxAge);
    if r.updated then State(r.db, r.blobs) else s
  }

  /**
   * The persisted sweep: the directory is what the sweep left, and the
   * ledger is either the swept one or, when nothing was removed, the same
   * file as before. It is still a dictionary.
   */
  lemma AfterSweepFacts(s: State, now: int, maxAge: int)
    requires DistinctKeys(s.db)
    ensures var r := Swept(s.db, s.blobs, now, maxAge);
      && AfterSweep(s, now, maxAge).blobs == r.blobs
      && (AfterSweep(s, now, maxAge).db == s.db <==> !r.updated || r.db == s.db)
      && DistinctKeys(AfterSweep(s, now, maxAge).db)
  {
    SweptFacts(s.db, s.blobs, now, maxAge);
    SweptDistinct(s.db, s.blobs, now, maxAge);
  }

  /** `max(limit - used, 0)`, the remaining allowance the `/token` report shows. */
  function Remaining(cap: nat, used: nat): (r: nat)
    ensures r == 0 <==> used >= cap
    ensures r > 0 ==> used + r == cap
  {
    if used >= cap then 0 else cap - used
  }
}
