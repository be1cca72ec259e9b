/**
 * app.py: the IP-keyed server. Clients are keyed by their address (proxy
 * headers first); an upload that would push an address over its cap is
 * refused outright and changes nothing, uploads may be rate-limited per
 * address, and the index page lists the recent uploads of everyone.
 */
module IpBackend {
  import opened Wrappers
  import opened Text
  import opened Ledger
  import opened BlobStore
  import opened Expiry
  import opened Clearing
  import opened Requests
  import opened Recent
  import opened Service

  /** Whether `sum(sizes) + file_size > IP_LIMIT_GB * 1024**3` for the address's bucket. */
  predicate OverIpCap(files: seq<Record>, size: nat, lim: Limits) {
    Usage(files) + size > lim.keyCap
  }

  /** The upload branch of `do_POST` in reject mode, on the state left by the sweep. */
  ghost function IpUpload(s: State, ip: string, body: Body, ids: Fresh, now: int, lim: Limits): (r: Outcome)
    ensures r.response.Uploaded? || r.response == Error(400) || r.response == Error(413)
    ensures !r.response.Uploaded? ==> r.state == s
    ensures r.response.Uploaded? ==> r.response.key == ip && body.Payload? && r.response.size == body.size
  {
    var files := Get(s.db, ip);
    if body.NoFileField? then Outcome(s, Error(400))
    else if OverIpCap(files, body.size, lim) then Outcome(s, Error(413))
    else
      var used := TotalSize(s.blobs);
      if used + body.size > lim.globalCap then Outcome(s, Error(413))
      else
        var name := StoredName(ids.hex, ids.text, body.clientName);
        var grown := files + [Record(name, body.size, now)];
        Outcome(State(Put(s.db, ip, grown), s.blobs[name := body.size]),
                Uploaded(name, ip, body.size, lim.globalCap - used - body.size, lim.keyCap - Usage(grown)))
  }

  /**
   * `RATE_LIMIT_SECONDS and now - last_upload_time.get(ip, 0) < RATE_LIMIT_SECONDS`:
   * an address that never uploaded counts as having uploaded at time 0.
   */
  predicate RateLimited(last: map<string, int>, ip: string, now: int, rateLimit: int)
    ensures rateLimit == 0 ==> !RateLimited(last, ip, now, rateLimit)
    ensures ip !in last && 0 <= now ==> (RateLimited(last, ip, now, rateLimit) <==> now < rateLimit && rateLimit != 0)
    ensures ip in last && last[ip] <= now && 0 < rateLimit ==> (RateLimited(last, ip, now, rateLimit) <==> now < last[ip] + rateLimit)
  {
    rateLimit != 0 && now - (if ip in last then last[ip] else 0) < rateLimit
  }

  /** The persisted state together with the in-memory `last_upload_time` map. */
  datatype IpOutcome = IpOutcome(state: State, last: map<string, int>, response: Response)

  /** `do_POST`: sweep, 404 off the two routes, the rate limit on uploads, then clear or upload. */
  ghost function IpPost(s: State, last: map<string, int>, path: string, ip: string, body: Body, ids: Fresh,
                        now: int, lim: Limits, rateLimit: int): (r: IpOutcome)
    ensures r.response == Error(404) <==> path != "/upload" && path != "/clear"
    ensures path != "/upload" ==> r.last == last
    ensures r.response == Error(429) ==> r.state == AfterSweep(s, now, lim.maxAge) && r.last == last
  {
    var s0 := AfterSweep(s, now, lim.maxAge);
    if path != "/upload" && path != "/clear" then IpOutcome(s0, last, Error(404))
    else if path == "/upload" && RateLimited(last, ip, now, rateLimit) then IpOutcome(s0, last, Error(429))
    else if path == "/clear" then
      var c := ClearKey(s0.db, s0.blobs, ip);
      IpOutcome(State(c.db, c.blobs), last, ClearedKey(ip, c.freed))
    else
      var r := IpUpload(s0, ip, body, ids, now, lim);
      IpOutcome(r.state, if r.response.Uploaded? then last[ip := now] else last, r.response)
  }

  /** The `/static/` branch: the whitelisted asset, if present in the static directory. */
  function StaticResponse(path: string, statics: set<string>): (r: Response)
    requires StartsWith(path, "/static/")
    ensures r == Error(404) || (r.StaticFile? && r.name == path[|"/static/"|..] && r.name in statics)
    ensures r.StaticFile? <==> path[|"/static/"|..] in {"styles.css", "app.js"} && path[|"/static/"|..] in statics
  {
    match StaticAsset(path[|"/static/"|..], statics)
    case Missing => Error(404)
    case Asset(name, contentType) => StaticFile(name, contentType)
  }

  /** `do_GET`: sweep, then the page with the recent uploads, the script, a static file or a download. */
  ghost function IpGet(s: State, path: string, statics: set<string>, now: int, lim: Limits): (r: Outcome)
    ensures r.state == AfterSweep(s, now, lim.maxAge)
    ensures r.response.Download? ==> r.response.name in r.state.blobs && r.state.blobs[r.response.name] == r.response.size
  {
    var s0 := AfterSweep(s, now, lim.maxAge);
    if path == "/" || path == "/index.html" then
      Outcome(s0, IndexWithRecent(TotalSize(s0.blobs), RecentUploads(s0.db, None, lim.maxAge)))
    else if path == "/upload.sh" then Outcome(s0, Script)
    else if StartsWith(path, "/static/") then Outcome(s0, StaticResponse(path, statics))
    else if StartsWith(path, "/download/") then
      var name := DownloadName(path);
      if name in s0.blobs then Outcome(s0, Download(name, s0.blobs[name])) else Outcome(s0, Error(404))
    else Outcome(s0, Error(404))
  }

  /** The bound app.py keeps on every bucket: within the per-address cap. */
  predicate WithinCap(db: Ledger, cap: nat) {
    forall e :: e in db ==> Usage(e.files) <= cap
  }

  /**
   * An upload with a file is admitted exactly when both caps allow it: the
   * address's recorded usage plus the upload within the per-address cap,
   * and the files present plus the upload within the global capacity. A
   * refused upload changes nothing. An admitted one appends exactly one
   * record at the tail of that address's bucket and writes one file of the
   * upload's size; no other address changes and both caps still hold.
   */
  lemma IpUploadAdmits(s: State, ip: string, size: nat, clientName: string, ids: Fresh, now: int, lim: Limits, k: string)
    ensures var r := IpUpload(s, ip, Payload(size, clientName), ids, now, lim);
      var files := Get(s.db, ip);
      var name := StoredName(ids.hex, ids.text, clientName);
      && (r.response.Uploaded? <==> Usage(files) + size <= lim.keyCap && TotalSize(s.blobs) + size <= lim.globalCap)
      && (!r.response.Uploaded? ==> r == Outcome(s, Error(413)))
      && (r.response.Uploaded? ==>
           && r.response.filename == name && r.response.key == ip
           && Get(r.state.db, ip) == files + [Record(name, size, now)]
           && (k != ip ==> Get(r.state.db, k) == Get(s.db, k))
           && name in r.state.blobs && r.state.blobs[name] == size
           && (forall n :: n in r.state.blobs && n != name ==> n in s.blobs && r.state.blobs[n] == s.blobs[n])
           && Usage(Get(r.state.db, ip)) <= lim.keyCap
           && TotalSize(r.state.blobs) <= lim.globalCap
           && r.response.keyRemaining >= 0 && r.response.allocatedRemaining >= 0)
  {
    var r := IpUpload(s, ip, Payload(size, clientName), ids, now, lim);
    var files := Get(s.db, ip);
    var name := StoredName(ids.hex, ids.text, clientName);
    var grown := files + [Record(name, size, now)];
    if r.response.Uploaded? {
      assert r.state == State(Put(s.db, ip, grown), s.blobs[name := size]);
      assert r.response.keyRemaining == lim.keyCap - Usage(grown);
      PutGet(s.db, ip, grown, k);
      PutGet(s.db, ip, grown, ip);
      TotalSizeWrite(s.blobs, name, size);
      UsageAppend(files, [Record(name, size, now)]);
      assert [Record(name, size, now)][1..] == [];
    }
  }

  /** The per-address bound survives every request. */
  lemma IpPostWithinCap(s: State, last: map<string, int>, path: string, ip: string, body: Body, ids: Fresh,
                        now: int, lim: Limits, rateLimit: int)
    requires WithinCap(s.db, lim.keyCap)
    ensures WithinCap(IpPost(s, last, path, ip, body, ids, now, lim, rateLimit).state.db, lim.keyCap)
  {
    var s0 := AfterSweep(s, now, lim.maxAge);
    SweptWithinCap(s, now, lim);
    if path == "/upload" && body.Payload? {
      UploadWithinCap(s0, ip, body.size, body.clientName, ids, now, lim);
    }
  }

  lemma SweptWithinCap(s: State, now: int, lim: Limits)
    requires WithinCap(s.db, lim.keyCap)
    ensures WithinCap(AfterSweep(s, now, lim.maxAge).db, lim.keyCap)
  {
    SweptBuckets(s.db, s.blobs, now, lim.maxAge);
  }

  lemma UploadWithinCap(s: State, ip: string, size: nat, clientName: string, ids: Fresh, now: int, lim: Limits)
    requires WithinCap(s.db, lim.keyCap)
    ensures WithinCap(IpUpload(s, ip, Payload(size, clientName), ids, now, lim).state.db, lim.keyCap)
  {
    var r := IpUpload(s, ip, Payload(size, clientName), ids, now, lim);
    if r.response.Uploaded? {
      var files := Get(s.db, ip);
      var name := StoredName(ids.hex, ids.text, clientName);
      var grown := files + [Record(name, size, now)];
      PutEntries(s.db, ip, grown);
      UsageAppend(files, [Record(name, size, now)]);
      assert [Record(name, size, now)][1..] == [];
    }
  }

  /**
   * The rate limiter: an upload is refused with 429 exactly when the limit
   * is on and the address's last successful upload is too recent; the
   * refusal changes nothing but the sweep; `/clear` is never limited; and
   * the address's time is recorded exactly when an upload succeeds.
   */
  lemma RateLimit(s: State, last: map<string, int>, path: string, ip: string, body: Body, ids: Fresh,
                  now: int, lim: Limits, rateLimit: int)
    requires path == "/upload" || path == "/clear"
    ensures var r := IpPost(s, last, path, ip, body, ids, now, lim, rateLimit);
      && (r.response == Error(429) <==> path == "/upload" && RateLimited(last, ip, now, rateLimit))
      && (r.response == Error(429) ==> r.state == AfterSweep(s, now, lim.maxAge) && r.last == last)
      && (r.last == if r.response.Uploaded? then last[ip := now] else last)
  {
  }

  /** After a successful upload at `t`, the same address is refused another until `t + rateLimit`. */
  lemma TooSoonAfterUpload(s: State, last: map<string, int>, ip: string, body: Body, ids: Fresh, t: int,
                           lim: Limits, rateLimit: int, s2: State, body2: Body, ids2: Fresh, t2: int)
    requires rateLimit > 0 && t <= t2 < t + rateLimit
    requires IpPost(s, last, "/upload", ip, body, ids, t, lim, rateLimit).response.Uploaded?
    ensures var r := IpPost(s, last, "/upload", ip, body, ids, t, lim, rateLimit);
      IpPost(s2, r.last, "/upload", ip, body2, ids2, t2, lim, rateLimit).response == Error(429)
  {
  }

  /**
   * With a 1 GiB per-address cap, an address with nothing stored asking
   * to upload 2 GiB is refused, and its bucket stays empty.
   */
  lemma TwoGiBRejected(s: State, ip: string, clientName: string, ids: Fresh, now: int)
    requires Get(s.db, ip) == []
    ensures var lim := Limits(GiB, 10 * GiB, 3600);
      var r := IpUpload(s, ip, Payload(2 * GiB, clientName), ids, now, lim);
      r.response == Error(413) && r.state == s && Get(r.state.db, ip) == []
  {
  }

  /**
   * A clear removes the address's bucket and the files it names, reports
   * the bytes those files held, and touches no other address.
   */
  lemma IpClear(s: State, last: map<string, int>, ip: string, body: Body, ids: Fresh,
                now: int, lim: Limits, rateLimit: int, other: string)
    requires other != ip
    ensures var s0 := AfterSweep(s, now, lim.maxAge);
      var r := IpPost(s, last, "/clear", ip, body, ids, now, lim, rateLimit);
      && r.response.ClearedKey? && r.response.key == ip
      && Get(r.state.db, ip) == []
      && (forall f :: f in Get(s0.db, ip) ==> f.filename !in r.state.blobs)
      && r.response.freed + TotalSize(r.state.blobs) == TotalSize(s0.blobs)
      && Get(r.state.db, other) == Get(s0.db, other)
      && r.last == last
  {
    var s0 := AfterSweep(s, now, lim.maxAge);
    ClearKeyFacts(s0.db, s0.blobs, ip, other);
  }

  /** Whether some record of the ledger names the file. */
  predicate Named(db: Ledger, name: string) {
    exists e, f :: e in db && f in e.files && f.filename == name
  }

  /** A file whose records are all unexpired survives the sweep with its size. */
  lemma UnexpiredFileKept(s: State, name: string, now: int, maxAge: int)
    requires name in s.blobs
    requires forall e, f :: e in s.db && f in e.files && f.filename == name ==> !Expired(f, now, maxAge)
    ensures name in AfterSweep(s, now, maxAge).blobs && AfterSweep(s, now, maxAge).blobs[name] == s.blobs[name]
  {
    SweptRemovesExpired(s.db, s.blobs, now, maxAge);
    SweptFacts(s.db, s.blobs, now, maxAge);
  }

  /** A download of a file present after the sweep returns it. */
  lemma DownloadServed(s: State, name: string, statics: set<string>, now: int, lim: Limits)
    requires '?' !in name && name in AfterSweep(s, now, lim.maxAge).blobs
    ensures IpGet(s, "/download/" + name, statics, now, lim).response
         == Download(name, AfterSweep(s, now, lim.maxAge).blobs[name])
  {
    DownloadPathRoutes(name);
  }

  /**
   * The download link handed out for an admitted upload works: a download
   * of that name in the same second returns the file with the upload's
   * size, provided the new name was not already in the ledger (a fresh
   * uuid) and contains no `?`.
   */
  lemma UploadThenDownload(s: State, ip: string, size: nat, clientName: string, ids: Fresh, now: int,
                           lim: Limits, statics: set<string>)
    requires lim.maxAge >= 0
    requires '?' !in StoredName(ids.hex, ids.text, clientName)
    requires !Named(s.db, StoredName(ids.hex, ids.text, clientName))
    requires IpUpload(s, ip, Payload(size, clientName), ids, now, lim).response.Uploaded?
    ensures var name := StoredName(ids.hex, ids.text, clientName);
      var r := IpUpload(s, ip, Payload(size, clientName), ids, now, lim);
      IpGet(r.state, "/download/" + name, statics, now, lim).response == Download(name, size)
  {
    var name := StoredName(ids.hex, ids.text, clientName);
    var r := IpUpload(s, ip, Payload(size, clientName), ids, now, lim);
    var rec := Record(name, size, now);
    IpUploadAdmits(s, ip, size, clientName, ids, now, lim, ip);
    assert r.state.db == Put(s.db, ip, Get(s.db, ip) + [rec]);
    AppendedNameUnique(s.db, ip, rec);
    UnexpiredFileKept(r.state, name, now, lim.maxAge);
    DownloadServed(r.state, name, statics, now, lim);
  }

  /** A record appended under a name no record had is the only record with that name. */
  lemma AppendedNameUnique(db: Ledger, ip: string, rec: Record)
    requires !Named(db, rec.filename)
    ensures forall e, f :: e in Put(db, ip, Get(db, ip) + [rec]) && f in e.files && f.filename == rec.filename ==> f == rec
  {
    var files := Get(db, ip);
    PutEntries(db, ip, files + [rec]);
    assert forall f :: f in files ==> f.filename != rec.filename by {
      if Has(db, ip) {
        var i :| 0 <= i < |db| && db[i] == Entry(ip, files);
        assert db[i] in db;
      }
    }
  }

  class IpServer {
    /** The contents of the files database, as last saved. */
    var db: Ledger
    /** The upload directory: filename to size. */
    var blobs: Blobs
    /** `last_upload_time`: per address, the time of its last successful upload. */
    var last: map<string, int>
    const limits: Limits
    /** `RATE_LIMIT_SECONDS`; 0 turns the limiter off. */
    const rateLimit: int
    /** The files present in the static directory. */
    const statics: set<string>

    predicate Valid()
      reads this
    {
      DistinctKeys(db)
    }

    ghost function Snapshot(): State
      reads this
    {
      State(db, blobs)
    }

    constructor(db: Ledger, blobs: Blobs, limits: Limits, rateLimit: int, statics: set<string>)
      requires DistinctKeys(db)
      ensures Valid() && this.db == db && this.blobs == blobs && this.last == map[]
      ensures this.limits == limits && this.rateLimit == rateLimit && this.statics == statics
    {
      this.db := db;
      this.blobs := blobs;
      this.last := map[];
      this.limits := limits;
      this.rateLimit := rateLimit;
      this.statics := statics;
    }

    /** `cleanup_old_files()`. */
    method CleanupOldFiles(now: int)
      requires Valid()
      modifies this
      ensures Valid() && last == old(last)
      ensures Snapshot() == AfterSweep(old(Snapshot()), now, limits.maxAge)
    {
      var r := Expiry.CleanupOldFiles(db, blobs, now, limits.maxAge);
      AfterSweepFacts(Snapshot(), now, limits.maxAge);
      blobs := r.blobs;
      if r.updated {
        db := r.db;
      }
    }

    /** The upload branch: refuse over either cap, else write the file and append its record. */
    method Upload(ip: string, body: Body, ids: Fresh, now: int) returns (resp: Response)
      requires Valid()
      modifies this
      ensures Valid() && last == old(last)
      ensures Outcome(Snapshot(), resp) == IpUpload(old(Snapshot()), ip, body, ids, now, limits)
    {
      ghost var s := Snapshot();
      var files := Get(db, ip);
      if body.NoFileField? {
        return Error(400);
      }
      var size := body.size;
      if Usage(files) + size > limits.keyCap {
        return Error(413);
      }
      var used := GetCurrentUsed(blobs);
      if used + size > limits.globalCap {
        return Error(413);
      }
      var name := StoredName(ids.hex, ids.text, body.clientName);
      blobs := blobs[name := size];
      files := files + [Record(name, size, now)];
      PutDistinct(db, ip, files);
      db := Put(db, ip, files);
      resp := Uploaded(name, ip, size, limits.globalCap - used - size, limits.keyCap - Usage(files));
      assert IpUpload(s, ip, body, ids, now, limits) == Outcome(State(db, blobs), resp);
    }

    /** `do_POST`, with the request's proxy headers and peer address. */
    method DoPost(path: string, realIp: Option<string>, forwardedFor: Option<string>, peer: string,
                  body: Body, ids: Fresh, now: int) returns (resp: Response)
      requires Valid()
      modifies this
      ensures Valid()
      ensures IpOutcome(Snapshot(), last, resp)
           == IpPost(old(Snapshot()), old(last), path, GetClientIp(realIp, forwardedFor, peer), body, ids, now, limits, rateLimit)
    {
      CleanupOldFiles(now);
      var ip := GetClientIp(realIp, forwardedFor, peer);
      if path != "/upload" && path != "/clear" {
        return Error(404);
      }
      if rateLimit != 0 && path == "/upload" {
        var lastTime := if ip in last then last[ip] else 0;
        if now - lastTime < rateLimit {
          return Error(429);
        }
      }
      if path == "/clear" {
        var freed, rest := ClearBlobs(Get(db, ip), blobs);
        blobs := rest;
        if Has(db, ip) {
          DeleteDistinct(db, ip);
          db := Delete(db, ip);
        }
        return ClearedKey(ip, freed);
      }
      resp := Upload(ip, body, ids, now);
      if resp.Uploaded? {
        last := last[ip := now];
      }
    }

    /** `do_GET`. */
    method DoGet(path: string, now: int) returns (resp: Response)
      requires Valid()
      modifies this
      ensures Valid() && last == old(last)
      ensures Outcome(Snapshot(), resp) == IpGet(old(Snapshot()), path, statics, now, limits)
    {
      CleanupOldFiles(now);
      if path == "/" || path == "/index.html" {
        var used := GetCurrentUsed(blobs);
        var recent := GetRecentUploads(db, None, limits.maxAge);
        resp := IndexWithRecent(used, recent);
      } else if path == "/upload.sh" {
        resp := Script;
      } else if StartsWith(path, "/static/") {
        resp := StaticResponse(path, statics);
      } else if StartsWith(path, "/download/") {
        var name := DownloadName(path);
        if name in blobs {
          resp := Download(name, blobs[name]);
        } else {
          resp := Error(404);
        }
      } else {
        resp := Error(404);
      }
    }
  }
}
