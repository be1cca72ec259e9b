/**
 * backend.py: the token-keyed server. Clients are keyed by an upload
 * token (sent as a header or query parameter, or minted on the first
 * upload); an upload that would push a token over its cap first evicts that
 * token's oldest files, and the eviction is saved before the global
 * capacity check, so a request rejected for lack of space still loses them.
 */
module TokenBackend {
  import opened Wrappers
  import opened Text
  import opened Ledger
  import opened BlobStore
  import opened Expiry
  import opened Clearing
  import opened Eviction
  import opened Sorting
  import opened Requests
  import opened Service

  /** The client key of an upload: the request's token, or a freshly minted one. */
  function UploadKey(token: Option<string>, ids: Fresh): (key: string)
    ensures Given(token) ==> key == token.value
    ensures !Given(token) ==> key == ids.token
  {
    if Given(token) then token.value else ids.token
  }

  /** Whether the upload overflows the key's allowance and triggers eviction. */
  predicate OverKeyCap(files: seq<Record>, size: nat, lim: Limits) {
    Usage(files) + size > lim.keyCap
  }

  /** The state after the eviction step of an upload (unchanged when it fits). */
  function EvictionStep(s: State, key: string, size: nat, lim: Limits): (r: State)
    ensures !OverKeyCap(Get(s.db, key), size, lim) ==> r == s
    ensures Shrunk(r.blobs, s.blobs)
  {
    var files := Get(s.db, key);
    if OverKeyCap(files, size, lim) then
      var e := Evict(files, size, lim.keyCap);
      State(Put(s.db, key, e.kept), s.blobs - NameSet(e.evicted))
    else s
  }

  /**
   * After the eviction step: reject when the files present plus the upload
   * exceed the global capacity, else write the file and append its record.
   */
  ghost function Admit(s1: State, key: string, size: nat, clientName: string, ids: Fresh, now: int, lim: Limits): (r: Outcome)
    ensures r.response.Uploaded? <==> TotalSize(s1.blobs) + size <= lim.globalCap
    ensures !r.response.Uploaded? ==> r == Outcome(s1, Error(413))
    ensures r.response.Uploaded? ==> r.response.key == key && r.state.blobs == s1.blobs[r.response.filename := size]
  {
    var kept := Get(s1.db, key);
    var used := TotalSize(s1.blobs);
    if used + size > lim.globalCap then Outcome(s1, Error(413))
    else
      var name := StoredName(ids.hex, ids.text, clientName);
      var files := kept + [Record(name, size, now)];
      Outcome(State(Put(s1.db, key, files), s1.blobs[name := size]),
              Uploaded(name, key, size, lim.globalCap - used - size, lim.keyCap - Usage(files)))
  }

  /** The upload branch of `do_POST`, on the state left by the sweep. */
  ghost function TokenUpload(s: State, token: Option<string>, body: Body, ids: Fresh, now: int, lim: Limits): (r: Outcome)
    ensures r.response.Uploaded? || r.response == Error(400) || r.response == Error(413)
    ensures r.response == Error(400) <==> body.NoFileField?
    ensures r.response.Uploaded? ==> r.response.key == UploadKey(token, ids) && r.response.size == body.size
  {
    var key := UploadKey(token, ids);
    if body.NoFileField? then Outcome(s, Error(400))
    else Admit(EvictionStep(s, key, body.size, lim), key, body.size, body.clientName, ids, now, lim)
  }

  /** The `/token` report on a key's bucket. */
  function TokenReport(db: Ledger, key: string, lim: Limits): (r: Response)
    ensures r.KeyUsage? && r.key == key
    ensures r.count == |Get(db, key)| && r.used == Usage(Get(db, key))
    ensures r.remaining == Remaining(lim.keyCap, r.used)
    ensures r.remaining == 0 <==> r.used >= lim.keyCap
  {
    var files := Get(db, key);
    KeyUsage(key, |files|, Usage(files), Remaining(lim.keyCap, Usage(files)))
  }

  /** `do_POST`: sweep, then `/token`, `/clear`, and every other path uploads. */
  ghost function TokenPost(s: State, path: string, header: Option<string>, body: Body, ids: Fresh, now: int, lim: Limits): (r: Outcome)
    ensures path == "/token" ==> r.state == AfterSweep(s, now, lim.maxAge) && (r.response.KeyUsage? || r.response == Error(400))
    ensures path == "/clear" ==> r.response.ClearedKey? || r.response == Error(400)
    ensures path != "/token" && path != "/clear" ==> r.response.Uploaded? || r.response.Error?
  {
    var s0 := AfterSweep(s, now, lim.maxAge);
    var token := GetTokenFromRequest(header, path);
    if path == "/token" then
      if !Given(token) then Outcome(s0, Error(400))
      else Outcome(s0, TokenReport(s0.db, token.value, lim))
    else if path == "/clear" then
      if !Given(token) then Outcome(s0, Error(400))
      else
        var c := ClearKey(s0.db, s0.blobs, token.value);
        Outcome(State(c.db, c.blobs), ClearedKey(token.value, c.freed))
    else TokenUpload(s0, token, body, ids, now, lim)
  }

  /** `do_GET`: sweep, then the page, the script, a `/token…` report or a download. */
  ghost function TokenGet(s: State, path: string, header: Option<string>, now: int, lim: Limits): (r: Outcome)
    ensures r.state == AfterSweep(s, now, lim.maxAge)
    ensures r.response.Download? ==> r.response.name in r.state.blobs && r.state.blobs[r.response.name] == r.response.size
  {
    var s0 := AfterSweep(s, now, lim.maxAge);
    if path == "/" || path == "/index.html" then Outcome(s0, Index(TotalSize(s0.blobs)))
    else if path == "/upload.sh" then Outcome(s0, Script)
    else if StartsWith(path, "/token") then
      var token := GetTokenFromRequest(header, path);
      if !Given(token) then Outcome(s0, Error(400))
      else Outcome(s0, TokenReport(s0.db, token.value, lim))
    else if StartsWith(path, "/download/") then
      var name := DownloadName(path);
      if name in s0.blobs then Outcome(s0, Download(name, s0.blobs[name])) else Outcome(s0, Error(404))
    else Outcome(s0, Error(404))
  }

  /**
   * The bound backend.py keeps on every bucket: within the per-token cap,
   * unless it holds a single upload that was larger than the cap by itself.
   */
  predicate Bounded(db: Ledger, cap: nat) {
    forall e :: e in db ==> Usage(e.files) <= cap || |e.files| <= 1
  }

  /**
   * After the eviction step the token's bucket is either empty or leaves
   * room for the upload, other tokens keep their records, and only files
   * named by the evicted records are deleted.
   */
  lemma EvictionStepFacts(s: State, key: string, size: nat, lim: Limits)
    ensures var s1 := EvictionStep(s, key, size, lim);
      && (Get(s1.db, key) == [] || Usage(Get(s1.db, key)) + size <= lim.keyCap)
      && (forall k :: k != key ==> Get(s1.db, k) == Get(s.db, k))
      && s1.blobs.Keys <= s.blobs.Keys
      && (forall n :: n in s1.blobs ==> s1.blobs[n] == s.blobs[n])
      && (forall n :: n in s.blobs && n !in s1.blobs ==> n in NameSet(Get(s.db, key)))
  {
    var files := Get(s.db, key);
    var s1 := EvictionStep(s, key, size, lim);
    if OverKeyCap(files, size, lim) {
      var e := Evict(files, size, lim.keyCap);
      EvictFits(files, size, lim.keyCap);
      PutGet(s.db, key, e.kept, key);
      forall k | k != key ensures Get(s1.db, k) == Get(s.db, k) {
        PutGet(s.db, key, e.kept, k);
      }
      forall n | n in NameSet(e.evicted) ensures n in NameSet(files) {
        var r :| r in e.evicted && r.filename == n;
        assert r in multiset(SortBy(files, ByTime));
      }
    }
  }

  /**
   * An upload with a file is admitted exactly when, after eviction, the
   * files present plus the upload fit the global capacity. When admitted,
   * the token's bucket is its surviving records plus the new one at the
   * end, the new file is written with its size, no other token changes,
   * the directory stays within the global capacity, and the bucket is
   * within the per-token cap unless the upload alone exceeds it.
   */
  lemma TokenUploadAdmits(s: State, token: Option<string>, size: nat, clientName: string, ids: Fresh, now: int, lim: Limits, k: string)
    ensures var key := UploadKey(token, ids);
      var s1 := EvictionStep(s, key, size, lim);
      var r := TokenUpload(s, token, Payload(size, clientName), ids, now, lim);
      var name := StoredName(ids.hex, ids.text, clientName);
      && (r.response.Uploaded? <==> TotalSize(s1.blobs) + size <= lim.globalCap)
      && (r.response.Uploaded? ==>
           && r.response.filename == name && r.response.key == key
           && Get(r.state.db, key) == Get(s1.db, key) + [Record(name, size, now)]
           && (k != key ==> Get(r.state.db, k) == Get(s.db, k))
           && name in r.state.blobs && r.state.blobs[name] == size
           && (forall n :: n in r.state.blobs && n != name ==> n in s1.blobs && r.state.blobs[n] == s1.blobs[n])
           && TotalSize(r.state.blobs) <= lim.globalCap
           && r.response.allocatedRemaining >= 0
           && (Usage(Get(r.state.db, key)) <= lim.keyCap || Get(r.state.db, key) == [Record(name, size, now)]))
  {
    var key := UploadKey(token, ids);
    var s1 := EvictionStep(s, key, size, lim);
    EvictionStepFacts(s, key, size, lim);
    AdmitFacts(s1, key, size, clientName, ids, now, lim, k);
  }

  /** What an admitted upload does to the state the eviction step left. */
  lemma AdmitFacts(s1: State, key: string, size: nat, clientName: string, ids: Fresh, now: int, lim: Limits, k: string)
    ensures var r := Admit(s1, key, size, clientName, ids, now, lim);
      var name := StoredName(ids.hex, ids.text, clientName);
      r.response.Uploaded? ==>
        && r.response.filename == name
        && Get(r.state.db, key) == Get(s1.db, key) + [Record(name, size, now)]
        && Usage(Get(r.state.db, key)) == Usage(Get(s1.db, key)) + size
        && (k != key ==> Get(r.state.db, k) == Get(s1.db, k))
        && name in r.state.blobs && r.state.blobs[name] == size
        && (forall n :: n in r.state.blobs && n != name ==> n in s1.blobs && r.state.blobs[n] == s1.blobs[n])
        && TotalSize(r.state.blobs) <= lim.globalCap
        && r.response.allocatedRemaining >= 0
  {
    var name := StoredName(ids.hex, ids.text, clientName);
    var files := Get(s1.db, key) + [Record(name, size, now)];
    var r := Admit(s1, key, size, clientName, ids, now, lim);
    if r.response.Uploaded? {
      assert r.state == State(Put(s1.db, key, files), s1.blobs[name := size]);
      PutGet(s1.db, key, files, k);
      PutGet(s1.db, key, files, key);
      TotalSizeWrite(s1.blobs, name, size);
      UsageAppend(Get(s1.db, key), [Record(name, size, now)]);
    }
  }

  /**
   * A rejection for lack of global space does not undo the eviction: the
   * state is the one the eviction step saved, so the token's oldest files
   * are gone although nothing was stored.
   */
  lemma RejectionKeepsEviction(s: State, token: Option<string>, size: nat, clientName: string, ids: Fresh, now: int, lim: Limits)
    requires TokenUpload(s, token, Payload(size, clientName), ids, now, lim).response == Error(413)
    ensures var key := UploadKey(token, ids);
      var files := Get(s.db, key);
      var r := TokenUpload(s, token, Payload(size, clientName), ids, now, lim);
      && r.state == EvictionStep(s, key, size, lim)
      && (OverKeyCap(files, size, lim) ==>
            Get(r.state.db, key) == Evict(files, size, lim.keyCap).kept
            && r.state.blobs == s.blobs - NameSet(Evict(files, size, lim.keyCap).evicted))
  {
    var key := UploadKey(token, ids);
    var files := Get(s.db, key);
    if OverKeyCap(files, size, lim) {
      PutGet(s.db, key, Evict(files, size, lim.keyCap).kept, key);
    }
  }

  /**
   * The bucket bound survives every request: the sweep only shrinks
   * buckets, a clear deletes one, and an upload leaves its bucket within
   * the cap or holding the upload alone.
   */
  lemma TokenPostBounded(s: State, path: string, header: Option<string>, body: Body, ids: Fresh, now: int, lim: Limits)
    requires Bounded(s.db, lim.keyCap)
    ensures Bounded(TokenPost(s, path, header, body, ids, now, lim).state.db, lim.keyCap)
  {
    var s0 := AfterSweep(s, now, lim.maxAge);
    SweptBounded(s, now, lim);
    var token := GetTokenFromRequest(header, path);
    if path != "/token" && path != "/clear" {
      UploadBounded(s0, token, body, ids, now, lim);
    }
  }

  /** An upload keeps the bucket bound. */
  lemma UploadBounded(s: State, token: Option<string>, body: Body, ids: Fresh, now: int, lim: Limits)
    requires Bounded(s.db, lim.keyCap)
    ensures Bounded(TokenUpload(s, token, body, ids, now, lim).state.db, lim.keyCap)
  {
    if body.Payload? {
      var key := UploadKey(token, ids);
      EvictionStepBounded(s, key, body.size, lim);
      EvictionStepFacts(s, key, body.size, lim);
      AdmitBounded(EvictionStep(s, key, body.size, lim), key, body.size, body.clientName, ids, now, lim);
    }
  }

  lemma EvictionStepBounded(s: State, key: string, size: nat, lim: Limits)
    requires Bounded(s.db, lim.keyCap)
    ensures Bounded(EvictionStep(s, key, size, lim).db, lim.keyCap)
  {
    var files := Get(s.db, key);
    if OverKeyCap(files, size, lim) {
      var e := Evict(files, size, lim.keyCap);
      EvictFits(files, size, lim.keyCap);
      PutEntries(s.db, key, e.kept);
    }
  }

  lemma AdmitBounded(s1: State, key: string, size: nat, clientName: string, ids: Fresh, now: int, lim: Limits)
    requires Bounded(s1.db, lim.keyCap)
    requires Get(s1.db, key) == [] || Usage(Get(s1.db, key)) + size <= lim.keyCap
    ensures Bounded(Admit(s1, key, size, clientName, ids, now, lim).state.db, lim.keyCap)
  {
    var name := StoredName(ids.hex, ids.text, clientName);
    var grown := Get(s1.db, key) + [Record(name, size, now)];
    PutEntries(s1.db, key, grown);
    UsageAppend(Get(s1.db, key), [Record(name, size, now)]);
  }

  lemma SweptBounded(s: State, now: int, lim: Limits)
    requires Bounded(s.db, lim.keyCap)
    ensures Bounded(AfterSweep(s, now, lim.maxAge).db, lim.keyCap)
  {
    SweptBuckets(s.db, s.blobs, now, lim.maxAge);
  }

  class TokenServer {
    /** The contents of the files database, as last saved. */
    var db: Ledger
    /** The upload directory: filename to size. */
    var blobs: Blobs
    const limits: Limits

    predicate Valid()
      reads this
    {
      DistinctKeys(db)
    }

    ghost function Snapshot(): State
      reads this
    {
      State(db, blobs)
    }

    constructor(db: Ledger, blobs: Blobs, limits: Limits)
      requires DistinctKeys(db)
      ensures Valid() && this.db == db && this.blobs == blobs && this.limits == limits
    {
      this.db := db;
      this.blobs := blobs;
      this.limits := limits;
    }

    /** `cleanup_old_files()`. */
    method CleanupOldFiles(now: int)
      requires Valid()
      modifies this
      ensures Valid()
      ensures Snapshot() == AfterSweep(old(Snapshot()), now, limits.maxAge)
    {
      var r := Expiry.CleanupOldFiles(db, blobs, now, limits.maxAge);
      AfterSweepFacts(Snapshot(), now, limits.maxAge);
      blobs := r.blobs;
      if r.updated {
        db := r.db;
      }
    }

    /** The eviction step of an upload: pop the token's oldest files until the upload fits. */
    method EvictIfOver(key: string, size: nat)
      requires Valid()
      modifies this
      ensures Valid()
      ensures Snapshot() == EvictionStep(old(Snapshot()), key, size, limits)
    {
      var files := Get(db, key);
      if Usage(files) + size > limits.keyCap {
        var kept, rest := EvictOldest(files, blobs, size, limits.keyCap);
        PutDistinct(db, key, kept);
        db := Put(db, key, kept);
        blobs := rest;
      }
    }

    /** The rest of an upload: the global capacity check, then the write and the ledger save. */
    method Store(key: string, size: nat, clientName: string, ids: Fresh, now: int) returns (resp: Response)
      requires Valid()
      modifies this
      ensures Valid()
      ensures Outcome(Snapshot(), resp) == Admit(old(Snapshot()), key, size, clientName, ids, now, limits)
    {
      var files := Get(db, key);
      var used := GetCurrentUsed(blobs);
      if used + size > limits.globalCap {
        return Error(413);
      }
      var name := StoredName(ids.hex, ids.text, clientName);
      blobs := blobs[name := size];
      files := files + [Record(name, size, now)];
      PutDistinct(db, key, files);
      db := Put(db, key, files);
      resp := Uploaded(name, key, size, limits.globalCap - used - size, limits.keyCap - Usage(files));
    }

    /** The upload branch: evict if over the token's cap, then check global space, then store. */
    method Upload(token: Option<string>, body: Body, ids: Fresh, now: int) returns (resp: Response)
      requires Valid()
      modifies this
      ensures Valid()
      ensures Outcome(Snapshot(), resp) == TokenUpload(old(Snapshot()), token, body, ids, now, limits)
    {
      var key := UploadKey(token, ids);
      if body.NoFileField? {
        return Error(400);
      }
      EvictIfOver(key, body.size);
      resp := Store(key, body.size, body.clientName, ids, now);
    }

    /** `do_POST`. */
    method DoPost(path: string, header: Option<string>, body: Body, ids: Fresh, now: int) returns (resp: Response)
      requires Valid()
      modifies this
      ensures Valid()
      ensures Outcome(Snapshot(), resp) == TokenPost(old(Snapshot()), path, header, body, ids, now, limits)
    {
      CleanupOldFiles(now);
      var token := GetTokenFromRequest(header, path);
      if path == "/token" {
        if !Given(token) {
          return Error(400);
        }
        return TokenReport(db, token.value, limits);
      }
      if path == "/clear" {
        if !Given(token) {
          return Error(400);
        }
        var freed, rest := ClearBlobs(Get(db, token.value), blobs);
        blobs := rest;
        if Has(db, token.value) {
          DeleteDistinct(db, token.value);
          db := Delete(db, token.value);
        }
        return ClearedKey(token.value, freed);
      }
      resp := Upload(token, body, ids, now);
    }

    /** `do_GET`. */
    method DoGet(path: string, header: Option<string>, now: int) returns (resp: Response)
      requires Valid()
      modifies this
      ensures Valid()
      ensures Outcome(Snapshot(), resp) == TokenGet(old(Snapshot()), path, header, now, limits)
    {
      CleanupOldFiles(now);
      if path == "/" || path == "/index.html" {
        var used := GetCurrentUsed(blobs);
        resp := Index(used);
      } else if path == "/upload.sh" {
        resp := Script;
      } else if StartsWith(path, "/token") {
        var token := GetTokenFromRequest(header, path);
        if !Given(token) {
          return Error(400);
        }
        resp := TokenReport(db, token.value, limits);
      } else if StartsWith(path, "/download/") {
        var name := DownloadName(path);
        if name in blobs {
          resp := Download(name, blobs[name]);
        } else {
          resp := Error(404);
        }
      } else {
        resp := Error(404);
      }
    }
  }
}
