/**
 * Worked cases of the token-keyed server: single requests and short
 * request sequences whose outcome the source's behaviour pins down, each
 * stated on `TokenPost`.
 */
module TokenScenarios {
  import opened Wrappers
  import opened Text
  import opened Ledger
  import opened BlobStore
  import opened Expiry
  import opened Clearing
  import opened Eviction
  import opened Sorting
  import opened Requests
  import opened Service
  import opened TokenBackend

  const MiB: nat := 1048576

  /** The sweep leaves a ledger alone when none of its records is old enough. */
  lemma FreshBucketSurvives(key: string, files: seq<Record>, blobs: Blobs, now: int, maxAge: int)
    requires forall f :: f in files ==> !Expired(f, now, maxAge)
    ensures AfterSweep(State([Entry(key, files)], blobs), now, maxAge) == State([Entry(key, files)], blobs)
  {
    NothingDoomed(files, blobs, now, maxAge);
    SweptFacts([Entry(key, files)], blobs, now, maxAge);
  }

  /** Every path other than exactly `/token` and `/clear` is an upload. */
  lemma PostUploads(s: State, path: string, header: Option<string>, body: Body, ids: Fresh, now: int, lim: Limits)
    requires path != "/token" && path != "/clear"
    ensures TokenPost(s, path, header, body, ids, now, lim)
         == TokenUpload(AfterSweep(s, now, lim.maxAge), GetTokenFromRequest(header, path), body, ids, now, lim)
  {
  }

  /** A file list of one record names one file. */
  lemma NameSetSingle(r: Record)
    ensures NameSet([r]) == {r.filename}
  {
    assert r in [r];
  }

  /** The upload directory holding a single file. */
  lemma TotalSizeSingle(name: string, size: nat)
    ensures TotalSize(map[name := size]) == size
  {
    var none: Blobs := map[];
    TotalSizeWrite(none, name, size);
    assert none - {name} == none;
    assert none[name := size] == map[name := size];
  }

  /** A bucket of one record that, with the upload, is over the cap loses that record. */
  lemma EvictSingle(r: Record, size: nat, cap: nat)
    requires r.size + size > cap
    ensures Evict([r], size, cap) == Evicted([], [r])
  {
    assert [r][1..] == [];
    assert SortBy([r], ByTime) == [r];
    assert PopCount([r], size, cap) == 1;
  }

  /** A token whose only file, together with the upload, is over the cap loses that file. */
  lemma EvictSoleFile(key: string, r1: Record, size: nat, lim: Limits)
    requires r1.size + size > lim.keyCap
    ensures EvictionStep(State([Entry(key, [r1])], map[r1.filename := r1.size]), key, size, lim)
         == State([Entry(key, [])], map[])
  {
    var none: Blobs := map[];
    var s := State([Entry(key, [r1])], map[r1.filename := r1.size]);
    assert Get(s.db, key) == [r1] && Usage([r1]) == r1.size;
    EvictSingle(r1, size, lim.keyCap);
    NameSetSingle(r1);
    assert s.blobs - {r1.filename} == none;
    assert Put(s.db, key, []) == [Entry(key, [])];
  }

  /**
   * With no file in the upload directory and nothing recorded under the
   * key, an upload within the global capacity becomes the key's only file.
   */
  lemma AdmitIntoEmpty(db: Ledger, key: string, size: nat, clientName: string, ids: Fresh, now: int, lim: Limits)
    requires db == [] || db == [Entry(key, [])]
    requires size <= lim.globalCap
    ensures var name := StoredName(ids.hex, ids.text, clientName);
      Admit(State(db, map[]), key, size, clientName, ids, now, lim)
        == Outcome(State([Entry(key, [Record(name, size, now)])], map[name := size]),
                   Uploaded(name, key, size, lim.globalCap - size, lim.keyCap - size))
  {
    var none: Blobs := map[];
    var name := StoredName(ids.hex, ids.text, clientName);
    var rec := Record(name, size, now);
    assert Get(db, key) == [];
    assert TotalSize(none) == 0;
    assert [] + [rec] == [rec] && Usage([rec]) == size;
    assert Put(db, key, [rec]) == [Entry(key, [rec])];
    assert none[name := size] == map[name := size];
  }

  /**
   * A POST to an upload path with a token header, on a state the sweep
   * leaves alone, is the eviction step and admission for that token.
   */
  lemma UploadRoute(s: State, key: string, path: string, size: nat, clientName: string, ids: Fresh, now: int, lim: Limits)
    requires key != [] && Strip(key) == key && path != "/token" && path != "/clear"
    requires AfterSweep(s, now, lim.maxAge) == s
    ensures TokenPost(s, path, Some(key), Payload(size, clientName), ids, now, lim)
         == Admit(EvictionStep(s, key, size, lim), key, size, clientName, ids, now, lim)
  {
    HeaderWins(key, path);
    PostUploads(s, path, Some(key), Payload(size, clientName), ids, now, lim);
  }

  /**
   * The first upload of an empty server, under a token sent as a header,
   * is stored as that token's only file.
   */
  lemma FirstUpload(key: string, path: string, size: nat, clientName: string, ids: Fresh, now: int, lim: Limits)
    requires key != [] && Strip(key) == key && path != "/token" && path != "/clear"
    requires size <= lim.keyCap && size <= lim.globalCap
    ensures var name := StoredName(ids.hex, ids.text, clientName);
      TokenPost(State([], map[]), path, Some(key), Payload(size, clientName), ids, now, lim)
        == Outcome(State([Entry(key, [Record(name, size, now)])], map[name := size]),
                   Uploaded(name, key, size, lim.globalCap - size, lim.keyCap - size))
  {
    var none: Blobs := map[];
    var s := State([], none);
    assert AfterSweep(s, now, lim.maxAge) == s;
    UploadRoute(s, key, path, size, clientName, ids, now, lim);
    assert EvictionStep(s, key, size, lim) == s;
    AdmitIntoEmpty([], key, size, clientName, ids, now, lim);
  }

  /**
   * A token whose only file has not expired and, together with the new
   * upload, is over the cap: the upload evicts that file and takes its
   * place as the only one.
   */
  lemma ReplacesSoleFile(key: string, path: string, r1: Record, size: nat, clientName: string, ids: Fresh, now: int, lim: Limits)
    requires key != [] && Strip(key) == key && path != "/token" && path != "/clear"
    requires !Expired(r1, now, lim.maxAge) && r1.size + size > lim.keyCap && size <= lim.globalCap
    ensures var name := StoredName(ids.hex, ids.text, clientName);
      TokenPost(State([Entry(key, [r1])], map[r1.filename := r1.size]), path, Some(key), Payload(size, clientName), ids, now, lim)
        == Outcome(State([Entry(key, [Record(name, size, now)])], map[name := size]),
                   Uploaded(name, key, size, lim.globalCap - size, lim.keyCap - size))
  {
    var s := State([Entry(key, [r1])], map[r1.filename := r1.size]);
    FreshBucketSurvives(key, [r1], s.blobs, now, lim.maxAge);
    UploadRoute(s, key, path, size, clientName, ids, now, lim);
    EvictSoleFile(key, r1, size, lim);
    AdmitIntoEmpty([Entry(key, [])], key, size, clientName, ids, now, lim);
  }

  /**
   * With a 1 GiB per-token cap and 10 GiB overall, a token uploading
   * 600 MiB into an empty server and then, within the hour, another
   * 600 MiB loses the first file to make room: the first upload leaves the
   * state `s1`, and from `s1` the second upload leaves the bucket with the
   * second file only, at 600 MiB, and the first file deleted.
   */
  lemma SixHundredMiBTwice(lim: Limits, key: string, path: string, a: string, b: string, ids1: Fresh, ids2: Fresh, t1: int, t2: int)
    requires lim == Limits(GiB, 10 * GiB, 3600)
    requires key != [] && Strip(key) == key && path != "/token" && path != "/clear"
    requires StoredName(ids1.hex, ids1.text, a) != StoredName(ids2.hex, ids2.text, b)
    requires t1 <= t2 <= t1 + 3600
    ensures var n1 := StoredName(ids1.hex, ids1.text, a);
      var s1 := State([Entry(key, [Record(n1, 600 * MiB, t1)])], map[n1 := 600 * MiB]);
      var first := TokenPost(State([], map[]), path, Some(key), Payload(600 * MiB, a), ids1, t1, lim);
      var second := TokenPost(s1, path, Some(key), Payload(600 * MiB, b), ids2, t2, lim);
      && first.response.Uploaded? && first.state == s1
      && second.response.Uploaded?
      && Get(second.state.db, key) == [Record(StoredName(ids2.hex, ids2.text, b), 600 * MiB, t2)]
      && n1 !in second.state.blobs
      && Usage(Get(second.state.db, key)) == 600 * MiB
  {
    TwoUploadsReplace(lim, key, path, 600 * MiB, a, b, ids1, ids2, t1, t2);
  }

  /**
   * Two uploads of the same size under one token, the second within the
   * first's lifetime, where one fits the per-token cap but two do not:
   * the second replaces the first.
   */
  lemma TwoUploadsReplace(lim: Limits, key: string, path: string, size: nat, a: string, b: string,
                          ids1: Fresh, ids2: Fresh, t1: int, t2: int)
    requires key != [] && Strip(key) == key && path != "/token" && path != "/clear"
    requires size <= lim.keyCap && size <= lim.globalCap && size + size > lim.keyCap
    requires StoredName(ids1.hex, ids1.text, a) != StoredName(ids2.hex, ids2.text, b)
    requires t2 - t1 <= lim.maxAge
    ensures var n1 := StoredName(ids1.hex, ids1.text, a);
      var s1 := State([Entry(key, [Record(n1, size, t1)])], map[n1 := size]);
      var first := TokenPost(State([], map[]), path, Some(key), Payload(size, a), ids1, t1, lim);
      var second := TokenPost(s1, path, Some(key), Payload(size, b), ids2, t2, lim);
      && first.response.Uploaded? && first.state == s1
      && second.response.Uploaded?
      && Get(second.state.db, key) == [Record(StoredName(ids2.hex, ids2.text, b), size, t2)]
      && n1 !in second.state.blobs
      && Usage(Get(second.state.db, key)) == size
  {
    var r1 := Record(StoredName(ids1.hex, ids1.text, a), size, t1);
    var r2 := Record(StoredName(ids2.hex, ids2.text, b), size, t2);
    FirstUpload(key, path, size, a, ids1, t1, lim);
    ReplacesSoleFile(key, path, r1, size, b, ids2, t2, lim);
    assert Get([Entry(key, [r2])], key) == [r2];
    assert Usage([r2]) == size;
  }

  /**
   * An upload rejected for lack of global space still loses the token's
   * older file: 600 MiB stored by token A, 400 MiB by token B, 1 GiB
   * overall and per token; A's 700 MiB upload evicts its 600 MiB file, then
   * fails the global check (400 + 700 MiB > 1 GiB). A is left with an
   * empty bucket, saved as such, and B is untouched.
   */
  lemma RejectedUploadLosesFile()
    ensures var a := Record("a", 600 * MiB, 0);
      var b := Record("b", 400 * MiB, 0);
      var s := State([Entry("A", [a]), Entry("B", [b])], map["a" := 600 * MiB, "b" := 400 * MiB]);
      var r := TokenUpload(s, Some("A"), Payload(700 * MiB, "c"), Fresh("t", "h", "u"), 5, Limits(GiB, GiB, 3600));
      && r.response == Error(413)
      && r.state.db == [Entry("A", []), Entry("B", [b])]
      && r.state.blobs == map["b" := 400 * MiB]
  {
    var lim := Limits(GiB, GiB, 3600);
    var a := Record("a", 600 * MiB, 0);
    var b := Record("b", 400 * MiB, 0);
    var blobs: Blobs := map["a" := 600 * MiB, "b" := 400 * MiB];
    var s := State([Entry("A", [a]), Entry("B", [b])], blobs);
    assert Get(s.db, "A") == [a];
    assert [a][1..] == [];
    EvictSingle(a, 700 * MiB, GiB);
    NameSetSingle(a);
    assert blobs - {"a"} == map["b" := 400 * MiB];
    assert Put(s.db, "A", []) == [Entry("A", []), Entry("B", [b])];
    var e := EvictionStep(s, "A", 700 * MiB, lim);
    assert e == State([Entry("A", []), Entry("B", [b])], map["b" := 400 * MiB]);
    TotalSizeSingle("b", 400 * MiB);
  }

  /**
   * An upload larger than the per-token cap by itself empties the token's
   * bucket and deletes all its files; if the global space allows it, it is
   * admitted as the bucket's only record, and the reported remaining
   * allowance is negative.
   */
  lemma OversizeUpload(s: State, token: Option<string>, size: nat, clientName: string, ids: Fresh, now: int, lim: Limits)
    requires size > lim.keyCap
    ensures var key := UploadKey(token, ids);
      var s1 := EvictionStep(s, key, size, lim);
      var r := TokenUpload(s, token, Payload(size, clientName), ids, now, lim);
      && Get(s1.db, key) == []
      && s1.blobs == s.blobs - NameSet(Get(s.db, key))
      && (r.response.Uploaded? ==>
            Get(r.state.db, key) == [Record(StoredName(ids.hex, ids.text, clientName), size, now)]
            && r.response.keyRemaining < 0)
  {
    var key := UploadKey(token, ids);
    OversizeEvicts(s, key, size, lim);
    var rec := Record(StoredName(ids.hex, ids.text, clientName), size, now);
    TokenUploadAdmits(s, token, size, clientName, ids, now, lim, key);
    assert [] + [rec] == [rec];
    assert [rec][1..] == [];
  }

  /** An upload larger than the per-token cap on its own empties the token's bucket and deletes its files. */
  lemma OversizeEvicts(s: State, key: string, size: nat, lim: Limits)
    requires size > lim.keyCap
    ensures var s1 := EvictionStep(s, key, size, lim);
      Get(s1.db, key) == [] && s1.blobs == s.blobs - NameSet(Get(s.db, key))
  {
    var files := Get(s.db, key);
    EvictWhole(files, size, lim.keyCap);
    PutGet(s.db, key, [], key);
  }

  /**
   * Routing matches the whole request path, query included, so
   * `POST /clear?token=t` with a file is an upload into token `t`'s bucket,
   * not a clear.
   */
  lemma ClearWithQueryUploads(s: State, t: string, size: nat, clientName: string, ids: Fresh, now: int, lim: Limits)
    requires t != [] && '&' !in t && !IsSpace(t[0]) && !IsSpace(t[|t| - 1])
    ensures TokenPost(s, "/clear" + "?token=" + t, None, Payload(size, clientName), ids, now, lim)
         == TokenUpload(AfterSweep(s, now, lim.maxAge), Some(t), Payload(size, clientName), ids, now, lim)
  {
    var path := "/clear" + "?token=" + t;
    QueryTokenRoundTrip("/clear", t);
    assert path != "/token" && path != "/clear" by {
      assert |path| > |"/clear"|;
    }
    PostUploads(s, path, None, Payload(size, clientName), ids, now, lim);
  }
}
