/**
 * `cleanup_old_files()` (identical in backend.py and app.py): the expiry
 * sweep. Each record whose file is still in the upload directory and whose
 * age is strictly above MAX_AGE_SECONDS loses its file and leaves its
 * bucket; every other record stays, including an old record whose file is
 * already gone. Buckets left empty are deleted, and the ledger document is
 * rewritten only when at least one file was removed.
 */
module Expiry {
  import opened Ledger
  import opened BlobStore

  /** `now - f['time'] > MAX_AGE_SECONDS`: an age exactly at the limit is not expired. */
  predicate Expired(f: Record, now: int, maxAge: int) {
    now - f.time > maxAge
  }

  /** The sweep's removal test: the file still exists and the record is expired. */
  predicate Doomed(f: Record, blobs: Blobs, now: int, maxAge: int) {
    f.filename in blobs && Expired(f, now, maxAge)
  }

  /** `blobs` with some files deleted and nothing else changed. */
  predicate Shrunk(small: Blobs, big: Blobs) {
    small.Keys <= big.Keys && forall n :: n in small ==> small[n] == big[n]
  }

  datatype BucketSweep = BucketSweep(kept: seq<Record>, blobs: Blobs)

  /**
   * The inner loop over one bucket, front to back. A file removed for one
   * record is gone by the time a later record with the same name is looked at.
   */
  function SweepFiles(files: seq<Record>, blobs: Blobs, now: int, maxAge: int): (r: BucketSweep)
    ensures |r.kept| <= |files|
  {
    if files == [] then BucketSweep([], blobs)
    else
      var f := files[0];
      if Doomed(f, blobs, now, maxAge) then
        SweepFiles(files[1..], blobs - {f.filename}, now, maxAge)
      else
        var rest := SweepFiles(files[1..], blobs, now, maxAge);
        BucketSweep([f] + rest.kept, rest.blobs)
  }

  /** A bucket's pass only deletes files, and only files the bucket names. */
  lemma {:induction false} SweepFilesShrinks(files: seq<Record>, blobs: Blobs, now: int, maxAge: int)
    ensures var r := SweepFiles(files, blobs, now, maxAge);
      && Shrunk(r.blobs, blobs)
      && (forall n :: n in blobs && n !in r.blobs ==> n in Names(files))
  {
    if files != [] {
      var f := files[0];
      assert Names(files) == [f.filename] + Names(files[1..]);
      if Doomed(f, blobs, now, maxAge) {
        SweepFilesShrinks(files[1..], blobs - {f.filename}, now, maxAge);
      } else {
        SweepFilesShrinks(files[1..], blobs, now, maxAge);
      }
    }
  }

  /**
   * A bucket's pass keeps records of the bucket, no more usage than it had,
   * and no record it would condemn in the directory it leaves behind.
   */
  lemma {:induction false} SweepFilesKeeps(files: seq<Record>, blobs: Blobs, now: int, maxAge: int)
    ensures var r := SweepFiles(files, blobs, now, maxAge);
      && Usage(r.kept) <= Usage(files)
      && (forall f :: f in r.kept ==> f in files && !Doomed(f, r.blobs, now, maxAge))
  {
    if files != [] {
      var f := files[0];
      if Doomed(f, blobs, now, maxAge) {
        SweepFilesKeeps(files[1..], blobs - {f.filename}, now, maxAge);
      } else {
        SweepFilesKeeps(files[1..], blobs, now, maxAge);
        SweepFilesShrinks(files[1..], blobs, now, maxAge);
        var rest := SweepFiles(files[1..], blobs, now, maxAge);
        assert ([f] + rest.kept)[0] == f && ([f] + rest.kept)[1..] == rest.kept;
        assert !Doomed(f, rest.blobs, now, maxAge);
      }
    }
  }

  /** A bucket's pass changes nothing exactly when it keeps every record. */
  lemma {:induction false} SweepFilesChanges(files: seq<Record>, blobs: Blobs, now: int, maxAge: int)
    ensures var r := SweepFiles(files, blobs, now, maxAge);
      && (|r.kept| == |files| ==> r.kept == files && r.blobs == blobs)
      && (|r.kept| < |files| ==> r.blobs.Keys < blobs.Keys)
  {
    if files != [] {
      var f := files[0];
      if Doomed(f, blobs, now, maxAge) {
        SweepFilesShrinks(files[1..], blobs - {f.filename}, now, maxAge);
        var rest := SweepFiles(files[1..], blobs - {f.filename}, now, maxAge);
        assert f.filename in blobs.Keys && f.filename !in rest.blobs.Keys;
      } else {
        SweepFilesChanges(files[1..], blobs, now, maxAge);
        assert files == [f] + files[1..];
      }
    }
  }

  /**
   * What one bucket's pass does: it only deletes files named by the bucket,
   * keeps a subsequence whose usage is no larger, keeps no record it would
   * now condemn, and changes nothing exactly when it removes nothing.
   */
  lemma SweepFilesFacts(files: seq<Record>, blobs: Blobs, now: int, maxAge: int)
    ensures var r := SweepFiles(files, blobs, now, maxAge);
      && Shrunk(r.blobs, blobs)
      && (forall n :: n in blobs && n !in r.blobs ==> n in Names(files))
      && Usage(r.kept) <= Usage(files)
      && (forall f :: f in r.kept ==> f in files && !Doomed(f, r.blobs, now, maxAge))
      && (|r.kept| == |files| ==> r.kept == files && r.blobs == blobs)
      && (|r.kept| < |files| ==> r.blobs.Keys < blobs.Keys)
  {
    SweepFilesShrinks(files, blobs, now, maxAge);
    SweepFilesKeeps(files, blobs, now, maxAge);
    SweepFilesChanges(files, blobs, now, maxAge);
  }

  datatype SweepResult = SweepResult(db: Ledger, blobs: Blobs, updated: bool)

  /** The buckets that are not empty, in order. */
  function DropEmpty(db: Ledger): Ledger {
    if db == [] then []
    else (if db[0].files == [] then [] else [db[0]]) + DropEmpty(db[1..])
  }

  /**
   * The outer loop over the buckets in dictionary order. `updated` is the
   * source's flag: some file was removed. When it is false the ledger
   * differs from the input only by the empty buckets dropped.
   */
  function Swept(db: Ledger, blobs: Blobs, now: int, maxAge: int): (r: SweepResult)
    ensures |r.db| <= |db|
  {
    if db == [] then SweepResult([], blobs, false)
    else
      var b := SweepFiles(db[0].files, blobs, now, maxAge);
      var rest := Swept(db[1..], b.blobs, now, maxAge);
      var head := if b.kept == [] then [] else [Entry(db[0].key, b.kept)];
      SweepResult(head + rest.db, rest.blobs, |b.kept| < |db[0].files| || rest.updated)
  }

  /**
   * The sweep only deletes files, and `updated` is raised exactly when it
   * deleted one; when it is not raised, the ledger differs from the input
   * only by the empty buckets dropped.
   */
  lemma {:induction false} SweptFacts(db: Ledger, blobs: Blobs, now: int, maxAge: int)
    ensures var r := Swept(db, blobs, now, maxAge);
      && Shrunk(r.blobs, blobs)
      && (forall e :: e in r.db ==> e.files != [])
      && (r.updated <==> r.blobs.Keys < blobs.Keys)
      && (!r.updated ==> r.blobs == blobs && r.db == DropEmpty(db))
  {
    if db != [] {
      var b := SweepFiles(db[0].files, blobs, now, maxAge);
      var rest := Swept(db[1..], b.blobs, now, maxAge);
      SweepFilesFacts(db[0].files, blobs, now, maxAge);
      SweptFacts(db[1..], b.blobs, now, maxAge);
      var head := if b.kept == [] then [] else [Entry(db[0].key, b.kept)];
      assert |b.kept| == |db[0].files| ==> head == (if db[0].files == [] then [] else [db[0]]);
      assert rest.blobs.Keys <= b.blobs.Keys <= blobs.Keys;
    }
  }

  /** Every bucket left by the sweep was a bucket before it. */
  lemma {:induction false} SweptKeys(db: Ledger, blobs: Blobs, now: int, maxAge: int)
    ensures forall k :: k in Keys(Swept(db, blobs, now, maxAge).db) ==> k in Keys(db)
  {
    if db != [] {
      var b := SweepFiles(db[0].files, blobs, now, maxAge);
      var rest := Swept(db[1..], b.blobs, now, maxAge);
      SweptKeys(db[1..], b.blobs, now, maxAge);
      KeysTail(db);
      var head := if b.kept == [] then [] else [Entry(db[0].key, b.kept)];
      assert Keys(head + rest.db) == Keys(head) + Keys(rest.db);
    }
  }

  /** A file the bucket pass deletes is named by an expired record of the bucket. */
  lemma {:induction false} SweepFilesRemovesExpired(files: seq<Record>, blobs: Blobs, now: int, maxAge: int)
    ensures forall n :: n in blobs && n !in SweepFiles(files, blobs, now, maxAge).blobs ==>
      exists f :: f in files && f.filename == n && Expired(f, now, maxAge)
  {
    if files != [] {
      var f := files[0];
      if Doomed(f, blobs, now, maxAge) {
        SweepFilesRemovesExpired(files[1..], blobs - {f.filename}, now, maxAge);
      } else {
        SweepFilesRemovesExpired(files[1..], blobs, now, maxAge);
      }
      forall n | n in blobs && n !in SweepFiles(files, blobs, now, maxAge).blobs
        ensures exists g :: g in files && g.filename == n && Expired(g, now, maxAge)
      {
        if Doomed(f, blobs, now, maxAge) {
          assert SweepFiles(files, blobs, now, maxAge).blobs == SweepFiles(files[1..], blobs - {f.filename}, now, maxAge).blobs;
          if n != f.filename {
            assert n in blobs - {f.filename};
            var g :| g in files[1..] && g.filename == n && Expired(g, now, maxAge);
            assert g in files;
          }
        } else {
          assert SweepFiles(files, blobs, now, maxAge).blobs == SweepFiles(files[1..], blobs, now, maxAge).blobs;
          var g :| g in files[1..] && g.filename == n && Expired(g, now, maxAge);
          assert g in files;
        }
      }
    }
  }

  /** A file the sweep deletes is named by an expired record of the ledger. */
  lemma {:induction false} SweptRemovesExpired(db: Ledger, blobs: Blobs, now: int, maxAge: int)
    ensures forall n :: n in blobs && n !in Swept(db, blobs, now, maxAge).blobs ==>
      exists e, f :: e in db && f in e.files && f.filename == n && Expired(f, now, maxAge)
  {
    if db != [] {
      var b := SweepFiles(db[0].files, blobs, now, maxAge);
      SweepFilesRemovesExpired(db[0].files, blobs, now, maxAge);
      SweptRemovesExpired(db[1..], b.blobs, now, maxAge);
      SweepFilesFacts(db[0].files, blobs, now, maxAge);
      forall n | n in blobs && n !in Swept(db, blobs, now, maxAge).blobs
        ensures exists e, f :: e in db && f in e.files && f.filename == n && Expired(f, now, maxAge)
      {
        if n in b.blobs {
          var e, f :| e in db[1..] && f in e.files && f.filename == n && Expired(f, now, maxAge);
          assert e in db;
        } else {
          var f :| f in db[0].files && f.filename == n && Expired(f, now, maxAge);
          assert db[0] in db;
        }
      }
    }
  }

  /** Every bucket left by the sweep is a shrunk copy of a bucket under the same key. */
  lemma {:induction false} SweptBuckets(db: Ledger, blobs: Blobs, now: int, maxAge: int)
    ensures forall e :: e in Swept(db, blobs, now, maxAge).db ==>
      exists d :: d in db && d.key == e.key && |e.files| <= |d.files| && Usage(e.files) <= Usage(d.files)
  {
    if db != [] {
      var b := SweepFiles(db[0].files, blobs, now, maxAge);
      SweepFilesFacts(db[0].files, blobs, now, maxAge);
      SweptBuckets(db[1..], b.blobs, now, maxAge);
      var rest := Swept(db[1..], b.blobs, now, maxAge);
      forall e | e in Swept(db, blobs, now, maxAge).db
        ensures exists d :: d in db && d.key == e.key && |e.files| <= |d.files| && Usage(e.files) <= Usage(d.files)
      {
        if e in rest.db {
          var d :| d in db[1..] && d.key == e.key && |e.files| <= |d.files| && Usage(e.files) <= Usage(d.files);
          assert d in db;
        } else {
          assert db[0] in db;
        }
      }
    }
  }

  /** The sweep only ever deletes whole buckets that became empty; keys keep their order. */
  lemma {:induction false} SweptDistinct(db: Ledger, blobs: Blobs, now: int, maxAge: int)
    requires DistinctKeys(db)
    ensures DistinctKeys(Swept(db, blobs, now, maxAge).db)
  {
    if db != [] {
      var b := SweepFiles(db[0].files, blobs, now, maxAge);
      var rest := Swept(db[1..], b.blobs, now, maxAge);
      KeysTail(db);
      SweptDistinct(db[1..], b.blobs, now, maxAge);
      if b.kept != [] {
        SweptKeys(db[1..], b.blobs, now, maxAge);
        var r := Swept(db, blobs, now, maxAge);
        assert r.db == [Entry(db[0].key, b.kept)] + rest.db;
        assert Keys(r.db) == [db[0].key] + Keys(rest.db);
        assert db[0].key !in Keys(db[1..]) by {
          forall m | 0 <= m < |Keys(db[1..])| ensures Keys(db[1..])[m] != db[0].key {
            assert Keys(db)[m + 1] != Keys(db)[0];
          }
        }
        DistinctCons(db[0].key, Keys(rest.db));
      }
    }
  }

  lemma {:induction false} NothingDoomed(files: seq<Record>, blobs: Blobs, now: int, maxAge: int)
    requires forall f :: f in files ==> !Doomed(f, blobs, now, maxAge)
    ensures SweepFiles(files, blobs, now, maxAge) == BucketSweep(files, blobs)
  {
    if files != [] {
      NothingDoomed(files[1..], blobs, now, maxAge);
      assert files == [files[0]] + files[1..];
    }
  }

  lemma {:induction false} NothingDoomedAnywhere(db: Ledger, blobs: Blobs, now: int, maxAge: int)
    requires forall e, f :: e in db && f in e.files ==> !Doomed(f, blobs, now, maxAge)
    requires forall e :: e in db ==> e.files != []
    ensures Swept(db, blobs, now, maxAge) == SweepResult(db, blobs, false)
  {
    if db != [] {
      NothingDoomed(db[0].files, blobs, now, maxAge);
      NothingDoomedAnywhere(db[1..], blobs, now, maxAge);
      assert db == [db[0]] + db[1..];
    }
  }

  lemma {:induction false} KeptNotDoomed(db: Ledger, blobs: Blobs, now: int, maxAge: int, r: SweepResult)
    requires r == Swept(db, blobs, now, maxAge)
    ensures forall e, f :: e in r.db && f in e.files ==> !Doomed(f, r.blobs, now, maxAge)
  {
    if db != [] {
      var b := SweepFiles(db[0].files, blobs, now, maxAge);
      var rest := Swept(db[1..], b.blobs, now, maxAge);
      KeptNotDoomed(db[1..], b.blobs, now, maxAge, rest);
      SweepFilesFacts(db[0].files, blobs, now, maxAge);
      SweptFacts(db[1..], b.blobs, now, maxAge);
      forall f | f in b.kept ensures !Doomed(f, r.blobs, now, maxAge) {
        assert !Doomed(f, b.blobs, now, maxAge);
      }
    }
  }

  /**
   * A second sweep at the same instant finds nothing to do: every record the
   * first one kept is either young or has no file left.
   */
  lemma SweepIdempotent(db: Ledger, blobs: Blobs, now: int, maxAge: int)
    ensures var r := Swept(db, blobs, now, maxAge);
            Swept(r.db, r.blobs, now, maxAge) == SweepResult(r.db, r.blobs, false)
  {
    var r := Swept(db, blobs, now, maxAge);
    KeptNotDoomed(db, blobs, now, maxAge, r);
    SweptFacts(db, blobs, now, maxAge);
    NothingDoomedAnywhere(r.db, r.blobs, now, maxAge);
  }

  /** The records that pass the sweep's test against the files present at the start. */
  function Survivors(files: seq<Record>, blobs: Blobs, now: int, maxAge: int): (r: seq<Record>)
    ensures forall f :: f in r <==> f in files && !Doomed(f, blobs, now, maxAge)
  {
    if files == [] then []
    else (if Doomed(files[0], blobs, now, maxAge) then [] else [files[0]])
         + Survivors(files[1..], blobs, now, maxAge)
  }

  /** The filenames of the records the sweep's test condemns. */
  function DoomedNames(files: seq<Record>, blobs: Blobs, now: int, maxAge: int): set<string> {
    set f | f in files && Doomed(f, blobs, now, maxAge) :: f.filename
  }

  lemma DoomedNamesCons(files: seq<Record>, blobs: Blobs, now: int, maxAge: int)
    requires files != []
    ensures DoomedNames(files, blobs, now, maxAge)
         == (if Doomed(files[0], blobs, now, maxAge) then {files[0].filename} else {})
            + DoomedNames(files[1..], blobs, now, maxAge)
  {
    assert files == [files[0]] + files[1..];
  }

  /** The ledger keeping the survivors of each bucket and no empty bucket. */
  function Surviving(db: Ledger, blobs: Blobs, now: int, maxAge: int): Ledger {
    if db == [] then []
    else
      var kept := Survivors(db[0].files, blobs, now, maxAge);
      (if kept == [] then [] else [Entry(db[0].key, kept)]) + Surviving(db[1..], blobs, now, maxAge)
  }

  function LedgerDoomedNames(db: Ledger, blobs: Blobs, now: int, maxAge: int): set<string> {
    if db == [] then {} else DoomedNames(db[0].files, blobs, now, maxAge) + LedgerDoomedNames(db[1..], blobs, now, maxAge)
  }

  lemma {:induction false} DistinctSplit<T>(a: seq<T>, b: seq<T>)
    requires Distinct(a + b)
    ensures Distinct(a) && Distinct(b)
    ensures forall x :: x in a ==> x !in b
  {
    forall i, j | 0 <= i < j < |a| ensures a[i] != a[j] {
      assert (a + b)[i] == a[i] && (a + b)[j] == a[j];
    }
    forall i, j | 0 <= i < j < |b| ensures b[i] != b[j] {
      assert (a + b)[|a| + i] == b[i] && (a + b)[|a| + j] == b[j];
    }
    forall i, j | 0 <= i < |a| && 0 <= j < |b| ensures a[i] != b[j] {
      assert (a + b)[i] == a[i] && (a + b)[|a| + j] == b[j];
    }
  }

  /** Deleting files no record of the bucket names does not change the sweep's verdicts on it. */
  lemma {:induction false} SurvivorsFrame(files: seq<Record>, blobs: Blobs, gone: set<string>, now: int, maxAge: int)
    requires forall n :: n in gone ==> n !in Names(files)
    ensures Survivors(files, blobs - gone, now, maxAge) == Survivors(files, blobs, now, maxAge)
    ensures DoomedNames(files, blobs - gone, now, maxAge) == DoomedNames(files, blobs, now, maxAge)
  {
    if files != [] {
      assert files[0].filename == Names(files)[0];
      assert forall n :: n in Names(files[1..]) ==> n in Names(files) by {
        assert Names(files) == [files[0].filename] + Names(files[1..]);
      }
      SurvivorsFrame(files[1..], blobs, gone, now, maxAge);
    }
    forall n | n in DoomedNames(files, blobs, now, maxAge) ensures n in DoomedNames(files, blobs - gone, now, maxAge) {
      var f :| f in files && Doomed(f, blobs, now, maxAge) && f.filename == n;
      var i :| 0 <= i < |files| && files[i] == f;
      assert Names(files)[i] == n;
    }
  }

  lemma {:induction false} LedgerFrame(db: Ledger, blobs: Blobs, gone: set<string>, now: int, maxAge: int)
    requires forall n :: n in gone ==> n !in LedgerNames(db)
    ensures Surviving(db, blobs - gone, now, maxAge) == Surviving(db, blobs, now, maxAge)
    ensures LedgerDoomedNames(db, blobs - gone, now, maxAge) == LedgerDoomedNames(db, blobs, now, maxAge)
  {
    if db != [] {
      SurvivorsFrame(db[0].files, blobs, gone, now, maxAge);
      LedgerFrame(db[1..], blobs, gone, now, maxAge);
    }
  }

  /** With distinct names, the bucket loop keeps exactly the survivors and deletes exactly the condemned files. */
  lemma {:induction false} SweepFilesExactly(files: seq<Record>, blobs: Blobs, now: int, maxAge: int)
    requires Distinct(Names(files))
    ensures SweepFiles(files, blobs, now, maxAge).kept == Survivors(files, blobs, now, maxAge)
    ensures SweepFiles(files, blobs, now, maxAge).blobs == blobs - DoomedNames(files, blobs, now, maxAge)
  {
    if files != [] {
      var f := files[0];
      var tail := files[1..];
      assert Names(files) == [f.filename] + Names(tail);
      DistinctSplit([f.filename], Names(tail));
      var d := DoomedNames(tail, blobs, now, maxAge);
      DoomedNamesCons(files, blobs, now, maxAge);
      if Doomed(f, blobs, now, maxAge) {
        var b := blobs - {f.filename};
        assert SweepFiles(files, blobs, now, maxAge) == SweepFiles(tail, b, now, maxAge);
        assert Survivors(files, blobs, now, maxAge) == Survivors(tail, blobs, now, maxAge);
        SweepFilesExactly(tail, b, now, maxAge);
        SurvivorsFrame(tail, blobs, {f.filename}, now, maxAge);
        assert b - d == blobs - ({f.filename} + d);
      } else {
        var rest := SweepFiles(tail, blobs, now, maxAge);
        assert SweepFiles(files, blobs, now, maxAge) == BucketSweep([f] + rest.kept, rest.blobs);
        assert Survivors(files, blobs, now, maxAge) == [f] + Survivors(tail, blobs, now, maxAge);
        SweepFilesExactly(tail, blobs, now, maxAge);
      }
    }
  }

  lemma {:induction false} HeadNamesApart(db: Ledger, blobs: Blobs, now: int, maxAge: int)
    requires db != [] && UniqueNames(db)
    ensures Distinct(Names(db[0].files)) && UniqueNames(db[1..])
    ensures forall n :: n in DoomedNames(db[0].files, blobs, now, maxAge) ==> n !in LedgerNames(db[1..])
  {
    var files := db[0].files;
    DistinctSplit(Names(files), LedgerNames(db[1..]));
    forall n | n in DoomedNames(files, blobs, now, maxAge) ensures n !in LedgerNames(db[1..]) {
      var f :| f in files && Doomed(f, blobs, now, maxAge) && f.filename == n;
      var i :| 0 <= i < |files| && files[i] == f;
      assert Names(files)[i] == n;
    }
  }

  /**
   * When no filename occurs twice in the ledger (they are fresh uuid4
   * names), the sweep removes a record exactly when its file exists and it
   * is expired, deletes exactly those files, keeps the other records in
   * their order and drops the buckets left empty.
   */
  lemma {:induction false} SweptExactly(db: Ledger, blobs: Blobs, now: int, maxAge: int)
    requires UniqueNames(db)
    ensures Swept(db, blobs, now, maxAge).db == Surviving(db, blobs, now, maxAge)
    ensures Swept(db, blobs, now, maxAge).blobs == blobs - LedgerDoomedNames(db, blobs, now, maxAge)
  {
    if db != [] {
      var files := db[0].files;
      var d := DoomedNames(files, blobs, now, maxAge);
      var dr := LedgerDoomedNames(db[1..], blobs, now, maxAge);
      HeadNamesApart(db, blobs, now, maxAge);
      SweepFilesExactly(files, blobs, now, maxAge);
      SweptExactly(db[1..], blobs - d, now, maxAge);
      LedgerFrame(db[1..], blobs, d, now, maxAge);
      assert blobs - d - dr == blobs - (d + dr);
    }
  }

  lemma {:induction false} DoomedNamesPresent(db: Ledger, blobs: Blobs, now: int, maxAge: int)
    ensures LedgerDoomedNames(db, blobs, now, maxAge) <= blobs.Keys
  {
    if db != [] {
      DoomedNamesPresent(db[1..], blobs, now, maxAge);
    }
  }

  /** With unique names, the ledger is rewritten exactly when some record was condemned. */
  lemma SweptUpdatedExactly(db: Ledger, blobs: Blobs, now: int, maxAge: int)
    requires UniqueNames(db)
    ensures Swept(db, blobs, now, maxAge).updated <==> LedgerDoomedNames(db, blobs, now, maxAge) != {}
  {
    var d := LedgerDoomedNames(db, blobs, now, maxAge);
    SweptExactly(db, blobs, now, maxAge);
    SweptFacts(db, blobs, now, maxAge);
    DoomedNamesPresent(db, blobs, now, maxAge);
    if d != {} {
      var n :| n in d;
      assert n in blobs.Keys && n !in (blobs - d).Keys;
    } else {
      assert blobs - d == blobs;
    }
  }

  /**
   * A record stored at time 0 with a one-hour limit survives a sweep at
   * 3599 s and at exactly 3600 s, and is removed with its file at 3601 s.
   */
  lemma SweepAtTheHour()
    ensures var db := [Entry("k", [Record("f", 10, 0)])];
            var blobs := map["f" := 10];
            && Swept(db, blobs, 3599, 3600) == SweepResult(db, blobs, false)
            && Swept(db, blobs, 3600, 3600) == SweepResult(db, blobs, false)
            && Swept(db, blobs, 3601, 3600) == SweepResult([], map[], true)
  {
    var f := Record("f", 10, 0);
    var db := [Entry("k", [f])];
    var blobs := map["f" := 10];
    assert [f][1..] == [] && db[1..] == [];
    assert SweepFiles([f], blobs, 3599, 3600) == BucketSweep([f], blobs);
    assert SweepFiles([f], blobs, 3600, 3600) == BucketSweep([f], blobs);
    assert blobs - {"f"} == map[];
    assert SweepFiles([f], blobs, 3601, 3600) == BucketSweep([], map[]);
  }

  /** A record whose file is already gone is never removed, however old. */
  lemma OrphanRecordStays(key: string, f: Record, now: int, maxAge: int)
    requires now - f.time > maxAge
    ensures Swept([Entry(key, [f])], map[], now, maxAge) == SweepResult([Entry(key, [f])], map[], false)
  {
    var db := [Entry(key, [f])];
    assert [f][1..] == [] && db[1..] == [];
    assert SweepFiles([f], map[], now, maxAge) == BucketSweep([f], map[]);
  }

  lemma SweepFilesStep(files: seq<Record>, blobs: Blobs, now: int, maxAge: int)
    requires files != []
    ensures var f := files[0];
            var rest := SweepFiles(files[1..], if Doomed(f, blobs, now, maxAge) then blobs - {f.filename} else blobs, now, maxAge);
            SweepFiles(files, blobs, now, maxAge)
              == if Doomed(f, blobs, now, maxAge) then rest else BucketSweep([f] + rest.kept, rest.blobs)
  {
  }

  lemma SweptStep(db: Ledger, blobs: Blobs, now: int, maxAge: int)
    requires db != []
    ensures var b := SweepFiles(db[0].files, blobs, now, maxAge);
            var rest := Swept(db[1..], b.blobs, now, maxAge);
            Swept(db, blobs, now, maxAge)
              == SweepResult((if b.kept == [] then [] else [Entry(db[0].key, b.kept)]) + rest.db,
                             rest.blobs, |b.kept| < |db[0].files| || rest.updated)
  {
  }

  /** The inner loop of `cleanup_old_files()` over one bucket. */
  method SweepBucket(files: seq<Record>, blobs: Blobs, now: int, maxAge: int) returns (kept: seq<Record>, present: Blobs)
    ensures BucketSweep(kept, present) == SweepFiles(files, blobs, now, maxAge)
  {
    kept := [];
    present := blobs;
    var j := 0;
    while j < |files|
      invariant 0 <= j <= |files|
      invariant var rest := SweepFiles(files[j..], present, now, maxAge);
                SweepFiles(files, blobs, now, maxAge) == BucketSweep(kept + rest.kept, rest.blobs)
    {
      var f := files[j];
      assert files[j..][1..] == files[j + 1..];
      SweepFilesStep(files[j..], present, now, maxAge);
      if f.filename in present && now - f.time > maxAge {
        present := present - {f.filename};
      } else {
        ghost var rest := SweepFiles(files[j + 1..], present, now, maxAge);
        assert kept + ([f] + rest.kept) == (kept + [f]) + rest.kept;
        kept := kept + [f];
      }
      j := j + 1;
    }
  }

  /** The sweep's result once the buckets before `todo` produced `out` and `updated`. */
  function Resumed(out: Ledger, updated: bool, todo: Ledger, present: Blobs, now: int, maxAge: int): SweepResult {
    var rest := Swept(todo, present, now, maxAge);
    SweepResult(out + rest.db, rest.blobs, updated || rest.updated)
  }

  lemma ResumedStep(out: Ledger, updated: bool, todo: Ledger, present: Blobs, now: int, maxAge: int,
                    kept: seq<Record>, after: Blobs, out2: Ledger, updated2: bool)
    requires todo != []
    requires BucketSweep(kept, after) == SweepFiles(todo[0].files, present, now, maxAge)
    requires out2 == out + (if kept == [] then [] else [Entry(todo[0].key, kept)])
    requires updated2 == (updated || |kept| < |todo[0].files|)
    ensures Resumed(out, updated, todo, present, now, maxAge) == Resumed(out2, updated2, todo[1..], after, now, maxAge)
  {
    var head := if kept == [] then [] else [Entry(todo[0].key, kept)];
    var rest := Swept(todo[1..], after, now, maxAge);
    SweptStep(todo, present, now, maxAge);
    assert out + (head + rest.db) == (out + head) + rest.db;
  }

  /**
   * `cleanup_old_files()` on the loaded ledger: the loop over the buckets,
   * building the new ledger and the `updated` flag.
   */
  method CleanupOldFiles(db: Ledger, blobs: Blobs, now: int, maxAge: int) returns (r: SweepResult)
    ensures r == Swept(db, blobs, now, maxAge)
  {
    var out: Ledger := [];
    var present := blobs;
    var updated := false;
    var i := 0;
    assert db[0..] == db;
    while i < |db|
      invariant 0 <= i <= |db|
      invariant Swept(db, blobs, now, maxAge) == Resumed(out, updated, db[i..], present, now, maxAge)
    {
      var kept, after := SweepBucket(db[i].files, present, now, maxAge);
      ghost var out0, updated0 := out, updated;
      if |kept| < |db[i].files| {
        updated := true;
      }
      if kept != [] {
        out := out + [Entry(db[i].key, kept)];
      }
      ResumedStep(out0, updated0, db[i..], present, now, maxAge, kept, after, out, updated);
      assert db[i..][1..] == db[i + 1..];
      present := after;
      i := i + 1;
    }
    assert db[i..] == [];
    assert out + [] == out;
    r := SweepResult(out, present, updated);
  }
}
