/**
 * The `/clear` branch of both servers: every file of the client's bucket
 * that still exists is deleted and its size added to `freed_bytes`; the
 * bucket is then deleted, and the ledger rewritten, only when the key was
 * in the ledger.
 */
module Clearing {
  import opened Ledger
  import opened BlobStore

  datatype ClearResult = ClearResult(freed: nat, blobs: Blobs)

  /** The loop over the bucket's records, front to back. */
  function ClearFiles(files: seq<Record>, blobs: Blobs): (r: ClearResult)
    ensures forall n :: n in r.blobs ==> n in blobs && r.blobs[n] == blobs[n]
    ensures forall f :: f in files ==> f.filename !in r.blobs
  {
    if files == [] then ClearResult(0, blobs)
    else
      var name := files[0].filename;
      if name in blobs then
        var rest := ClearFiles(files[1..], blobs - {name});
        ClearResult(blobs[name] + rest.freed, rest.blobs)
      else ClearFiles(files[1..], blobs)
  }

  /**
   * Clearing deletes exactly the files the bucket names, and the bytes it
   * reports freed are exactly the bytes the upload directory lost.
   */
  lemma {:induction false} ClearFilesFacts(files: seq<Record>, blobs: Blobs)
    ensures ClearFiles(files, blobs).blobs == blobs - NameSet(files)
    ensures ClearFiles(files, blobs).freed + TotalSize(ClearFiles(files, blobs).blobs) == TotalSize(blobs)
  {
    if files != [] {
      var name := files[0].filename;
      assert NameSet(files) == {name} + NameSet(files[1..]) by {
        assert files == [files[0]] + files[1..];
      }
      if name in blobs {
        ClearFilesFacts(files[1..], blobs - {name});
        TotalSizeRemove(blobs, name);
        assert blobs - {name} - NameSet(files[1..]) == blobs - NameSet(files);
      } else {
        ClearFilesFacts(files[1..], blobs);
        assert blobs - NameSet(files[1..]) == blobs - NameSet(files);
      }
    }
  }

  /**
   * The loop of the `/clear` branch: `freed_bytes` accumulates the size of
   * each existing file before it is removed.
   */
  method ClearBlobs(files: seq<Record>, blobs: Blobs) returns (freed: nat, rest: Blobs)
    ensures ClearResult(freed, rest) == ClearFiles(files, blobs)
    ensures rest == blobs - NameSet(files)
    ensures freed + TotalSize(rest) == TotalSize(blobs)
  {
    freed := 0;
    rest := blobs;
    var i := 0;
    assert files[0..] == files;
    while i < |files|
      invariant 0 <= i <= |files|
      invariant var tail := ClearFiles(files[i..], rest);
                ClearFiles(files, blobs) == ClearResult(freed + tail.freed, tail.blobs)
    {
      var name := files[i].filename;
      assert files[i..][1..] == files[i + 1..];
      if name in rest {
        freed := freed + rest[name];
        rest := rest - {name};
      }
      i := i + 1;
    }
    assert files[i..] == [];
    ClearFilesFacts(files, blobs);
  }

  datatype Cleared = Cleared(db: Ledger, blobs: Blobs, freed: nat)

  /** The whole `/clear` branch for one key, on the loaded ledger. */
  function ClearKey(db: Ledger, blobs: Blobs, key: string): (r: Cleared)
    ensures Get(r.db, key) == []
    ensures !Has(db, key) ==> r.db == db
    ensures forall n :: n in r.blobs ==> n in blobs && r.blobs[n] == blobs[n]
  {
    var c := ClearFiles(Get(db, key), blobs);
    Cleared(if Has(db, key) then Delete(db, key) else db, c.blobs, c.freed)
  }

  /**
   * After a clear the key owns nothing (its usage is 0), none of the files
   * its bucket named is left, the freed bytes are what the directory lost,
   * and every other key's records are untouched.
   */
  lemma ClearKeyFacts(db: Ledger, blobs: Blobs, key: string, other: string)
    requires other != key
    ensures var r := ClearKey(db, blobs, key);
      && Get(r.db, key) == [] && Usage(Get(r.db, key)) == 0
      && (forall f :: f in Get(db, key) ==> f.filename !in r.blobs)
      && r.freed + TotalSize(r.blobs) == TotalSize(blobs)
      && Get(r.db, other) == Get(db, other)
  {
    ClearFilesFacts(Get(db, key), blobs);
    DeleteGet(db, key, key);
    DeleteGet(db, key, other);
  }
}
