/**
 * The upload directory (UPLOAD_DIR): one file per stored blob, named by the
 * blob's filename, holding that many bytes. `get_current_used` measures it
 * by listing the directory and adding up the file sizes, independently of
 * the ledger.
 */
module BlobStore {
  import opened Ledger

  /** filename -> size in bytes of that file in the upload directory. */
  type Blobs = map<string, nat>

  /** The bytes the upload directory holds: the sum of its file sizes. */
  ghost function TotalSize(blobs: Blobs): nat
    decreases blobs.Keys
  {
    if blobs == map[] then 0
    else
      var name :| name in blobs;
      blobs[name] + TotalSize(blobs - {name})
  }

  /** Any one file can be taken out of the sum first. */
  lemma {:induction false} TotalSizeRemove(blobs: Blobs, name: string)
    requires name in blobs
    ensures TotalSize(blobs) == blobs[name] + TotalSize(blobs - {name})
    decreases blobs.Keys
  {
    var first :| first in blobs && TotalSize(blobs) == blobs[first] + TotalSize(blobs - {first});
    if first != name {
      var rest := blobs - {first};
      TotalSizeRemove(rest, name);
      TotalSizeRemove(blobs - {name}, first);
      assert rest - {name} == (blobs - {name}) - {first};
    }
  }

  /** Writing a file of `size` bytes under `name` (`open(path, 'wb')`, which replaces any old file). */
  lemma TotalSizeWrite(blobs: Blobs, name: string, size: nat)
    ensures TotalSize(blobs[name := size]) == TotalSize(blobs - {name}) + size
    ensures TotalSize(blobs[name := size]) <= TotalSize(blobs) + size
  {
    TotalSizeRemove(blobs[name := size], name);
    assert blobs[name := size] - {name} == blobs - {name};
    if name in blobs {
      TotalSizeRemove(blobs, name);
    } else {
      assert blobs - {name} == blobs;
    }
  }

  /** Deleting files never makes the directory bigger. */
  lemma {:induction false} TotalSizeShrink(small: Blobs, big: Blobs)
    requires small.Keys <= big.Keys
    requires forall n :: n in small ==> small[n] == big[n]
    ensures TotalSize(small) <= TotalSize(big)
    decreases big.Keys
  {
    if big != map[] {
      var name :| name in big;
      TotalSizeRemove(big, name);
      if name in small {
        TotalSizeRemove(small, name);
        TotalSizeShrink(small - {name}, big - {name});
      } else {
        TotalSizeShrink(small, big - {name});
      }
    }
  }

  /**
   * `get_current_used()`: walks the directory listing and adds up the size
   * of every file.
   */
  method GetCurrentUsed(blobs: Blobs) returns (used: nat)
    ensures used == TotalSize(blobs)
  {
    used := 0;
    var unseen := blobs;
    while unseen != map[]
      invariant used + TotalSize(unseen) == TotalSize(blobs)
      decreases unseen.Keys
    {
      var name :| name in unseen;
      TotalSizeRemove(unseen, name);
      used := used + unseen[name];
      unseen := unseen - {name};
    }
  }
}
