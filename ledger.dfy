/**
 * The upload ledger both servers keep in their JSON document (FILES_DB):
 * a dictionary from a client key (an upload token or an IP address) to
 * the list of that client's upload records, oldest append first.
 *
 * Python dictionaries keep insertion order and the JSON round trip keeps
 * it too, and both the expiry sweep and the recent-uploads listing walk the
 * dictionary in that order, so the ledger is an ordered association list:
 * assigning to an existing key keeps its place, a new key goes to the end,
 * and deleting a key drops its entry.
 */
module Ledger {

  /** One upload: `{'filename': ..., 'size': ..., 'time': ...}`. */
  datatype Record = Record(filename: string, size: nat, time: int)

  /** One `key: [records]` pair of the ledger dictionary. */
  datatype Entry = Entry(key: string, files: seq<Record>)

  type Ledger = seq<Entry>

  function Keys(db: Ledger): (ks: seq<string>)
    ensures |ks| == |db|
    ensures forall i :: 0 <= i < |db| ==> ks[i] == db[i].key
  {
    if db == [] then [] else [db[0].key] + Keys(db[1..])
  }

  predicate Distinct<T(==)>(s: seq<T>) {
    forall i, j :: 0 <= i < j < |s| ==> s[i] != s[j]
  }

  /** What every Python dictionary satisfies: no key occurs twice. */
  predicate DistinctKeys(db: Ledger) {
    Distinct(Keys(db))
  }

  /** `key in db`. */
  predicate Has(db: Ledger, key: string) {
    key in Keys(db)
  }

  /** `db.get(key, [])`. */
  function Get(db: Ledger, key: string): (files: seq<Record>)
    ensures !Has(db, key) ==> files == []
    ensures Has(db, key) ==> exists i :: 0 <= i < |db| && db[i] == Entry(key, files)
  {
    if db == [] then []
    else if db[0].key == key then db[0].files
    else
      var files := Get(db[1..], key);
      assert Has(db[1..], key) ==> exists i :: 0 <= i < |db[1..]| && db[1..][i] == Entry(key, files);
      files
  }

  /** The record list of an entry of a well-formed ledger is what `Get` finds under its key. */
  lemma {:induction false} GetEntry(db: Ledger, i: nat)
    requires DistinctKeys(db) && i < |db|
    ensures Get(db, db[i].key) == db[i].files
  {
    if i > 0 {
      assert Keys(db)[0] != Keys(db)[i];
      KeysTail(db);
      GetEntry(db[1..], i - 1);
    }
  }

  /**
   * `db[key] = files`: the key keeps its place when present and is
   * appended when new.
   */
  function Put(db: Ledger, key: string, files: seq<Record>): (r: Ledger)
    ensures Has(db, key) ==> Keys(r) == Keys(db)
    ensures !Has(db, key) ==> Keys(r) == Keys(db) + [key]
  {
    if db == [] then [Entry(key, files)]
    else if db[0].key == key then [Entry(key, files)] + db[1..]
    else [db[0]] + Put(db[1..], key, files)
  }

  /** After `db[key] = files`, the key holds `files` and every other key holds what it held. */
  lemma {:induction false} PutGet(db: Ledger, key: string, files: seq<Record>, k: string)
    ensures Get(Put(db, key, files), k) == if k == key then files else Get(db, k)
  {
    if db != [] && db[0].key != key {
      PutGet(db[1..], key, files, k);
    }
  }

  /** The entries after `db[key] = files` are the old ones and the new one. */
  lemma {:induction false} PutEntries(db: Ledger, key: string, files: seq<Record>)
    ensures forall e :: e in Put(db, key, files) ==> e in db || e == Entry(key, files)
  {
    if db != [] && db[0].key != key {
      PutEntries(db[1..], key, files);
    }
  }

  /** `del db[key]`: the other entries stay, in their order. */
  function Delete(db: Ledger, key: string): (r: Ledger)
    ensures !Has(r, key)
    ensures forall e :: e in r ==> e in db && e.key != key
  {
    if db == [] then []
    else if db[0].key == key then Delete(db[1..], key)
    else [db[0]] + Delete(db[1..], key)
  }

  /** After `del db[key]`, the key holds nothing and every other key holds what it held. */
  lemma {:induction false} DeleteGet(db: Ledger, key: string, k: string)
    ensures Get(Delete(db, key), k) == if k == key then [] else Get(db, k)
  {
    if db != [] {
      DeleteGet(db[1..], key, k);
    }
  }

  lemma KeysTail(db: Ledger)
    requires db != []
    ensures Keys(db[1..]) == Keys(db)[1..]
  {
  }

  /** Assigning a key keeps the ledger a dictionary. */
  lemma PutDistinct(db: Ledger, key: string, files: seq<Record>)
    requires DistinctKeys(db)
    ensures DistinctKeys(Put(db, key, files))
  {
  }

  /** Deleting a key keeps the ledger a dictionary. */
  lemma {:induction false} DeleteDistinct(db: Ledger, key: string)
    requires DistinctKeys(db)
    ensures DistinctKeys(Delete(db, key))
  {
    if db != [] {
      var t := db[1..];
      KeysTail(db);
      DeleteDistinct(t, key);
      if db[0].key != key {
        var d := Delete(t, key);
        var r := [db[0]] + d;
        assert Delete(db, key) == r;
        assert r[1..] == d;
        KeysTail(r);
        DeleteKeys(t, key);
        assert db[0].key !in Keys(t) by {
          forall m | 0 <= m < |Keys(t)| ensures Keys(t)[m] != db[0].key {
            assert Keys(db)[m + 1] != Keys(db)[0];
          }
        }
        assert Keys(r) == [db[0].key] + Keys(d);
        DistinctCons(db[0].key, Keys(d));
      }
    }
  }

  lemma DistinctCons<T>(a: T, t: seq<T>)
    requires Distinct(t) && a !in t
    ensures Distinct([a] + t)
  {
  }

  /** Deleting a key leaves only keys the ledger had. */
  lemma {:induction false} DeleteKeys(db: Ledger, key: string)
    ensures forall k :: k in Keys(Delete(db, key)) ==> k in Keys(db)
  {
    if db != [] {
      var t := db[1..];
      DeleteKeys(t, key);
      KeysTail(db);
      if db[0].key != key {
        var r := [db[0]] + Delete(t, key);
        assert r[1..] == Delete(t, key);
        KeysTail(r);
      }
    }
  }

  /** `sum(f['size'] for f in files)`: the bytes a bucket is charged for. */
  function Usage(files: seq<Record>): nat {
    if files == [] then 0 else files[0].size + Usage(files[1..])
  }

  /** Usage adds up over concatenation. */
  lemma {:induction false} UsageAppend(a: seq<Record>, b: seq<Record>)
    ensures Usage(a + b) == Usage(a) + Usage(b)
  {
    if a == [] {
      assert a + b == b;
    } else {
      assert (a + b)[1..] == a[1..] + b;
      UsageAppend(a[1..], b);
    }
  }

  /** The filenames of a bucket, in order. */
  function Names(files: seq<Record>): (ns: seq<string>)
    ensures |ns| == |files|
    ensures forall i :: 0 <= i < |files| ==> ns[i] == files[i].filename
  {
    if files == [] then [] else [files[0].filename] + Names(files[1..])
  }

  function NameSet(files: seq<Record>): set<string> {
    set r | r in files :: r.filename
  }

  /** Every filename the ledger mentions, bucket after bucket. */
  function LedgerNames(db: Ledger): seq<string> {
    if db == [] then [] else Names(db[0].files) + LedgerNames(db[1..])
  }

  /** No blob is named by two records (the names are fresh `uuid4` strings). */
  predicate UniqueNames(db: Ledger) {
    Distinct(LedgerNames(db))
  }
}
