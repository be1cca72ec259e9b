/**
 * The recent-uploads table of app.py's index page: every record of every
 * ledger entry, tagged with its client key, newest first (ties in ledger
 * order), optionally cut to a limit, each rendered with the display name
 * recovered from its stored filename and its expiry time.
 */
module Recent {
  import opened Wrappers
  import opened Ledger
  import opened Sorting
  import opened Requests

  /** A ledger record together with the key of the entry it came from (`entry_copy['ip'] = ip`). */
  datatype Tagged = Tagged(record: Record, key: string)

  /** The records of one entry, tagged with its key, in their order. */
  function Tag(files: seq<Record>, key: string): (ts: seq<Tagged>)
    ensures |ts| == |files|
    ensures forall i :: 0 <= i < |ts| ==> ts[i] == Tagged(files[i], key)
  {
    seq(|files|, i requires 0 <= i < |files| => Tagged(files[i], key))
  }

  /** All records of the ledger, entry by entry in ledger order. */
  function Flatten(db: Ledger): seq<Tagged> {
    if db == [] then []
    else Flatten(db[..|db| - 1]) + Tag(db[|db| - 1].files, db[|db| - 1].key)
  }

  /** Every tagged record is a record of the entry carrying its key, and every record appears. */
  lemma {:induction false} FlattenMembers(db: Ledger, t: Tagged)
    ensures t in Flatten(db) <==> exists e :: e in db && e.key == t.key && t.record in e.files
  {
    if db != [] {
      var init, last := db[..|db| - 1], db[|db| - 1];
      FlattenMembers(init, t);
      assert db == init + [last];
      if t in Tag(last.files, last.key) {
        var i :| 0 <= i < |last.files| && Tag(last.files, last.key)[i] == t;
        assert t.record in last.files;
      }
      if t.key == last.key && t.record in last.files {
        var i :| 0 <= i < |last.files| && last.files[i] == t.record;
        assert Tag(last.files, last.key)[i] == t;
      }
      assert forall e :: e in db <==> e in init || e == last;
    }
  }

  /** The records of one key appear exactly as that key's bucket, tagged, when keys are distinct. */
  lemma {:induction false} FlattenKey(db: Ledger, k: string)
    requires DistinctKeys(db)
    ensures Filtered(Flatten(db), k) == Tag(Get(db, k), k)
  {
    if db != [] {
      var init, last := db[..|db| - 1], db[|db| - 1];
      assert db == init + [last];
      SnocDistinct(init, last);
      FlattenKey(init, k);
      var before, here := Flatten(init), Tag(last.files, last.key);
      assert Flatten(db) == before + here;
      FilteredAppend(before, here, k);
      FilteredTag(last.files, last.key, k);
      GetSnoc(init, last, k);
      if last.key == k {
        assert Get(init, k) == [];
        assert Filtered(before, k) == [];
      } else {
        assert Filtered(here, k) == [];
      }
    }
  }

  /** In a dictionary grown by one entry at the end, the new key is not among the old ones. */
  lemma SnocDistinct(init: Ledger, last: Entry)
    requires DistinctKeys(init + [last])
    ensures DistinctKeys(init) && !Has(init, last.key)
  {
    var db := init + [last];
    assert Keys(init) == Keys(db)[..|init|];
    forall i | 0 <= i < |init| ensures Keys(init)[i] != last.key {
      assert Keys(db)[i] != Keys(db)[|init|];
    }
  }

  /** The tagged records carrying key `k`, in order. */
  function Filtered(ts: seq<Tagged>, k: string): seq<Tagged> {
    if ts == [] then []
    else Filtered(ts[..|ts| - 1], k) + (if ts[|ts| - 1].key == k then [ts[|ts| - 1]] else [])
  }

  lemma {:induction false} FilteredAppend(a: seq<Tagged>, b: seq<Tagged>, k: string)
    ensures Filtered(a + b, k) == Filtered(a, k) + Filtered(b, k)
  {
    if b == [] {
      assert a + b == a;
    } else {
      assert (a + b)[..|a + b| - 1] == a + b[..|b| - 1];
      FilteredAppend(a, b[..|b| - 1], k);
    }
  }

  lemma {:induction false} FilteredTag(files: seq<Record>, key: string, k: string)
    ensures Filtered(Tag(files, key), k) == if key == k then Tag(files, key) else []
  {
    if files != [] {
      assert Tag(files, key)[..|files| - 1] == Tag(files[..|files| - 1], key);
      FilteredTag(files[..|files| - 1], key, k);
    }
  }

  /** Looking a key up in a ledger grown by one entry at the end, keys kept distinct. */
  lemma {:induction false} GetSnoc(init: Ledger, last: Entry, k: string)
    requires DistinctKeys(init + [last])
    ensures Get(init + [last], k) == if last.key == k then last.files else Get(init, k)
  {
    var db := init + [last];
    if init == [] {
      assert db == [last];
    } else {
      assert db[1..] == init[1..] + [last];
      assert DistinctKeys(db[1..]) by { KeysTail(db); }
      assert Keys(db)[0] == init[0].key && Keys(db)[|db| - 1] == last.key;
      GetSnoc(init[1..], last, k);
    }
  }

  /** `x.get('time', 0)` under `reverse=True`: the ascending key is the negated time. */
  function NegTime(t: Tagged): int {
    -t.record.time
  }

  /** `all_files.sort(key=..., reverse=True)`: newest first, ties in their original order. */
  function NewestFirst(all: seq<Tagged>): (r: seq<Tagged>)
    ensures multiset(r) == multiset(all) && |r| == |all|
  {
    var r := SortBy(all, NegTime);
    assert |multiset(r)| == |multiset(all)|;
    r
  }

  /** `all_files[:limit]` when a limit is given. */
  function Take<T>(s: seq<T>, limit: Option<nat>): (r: seq<T>)
    ensures limit.None? ==> r == s
    ensures limit.Some? ==> |r| == if limit.value < |s| then limit.value else |s|
    ensures forall i :: 0 <= i < |r| ==> r[i] == s[i]
  {
    if limit.Some? && limit.value < |s| then s[..limit.value] else s
  }

  /** One table row: display name, size, upload time, expiry time, client key. */
  datatype Row = Row(display: string, size: nat, time: int, expires: int, key: string)

  function RowOf(t: Tagged, maxAge: int): Row {
    Row(CleanDisplayName(t.record.filename), t.record.size, t.record.time, t.record.time + maxAge, t.key)
  }

  datatype RecentView = NoUploadsYet | Rows(rows: seq<Row>)

  /** The rows of the table, one per listed record, in order. */
  function Render(shown: seq<Tagged>, maxAge: int): (rows: seq<Row>)
    ensures |rows| == |shown|
    ensures forall i :: 0 <= i < |shown| ==> rows[i] == RowOf(shown[i], maxAge)
  {
    seq(|shown|, i requires 0 <= i < |shown| => RowOf(shown[i], maxAge))
  }

  /** `get_recent_uploads(limit)` as a function of the ledger. */
  function RecentUploads(db: Ledger, limit: Option<nat>, maxAge: int): (v: RecentView)
    ensures v.Rows? ==> 0 < |v.rows| <= |Flatten(db)|
    ensures v.Rows? && limit.Some? ==> |v.rows| <= limit.value
  {
    var shown := Take(NewestFirst(Flatten(db)), limit);
    if shown == [] then NoUploadsYet else Rows(Render(shown, maxAge))
  }

  /** The first loop of `get_recent_uploads`: every record, tagged with its key. */
  method CollectUploads(db: Ledger) returns (all: seq<Tagged>)
    ensures all == Flatten(db)
  {
    all := [];
    var i := 0;
    while i < |db|
      invariant 0 <= i <= |db|
      invariant all == Flatten(db[..i])
    {
      var files := db[i].files;
      var j := 0;
      while j < |files|
        invariant 0 <= j <= |files|
        invariant all == Flatten(db[..i]) + Tag(files[..j], db[i].key)
      {
        all := all + [Tagged(files[j], db[i].key)];
        j := j + 1;
        assert Tag(files[..j], db[i].key) == Tag(files[..j - 1], db[i].key) + [Tagged(files[j - 1], db[i].key)];
      }
      assert files[..j] == files;
      assert db[..i + 1][..i] == db[..i];
      i := i + 1;
    }
    assert db[..i] == db;
  }

  /** The last loop of `get_recent_uploads`: one row per listed record. */
  method RenderRows(shown: seq<Tagged>, maxAge: int) returns (items: seq<Row>)
    ensures items == Render(shown, maxAge)
  {
    items := [];
    var i := 0;
    while i < |shown|
      invariant 0 <= i <= |shown|
      invariant |items| == i
      invariant forall k :: 0 <= k < i ==> items[k] == RowOf(shown[k], maxAge)
    {
      items := items + [RowOf(shown[i], maxAge)];
      i := i + 1;
    }
  }

  /** `get_recent_uploads`: collect, sort newest first, cut to the limit, render. */
  method GetRecentUploads(db: Ledger, limit: Option<nat>, maxAge: int) returns (view: RecentView)
    ensures view == RecentUploads(db, limit, maxAge)
  {
    var all := CollectUploads(db);
    all := NewestFirst(all);
    if limit.Some? {
      all := Take(all, limit);
    }
    assert all == Take(NewestFirst(Flatten(db)), limit);
    if all == [] {
      return NoUploadsYet;
    }
    var items := RenderRows(all, maxAge);
    view := Rows(items);
  }

  /** The placeholder row is shown exactly when there is nothing to list. */
  lemma RecentPlaceholder(db: Ledger, limit: Option<nat>, maxAge: int)
    ensures RecentUploads(db, limit, maxAge).NoUploadsYet? <==> Flatten(db) == [] || limit == Some(0)
  {
    var sorted := NewestFirst(Flatten(db));
    assert |sorted| == |Flatten(db)| by {
      assert |multiset(sorted)| == |multiset(Flatten(db))|;
    }
  }

  /** Rows run from newest to oldest, and there are as many as the limit allows. */
  lemma RecentNewestFirst(db: Ledger, limit: Option<nat>, maxAge: int)
    requires RecentUploads(db, limit, maxAge).Rows?
    ensures var rows := RecentUploads(db, limit, maxAge).rows;
      && (forall i, j :: 0 <= i < j < |rows| ==> rows[i].time >= rows[j].time)
      && |rows| == if limit.Some? && limit.value < |Flatten(db)| then limit.value else |Flatten(db)|
  {
    var sorted := NewestFirst(Flatten(db));
    assert |sorted| == |Flatten(db)| by {
      assert |multiset(sorted)| == |multiset(Flatten(db))|;
    }
    var shown := Take(sorted, limit);
    var rows := Render(shown, maxAge);
    assert RecentUploads(db, limit, maxAge).rows == rows;
    forall i, j | 0 <= i < j < |rows| ensures rows[i].time >= rows[j].time {
      assert rows[i].time == shown[i].record.time == sorted[i].record.time;
      assert rows[j].time == shown[j].record.time == sorted[j].record.time;
      assert NegTime(sorted[i]) <= NegTime(sorted[j]);
    }
  }

  /** Without a limit the table lists every upload of every client, and nothing else. */
  lemma RecentComplete(db: Ledger, maxAge: int, t: Tagged)
    requires RecentUploads(db, None, maxAge).Rows?
    ensures var rows := RecentUploads(db, None, maxAge).rows;
      (exists e :: e in db && e.key == t.key && t.record in e.files) <==>
      exists i :: 0 <= i < |rows| && NewestFirst(Flatten(db))[i] == t && rows[i] == RowOf(t, maxAge)
  {
    var all := Flatten(db);
    var sorted := NewestFirst(all);
    var rows := Render(sorted, maxAge);
    assert RecentUploads(db, None, maxAge).rows == rows;
    FlattenMembers(db, t);
    NewestFirstMembers(all, t);
    if t in sorted {
      var i :| 0 <= i < |sorted| && sorted[i] == t;
      assert rows[i] == RowOf(t, maxAge);
    }
  }

  /** The newest-first sort neither drops nor invents a record. */
  lemma NewestFirstMembers(all: seq<Tagged>, t: Tagged)
    ensures t in NewestFirst(all) <==> t in all
  {
    assert t in all <==> t in multiset(all);
    assert t in NewestFirst(all) <==> t in multiset(NewestFirst(all));
  }

  /** Uploads made at the same moment keep their ledger order in the table. */
  lemma RecentTiesInLedgerOrder(all: seq<Tagged>, time: int)
    ensures WithKey(NewestFirst(all), NegTime, -time) == WithKey(all, NegTime, -time)
  {
    var k := -time;
    NewestFirstStable(all, k);
  }

  /** The newest-first sort keeps the order of the records sharing a negated time `k`. */
  lemma {:induction false} NewestFirstStable(all: seq<Tagged>, k: int)
    ensures WithKey(NewestFirst(all), NegTime, k) == WithKey(all, NegTime, k)
  {
    SortByStable(all, NegTime, k);
  }
}
