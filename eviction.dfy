/**
 * Per-token eviction in backend.py's upload branch: when the token's
 * recorded usage plus the new upload exceeds the per-token cap, the bucket
 * is stably sorted by upload time and its oldest records are popped, and
 * their files deleted, until the upload fits or the bucket is empty.
 */
module Eviction {
  import opened Ledger
  import opened BlobStore
  import opened Sorting

  function ByTime(f: Record): int {
    f.time
  }

  /** How many records the `while` loop pops from the front of the sorted bucket. */
  function PopCount(sorted: seq<Record>, size: nat, cap: nat): (n: nat)
    ensures n <= |sorted|
  {
    if sorted == [] || Usage(sorted) + size <= cap then 0
    else 1 + PopCount(sorted[1..], size, cap)
  }

  datatype Evicted = Evicted(kept: seq<Record>, evicted: seq<Record>)

  /** The outcome of the eviction loop: the evicted records are a prefix of the time-sorted bucket. */
  function Evict(files: seq<Record>, size: nat, cap: nat): (e: Evicted)
    ensures e.evicted + e.kept == SortBy(files, ByTime)
  {
    var sorted := SortBy(files, ByTime);
    var n := PopCount(sorted, size, cap);
    assert sorted[..n] + sorted[n..] == sorted;
    Evicted(sorted[n..], sorted[..n])
  }

  lemma {:induction false} PopCountStops(sorted: seq<Record>, size: nat, cap: nat)
    ensures var n := PopCount(sorted, size, cap);
      && (n == |sorted| || Usage(sorted[n..]) + size <= cap)
      && (n > 0 ==> Usage(sorted[n - 1..]) + size > cap)
  {
    var n := PopCount(sorted, size, cap);
    if sorted == [] || Usage(sorted) + size <= cap {
      assert n == 0 && sorted[0..] == sorted;
    } else {
      var tail := sorted[1..];
      PopCountStops(tail, size, cap);
      var m := PopCount(tail, size, cap);
      assert n == m + 1;
      assert tail[m..] == sorted[n..];
      if m > 0 {
        assert tail[m - 1..] == sorted[n - 1..];
      } else {
        assert sorted[n - 1..] == sorted;
      }
    }
  }

  /**
   * After eviction either the bucket is empty or what is left plus the new
   * upload fits under the cap; and the loop stopped at the first fit: had
   * it kept the last record it evicted, the upload would not have fitted.
   */
  lemma EvictFits(files: seq<Record>, size: nat, cap: nat)
    ensures var e := Evict(files, size, cap);
      && (e.kept == [] || Usage(e.kept) + size <= cap)
      && (e.evicted != [] ==> Usage([e.evicted[|e.evicted| - 1]] + e.kept) + size > cap)
  {
    PopFits(SortBy(files, ByTime), size, cap);
  }

  /** `EvictFits` on the sorted bucket: the kept suffix fits, and one more record would not. */
  lemma PopFits(sorted: seq<Record>, size: nat, cap: nat)
    ensures var n := PopCount(sorted, size, cap);
      && (sorted[n..] == [] || Usage(sorted[n..]) + size <= cap)
      && (n > 0 ==> Usage([sorted[..n][n - 1]] + sorted[n..]) + size > cap)
  {
    var n := PopCount(sorted, size, cap);
    PopCountStops(sorted, size, cap);
    if n > 0 {
      assert [sorted[..n][n - 1]] + sorted[n..] == sorted[n - 1..];
    }
  }

  /** When the upload alone is over the cap, the loop pops the whole bucket. */
  lemma {:induction false} PopCountAll(sorted: seq<Record>, size: nat, cap: nat)
    requires size > cap
    ensures PopCount(sorted, size, cap) == |sorted|
  {
    if sorted != [] {
      PopCountAll(sorted[1..], size, cap);
    }
  }

  /** An upload larger than the cap by itself evicts every record of the bucket. */
  lemma EvictWhole(files: seq<Record>, size: nat, cap: nat)
    requires size > cap
    ensures Evict(files, size, cap).kept == []
    ensures NameSet(Evict(files, size, cap).evicted) == NameSet(files)
  {
    var sorted := SortBy(files, ByTime);
    PopCountAll(sorted, size, cap);
    assert Evict(files, size, cap).evicted == sorted;
    forall n ensures n in NameSet(sorted) <==> n in NameSet(files) {
      if n in NameSet(sorted) {
        var r :| r in sorted && r.filename == n;
        assert r in multiset(sorted);
      }
      if n in NameSet(files) {
        var r :| r in files && r.filename == n;
        assert r in multiset(files);
      }
    }
  }

  lemma UsageInsert(x: Record, s: seq<Record>)
    requires SortedBy(s, ByTime)
    ensures Usage(InsertBy(x, s, ByTime)) == x.size + Usage(s)
  {
    if s != [] && ByTime(x) > ByTime(s[0]) {
      UsageInsert(x, s[1..]);
    }
  }

  lemma {:induction false} UsageSort(files: seq<Record>)
    ensures Usage(SortBy(files, ByTime)) == Usage(files)
  {
    if files != [] {
      UsageSort(files[1..]);
      UsageInsert(files[0], SortBy(files[1..], ByTime));
    }
  }

  /**
   * The bytes charged to the bucket drop by exactly the sizes of the
   * evicted records: nothing is lost or double-counted.
   */
  lemma EvictUsage(files: seq<Record>, size: nat, cap: nat)
    ensures Usage(Evict(files, size, cap).kept) + Usage(Evict(files, size, cap).evicted) == Usage(files)
  {
    var e := Evict(files, size, cap);
    UsageSort(files);
    UsageAppend(e.evicted, e.kept);
  }

  /** Oldest first: no evicted record is younger than a kept one. */
  lemma EvictOldestFirst(files: seq<Record>, size: nat, cap: nat)
    ensures var e := Evict(files, size, cap);
      forall i, j :: 0 <= i < |e.evicted| && 0 <= j < |e.kept| ==> e.evicted[i].time <= e.kept[j].time
  {
    var e := Evict(files, size, cap);
    var sorted := SortBy(files, ByTime);
    forall i, j | 0 <= i < |e.evicted| && 0 <= j < |e.kept| ensures e.evicted[i].time <= e.kept[j].time {
      assert e.evicted[i] == sorted[i] && e.kept[j] == sorted[|e.evicted| + j];
    }
  }

  /**
   * Ties are broken by insertion order: among records with the same upload
   * time, the evicted ones are the earliest appended.
   */
  lemma EvictStable(files: seq<Record>, size: nat, cap: nat, t: int)
    ensures var e := Evict(files, size, cap);
      WithKey(e.evicted, ByTime, t) + WithKey(e.kept, ByTime, t) == WithKey(files, ByTime, t)
  {
    var e := Evict(files, size, cap);
    SortByStable(files, ByTime, t);
    WithKeyAppend(e.evicted, e.kept, t);
  }

  lemma {:induction false} WithKeyAppend(a: seq<Record>, b: seq<Record>, t: int)
    ensures WithKey(a + b, ByTime, t) == WithKey(a, ByTime, t) + WithKey(b, ByTime, t)
  {
    if a == [] {
      assert a + b == b;
    } else {
      WithKeyAppend(a[1..], b, t);
      assert a + b == [a[0]] + (a[1..] + b);
      assert a == [a[0]] + a[1..];
      WithKeyCons(a[0], a[1..] + b, ByTime, t);
      WithKeyCons(a[0], a[1..], ByTime, t);
    }
  }

  /**
   * A bucket whose records were appended in time order loses exactly its
   * first records r1..rk.
   */
  lemma EvictInOrder(files: seq<Record>, size: nat, cap: nat)
    requires SortedBy(files, ByTime)
    ensures var e := Evict(files, size, cap);
      |e.evicted| <= |files| && e.evicted == files[..|e.evicted|] && e.kept == files[|e.evicted|..]
  {
    SortBySorted(files, ByTime);
    var e := Evict(files, size, cap);
    assert e.evicted + e.kept == files;
  }

  /** One pop: the next record leaves the front of the kept suffix and its name joins the deleted ones. */
  lemma PopStep(sorted: seq<Record>, n: nat, rest: Blobs, blobs: Blobs, size: nat, cap: nat)
    requires n < |sorted| && rest == blobs - NameSet(sorted[..n])
    requires Usage(sorted[n..]) + size > cap
    ensures sorted[n..][1..] == sorted[n + 1..]
    ensures Usage(sorted[n..]) == sorted[n].size + Usage(sorted[n + 1..])
    ensures PopCount(sorted[n..], size, cap) == 1 + PopCount(sorted[n + 1..], size, cap)
    ensures (if sorted[n].filename in rest then rest - {sorted[n].filename} else rest) == blobs - NameSet(sorted[..n + 1])
  {
    assert sorted[..n + 1] == sorted[..n] + [sorted[n]];
    assert NameSet(sorted[..n + 1]) == NameSet(sorted[..n]) + {sorted[n].filename};
  }

  /**
   * The eviction loop of backend.py: sort the bucket by time, then pop the
   * oldest record, deduct its recorded size from `current_token_size` and
   * delete its file if it still exists, while the bucket is not empty and
   * the upload does not fit.
   */
  method EvictOldest(files: seq<Record>, blobs: Blobs, size: nat, cap: nat) returns (kept: seq<Record>, rest: Blobs)
    ensures kept == Evict(files, size, cap).kept
    ensures rest == blobs - NameSet(Evict(files, size, cap).evicted)
  {
    var current := Usage(files);
    var sorted := SortBy(files, ByTime);
    UsageSort(files);
    kept, rest := PopOldest(sorted, current, blobs, size, cap);
  }

  /** The `while` loop of the eviction, on the bucket already sorted by time. */
  method PopOldest(sorted: seq<Record>, current0: nat, blobs: Blobs, size: nat, cap: nat) returns (kept: seq<Record>, rest: Blobs)
    requires current0 == Usage(sorted)
    ensures kept == sorted[PopCount(sorted, size, cap)..]
    ensures rest == blobs - NameSet(sorted[..PopCount(sorted, size, cap)])
  {
    var current := current0;
    kept := sorted;
    ghost var n: nat := 0;
    rest := blobs;
    assert sorted[..0] == [];
    while kept != [] && current + size > cap
      invariant n <= |sorted| && kept == sorted[n..]
      invariant current == Usage(kept)
      invariant PopCount(sorted, size, cap) == n + PopCount(kept, size, cap)
      invariant rest == blobs - NameSet(sorted[..n])
      decreases |kept|
    {
      var oldest := kept[0];
      PopStep(sorted, n, rest, blobs, size, cap);
      kept := kept[1..];
      n := n + 1;
      current := current - oldest.size;
      if oldest.filename in rest {
        rest := rest - {oldest.filename};
      }
    }
  }
}
