/**
 * Compaction statistics of the index segments and their aggregate over all
 * segments.
 */
module CompactionStatsModel {
  /** Byte sizes one segment reports after compaction. */
  datatype CompactionStats = CompactionStats(offsetTableSizeBytes: nat, mmapFileSizeBytes: nat)

  /** The derived default: both sizes zero. */
  const DEFAULT := CompactionStats(0, 0)

  function Add(a: CompactionStats, b: CompactionStats): CompactionStats
  {
    CompactionStats(a.offsetTableSizeBytes + b.offsetTableSizeBytes, a.mmapFileSizeBytes + b.mmapFileSizeBytes)
  }

  /** Field-wise sums over the inputs, taken in order. */
  function Total(stats: seq<CompactionStats>): CompactionStats
    decreases |stats|
  {
    if stats == [] then DEFAULT
    else Add(Total(stats[..|stats| - 1]), stats[|stats| - 1])
  }

  /**
   * `aggregate`: each size of the result is the sum of that size over the
   * inputs, and nothing at all gives the default.
   */
  method Aggregate(stats: seq<CompactionStats>) returns (r: CompactionStats)
    ensures r == Total(stats)
    ensures stats == [] ==> r == DEFAULT
  {
    var offsetTableSizeBytes: nat := 0;
    var mmapFileSizeBytes: nat := 0;
    for i := 0 to |stats|
      invariant CompactionStats(offsetTableSizeBytes, mmapFileSizeBytes) == Total(stats[..i])
    {
      assert stats[..i + 1][..i] == stats[..i];
      offsetTableSizeBytes := offsetTableSizeBytes + stats[i].offsetTableSizeBytes;
      mmapFileSizeBytes := mmapFileSizeBytes + stats[i].mmapFileSizeBytes;
    }
    assert stats[..|stats|] == stats;
    r := CompactionStats(offsetTableSizeBytes, mmapFileSizeBytes);
  }

  /** Aggregating two runs of segments separately and adding gives the aggregate of both. */
  lemma {:induction false} TotalAppend(a: seq<CompactionStats>, b: seq<CompactionStats>)
    ensures Total(a + b) == Add(Total(a), Total(b))
    decreases |b|
  {
    if b == [] {
      assert a + b == a;
    } else {
      var init, last := b[..|b| - 1], b[|b| - 1];
      var ab := a + b;
      assert ab[..|ab| - 1] == a + init && ab[|ab| - 1] == last;
      assert Total(ab) == Add(Total(a + init), last);
      TotalAppend(a, init);
      assert Total(b) == Add(Total(init), last);
    }
  }

  lemma TotalSingle(x: CompactionStats)
    ensures Total([x]) == x
  {
    assert [x][..0] == [];
  }

  /** Removing one occurrence of the last element of `a` from `b` leaves equal multisets. */
  lemma RemoveLast(a: seq<CompactionStats>, b: seq<CompactionStats>, k: nat)
    requires multiset(a) == multiset(b) && a != [] && k < |b| && b[k] == a[|a| - 1]
    ensures multiset(a[..|a| - 1]) == multiset(b[..k] + b[k + 1..])
  {
    assert a == a[..|a| - 1] + [a[|a| - 1]];
    assert b == b[..k] + [b[k]] + b[k + 1..];
    assert multiset(a) == multiset(a[..|a| - 1]) + multiset{b[k]};
    assert multiset(b) == multiset(b[..k]) + multiset{b[k]} + multiset(b[k + 1..]);
    assert multiset(b[..k] + b[k + 1..]) == multiset(b[..k]) + multiset(b[k + 1..]);
    assert multiset(a[..|a| - 1]) == multiset(a) - multiset{b[k]};
    assert multiset(b[..k] + b[k + 1..]) == multiset(b) - multiset{b[k]};
  }

  /** Moving one input to the end of the run does not change the aggregate. */
  lemma MoveToEnd(before: seq<CompactionStats>, x: CompactionStats, after: seq<CompactionStats>)
    ensures Total(before + [x] + after) == Add(Total(before + after), x)
  {
    var bx := before + [x];
    var tb, ta := Total(before), Total(after);
    TotalAppend(bx, after);
    TotalAppend(before, [x]);
    TotalSingle(x);
    assert Total(bx) == Add(tb, x);
    TotalAppend(before, after);
    assert Total(bx + after) == Add(Add(tb, x), ta);
    assert Total(before + after) == Add(tb, ta);
  }

  /** The aggregate does not depend on the order of the inputs. */
  lemma {:induction false} TotalPermutation(a: seq<CompactionStats>, b: seq<CompactionStats>)
    requires multiset(a) == multiset(b)
    ensures Total(a) == Total(b)
    decreases |a|
  {
    if a != [] {
      var x := a[|a| - 1];
      assert x in multiset(b);
      var k :| 0 <= k < |b| && b[k] == x;
      RemoveLast(a, b, k);
      TotalPermutation(a[..|a| - 1], b[..k] + b[k + 1..]);
      MoveToEnd(b[..k], x, b[k + 1..]);
      assert b == b[..k] + [x] + b[k + 1..];
    }
  }
}
