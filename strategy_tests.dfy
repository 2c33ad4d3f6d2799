/**
 The strategy test class as proved scenarios: each one starts from the table
 the fixture resets to, then calls strategies on it.
 */
module StrategyTests {
  import opened Results
  import opened Sequence
  import opened Memo
  import Iterative
  import Batched
  import Segmented
  import UseCase

  /** A fresh table put back into the fixture's state. */
  method FreshTable() returns (cache: LabseqCache)
    ensures fresh(cache)
    ensures cache.Valid() && cache.entries == BaseEntries()
  {
    cache := new LabseqCache();
    cache.Reset();
  }

  /** The iterative strategy answers 3 for index 10. */
  method IterativeAtTen() returns (r: Result<int>)
    ensures r == Ok(3)
  {
    var cache := FreshTable();
    r := Iterative.Calculate(cache, 10);
    ValueExamples();
  }

  /** The batched strategy answers a value, L(10 000), for index 10 000. */
  method BatchedAtTenThousand() returns (r: Result<int>)
    ensures r.Ok? && r.value == L(10_000)
  {
    var cache := FreshTable();
    ghost var batches;
    r, batches := Batched.Calculate(cache, 10_000);
  }

  /** The segmented strategy answers a value, L(100 000), for index 100 000. */
  method SegmentedAtHundredThousand() returns (r: Result<int>)
    ensures r.Ok? && r.value == L(100_000)
  {
    var cache := FreshTable();
    ghost var first, blocks;
    r, first, blocks := Segmented.Calculate(cache, 100_000);
  }

  /**
   On one shared table, the iterative, batched and segmented strategies called
   in turn at index 5000 all answer the same value, L(5000).
   */
  method ConsistencyAtFiveThousand() returns (r1: Result<int>, r2: Result<int>, r3: Result<int>)
    ensures r1 == r2 && r1 == r3
    ensures r1 == Ok(L(5000))
  {
    var cache := FreshTable();
    r1 := Iterative.Calculate(cache, 5000);
    ghost var batches;
    r2, batches := Batched.Calculate(cache, 5000);
    ghost var first, blocks;
    r3, first, blocks := Segmented.Calculate(cache, 5000);
  }

  /**
   Asking the segmented strategy twice gives the same answer, the second time
   from the table. Index 100 003 is the largest that the initial table fills
   in a single block, so the Java strategy's seed hand-off is never reached.
   */
  method RepeatIsCacheHit() returns (r1: Result<int>, r2: Result<int>, unchangedByRepeat: bool)
    ensures r1 == r2 == Ok(L(100_003))
    ensures unchangedByRepeat
  {
    var cache := FreshTable();
    ghost var first, blocks;
    r1, first, blocks := Segmented.Calculate(cache, 100_003);
    var before := cache.entries;
    r2, first, blocks := Segmented.Calculate(cache, 100_003);
    unchangedByRepeat := cache.entries == before;
  }

  /**
   Through the engine entry point, with any thresholds: once an index n >= 0
   has been answered, asking again answers the same and changes nothing.
   */
  method EngineRepeatIsCacheHit(t: UseCase.Thresholds, cache: LabseqCache, n: int)
    returns (r1: Result<int>, r2: Result<int>, unchangedByRepeat: bool)
    requires cache.Valid()
    requires 0 <= n
    modifies cache
    ensures r1.Ok? ==> r1 == r2 && unchangedByRepeat
  {
    r1 := UseCase.Calculate(t, cache, n);
    var before := cache.entries;
    r2 := UseCase.Calculate(t, cache, n);
    unchangedByRepeat := cache.entries == before;
    if r1.Ok? {
      assert n in before && IsPrefixMemo(before);
      assert forall k :: k in cache.entries ==> k in before;
      assert forall k :: k in before ==> k in cache.entries;
      assert cache.entries.Keys == before.Keys;
      assert forall k :: k in before ==> cache.entries[k] == before[k];
      assert cache.entries == before;
    }
  }
}
