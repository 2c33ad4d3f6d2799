/** The chunked sequential strategy, used for medium indices. */
module Batched {
  import opened Results
  import opened Sequence
  import opened Blocks
  import opened Memo

  /** The strategy's registered name. */
  const Name: string := "labseq-batched"

  /** The number of indices filled per batch. */
  const BatchSize: int := 64

  /** What the strategy answers: an exception for a negative index, L(n) otherwise. */
  ghost function Outcome(n: int): Result<int>
  {
    if n < 0 then Err(IllegalArgument("n must be non-negative")) else Ok(L(n))
  }

  /**
   One batch: the indices lo..hi are written in order, each from the two
   entries four and three below it, so the table stays a valid memo and
   gains exactly lo..hi.
   */
  method FillBatch(cache: LabseqCache, lo: int, hi: int)
    requires 4 <= lo
    requires IsPrefixMemo(cache.entries)
    requires lo - 1 in cache.entries
    modifies cache
    ensures IsPrefixMemo(cache.entries)
    ensures forall k :: k in cache.entries <==> k in old(cache.entries) || lo <= k <= hi
  {
    var i := lo;
    while i <= hi
      invariant lo <= i
      invariant i <= hi + 1 || i == lo
      invariant IsPrefixMemo(cache.entries)
      invariant i - 1 in cache.entries
      invariant forall k :: k in cache.entries <==> k in old(cache.entries) || lo <= k < i
    {
      RecurrenceStep(cache.entries, i);
      var a := cache.entries[i - 4];
      var b := cache.entries[i - 3];
      var value := a + b;
      PutPreserves(cache.entries, i);
      cache.entries := cache.entries[i := value];
      i := i + 1;
    }
  }

  /**
   A negative index throws and a cached one is answered from the table, both
   without touching it; otherwise the batches [4, 67], [68, 131], ... up to n
   are filled one after the other, in order, and together they are exactly
   the chunks of 4..n. Only indices 4..n are written, with the values they
   already hold where they were cached.
   */
  method Calculate(cache: LabseqCache, n: int) returns (r: Result<int>, ghost batches: seq<Block>)
    requires cache.Valid()
    modifies cache
    ensures cache.Valid()
    ensures r == Outcome(n)
    ensures n < 0 || n in old(cache.entries) ==> cache.entries == old(cache.entries) && batches == []
    ensures 0 <= n && n !in old(cache.entries) ==> batches == Chunks(4, n, BatchSize)
    ensures 0 <= n ==>
      forall k :: k in cache.entries <==> k in old(cache.entries) || 4 <= k <= n
    ensures forall k :: k in old(cache.entries) ==>
      k in cache.entries && cache.entries[k] == old(cache.entries)[k]
  {
    batches := [];
    if n < 0 {
      return Err(IllegalArgument("n must be non-negative")), batches;
    }
    if n in cache.entries {
      return Ok(cache.entries[n]), batches;
    }
    var last := 3;
    var batchSize := BatchSize;
    var batchStart := last + 1;
    while batchStart <= n
      invariant 4 <= batchStart
      invariant IsPrefixMemo(cache.entries)
      invariant forall k :: k in cache.entries <==> k in old(cache.entries) || (4 <= k <= n && k < batchStart)
      invariant batchStart <= n ==> batchStart - 1 in cache.entries
      invariant batches + Chunks(batchStart, n, BatchSize) == Chunks(4, n, BatchSize)
    {
      var batchEnd := Min(batchStart + batchSize - 1, n);
      FillBatch(cache, batchStart, batchEnd);
      batches := batches + [Block(batchStart, batchEnd)];
      batchStart := batchStart + batchSize;
    }
    r := Ok(cache.entries[n]);
  }
}
