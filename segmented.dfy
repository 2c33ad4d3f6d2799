/**
 The segmented strategy, used for large indices: it resumes after the largest
 cached index and fills the rest in blocks of 100 000, each block carried by a
 four-value sliding window seeded from the four values before it.

 The Java strategy hands each block to a thread pool and reads the next block's seed
 from the table right after submitting it, while the block may still be
 running; that read races with the block's writes (see HandOffBeforeBlockRuns).
 Here every block runs to completion before its successor's seed is read, so
 blocks run one after another, in order.
 */
module Segmented {
  import opened Results
  import opened Sequence
  import opened Blocks
  import opened Memo

  /** The strategy's registered name. */
  const Name: string := "labseq-parallel-segmented"

  /** The number of indices per block. */
  const BlockSize: int := 100_000

  /** What the strategy answers: an exception for a negative index, L(n) otherwise. */
  ghost function Outcome(n: int): Result<int>
  {
    if n < 0 then Err(IllegalArgument("n must be non-negative")) else Ok(L(n))
  }

  /** Java's `long` division of a by a positive b, which truncates toward zero. */
  function JavaDiv(a: int, b: int): (q: int)
    requires 0 < b
    ensures 0 <= a ==> q * b <= a < q * b + b
    ensures a < 0 ==> q * b - b < a <= q * b
  {
    if a >= 0 then a / b else -((-a) / b)
  }

  /** A non-empty set has an element to pick. */
  lemma HasElement(s: set<int>)
    requires s != {}
    ensures exists x :: x in s
  {
    if forall x :: x !in s {
      assert false;
    }
  }

  /** The largest key of the table, or 3 when it has none (`max().orElse(3L)`). */
  method MaxKey(keys: set<int>) returns (r: int)
    ensures keys == {} ==> r == 3
    ensures keys != {} ==> r in keys && forall k :: k in keys ==> k <= r
  {
    if keys == {} {
      return 3;
    }
    var rest := keys;
    HasElement(rest);
    var first :| first in rest;
    r := first;
    rest := rest - {first};
    while rest != {}
      invariant rest <= keys
      invariant r in keys
      invariant forall k :: k in keys && k !in rest ==> k <= r
      decreases rest
    {
      HasElement(rest);
      var k :| k in rest;
      if k > r {
        r := k;
      }
      rest := rest - {k};
    }
  }

  /** s is far enough from 0 for L(s-4) to exist, and the seeds are L(s-4), ..., L(s-1). */
  ghost predicate Seeded(l0: Option<int>, l1: Option<int>, l2: Option<int>, l3: Option<int>, s: int)
  {
    && 4 <= s
    && l0 == Some(L(s - 4)) && l1 == Some(L(s - 3))
    && l2 == Some(L(s - 2)) && l3 == Some(L(s - 1))
  }

  /**
   Where the table stops once the first `block` blocks of `all` are filled:
   the next block's start, or one past n when every block is done.
   */
  ghost function Resume(all: seq<Block>, block: int, n: int): int
  {
    if 0 <= block < |all| then all[block].start else n + 1
  }

  /**
   Block number `block` of first..n spans first + block * BlockSize up to
   BlockSize indices later, clipped at n; a block that is not the last is
   full, and one past its end is where the table resumes afterwards.
   */
  lemma BlockBounds(first: int, n: int, block: int)
    requires 0 <= block < |Chunks(first, n, BlockSize)|
    ensures var all := Chunks(first, n, BlockSize);
      var start := first + block * BlockSize;
      var end := Min(start + BlockSize - 1, n);
      && all[block] == Block(start, end)
      && all[..block + 1] == all[..block] + [Block(start, end)]
      && start <= end
      && end + 1 == Resume(all, block + 1, n)
      && (block + 1 < |all| ==> end - start + 1 == BlockSize)
  {
    ChunkAt(first, n, BlockSize, block);
    ChunkStep(first, n, BlockSize, block);
    var all := Chunks(first, n, BlockSize);
    assert all[..block + 1] == all[..block] + [all[block]];
  }

  /**
   The seed read once the block start..end has been handed over: four
   consecutive entries from max(end - 3, start).
   */
  function HandOffSeeds(m: map<int, int>, start: int, end: int): (seeds: seq<Option<int>>)
    ensures start + 3 <= end ==>
      seeds == [Lookup(m, end - 3), Lookup(m, end - 2), Lookup(m, end - 1), Lookup(m, end)]
    ensures end < start + 3 ==>
      seeds == [Lookup(m, start), Lookup(m, start + 1), Lookup(m, start + 2), Lookup(m, start + 3)]
  {
    var tail := Max(end - 3, start);
    [Lookup(m, tail), Lookup(m, tail + 1), Lookup(m, tail + 2), Lookup(m, tail + 3)]
  }

  /**
   Read after a block of at least four indices has completed, the hand-off
   seed is the block's last four values, which are the next block's four
   predecessors.
   */
  lemma HandOffAfterBlock(m: map<int, int>, start: int, end: int)
    requires 0 <= start && start + 3 <= end && Filled(m, end)
    ensures HandOffSeeds(m, start, end)
      == [Some(L(end - 3)), Some(L(end - 2)), Some(L(end - 1)), Some(L(end))]
  {
  }

  /**
   Once block number `block` of first..n has been filled, the hand-off seed
   read from it is the four predecessors of the next block, if there is one.
   */
  lemma NextSeed(m: map<int, int>, first: int, n: int, block: int)
    requires 4 <= first
    requires 0 <= block < |Chunks(first, n, BlockSize)|
    requires Filled(m, Min(first + block * BlockSize + BlockSize - 1, n))
    ensures var all := Chunks(first, n, BlockSize);
      var start := first + block * BlockSize;
      var seeds := HandOffSeeds(m, start, Min(start + BlockSize - 1, n));
      block + 1 < |all| ==> Seeded(seeds[0], seeds[1], seeds[2], seeds[3], all[block + 1].start)
  {
    var start := first + block * BlockSize;
    var end := Min(start + BlockSize - 1, n);
    BlockBounds(first, n, block);
    if block + 1 < |Chunks(first, n, BlockSize)| {
      HandOffAfterBlock(m, start, end);
    }
  }

  /**
   The Java strategy as written reads the hand-off seed straight after submitting
   the block. If the worker has not yet written anything, the table still
   stops before the block, and a block of at least four indices yields four
   missing values (null), on which the next block's first addition fails.
   */
  lemma HandOffBeforeBlockRuns(m: map<int, int>, start: int, end: int)
    requires forall k :: k in m ==> k < start
    requires start + 3 <= end
    ensures HandOffSeeds(m, start, end) == [None, None, None, None]
  {
  }

  /**
   From the freshly seeded table, index 150 000 takes two blocks, and the
   seed read for the second one before the first has run is all null.
   */
  lemma RaceAtSecondBlock()
    ensures JavaDiv(150_000 - 4 + 1 + BlockSize - 1, BlockSize) == 2
    ensures HandOffSeeds(BaseEntries(), 4, Min(4 + BlockSize - 1, 150_000)) == [None, None, None, None]
  {
    BaseEntriesShape();
    HandOffBeforeBlockRuns(BaseEntries(), 4, 4 + BlockSize - 1);
  }

  /**
   `after` is `before` with L(k) written at every index of start..end and
   nothing else changed.
   */
  ghost predicate BlockWritten(before: map<int, int>, after: map<int, int>, start: int, end: int)
  {
    && (forall k :: k in after <==> k in before || start <= k <= end)
    && (forall k {:trigger after[k]} :: 0 <= start <= k <= end ==> after[k] == L(k))
    && (forall k :: k in before && !(start <= k <= end) ==> after[k] == before[k])
  }

  /**
   Filling the block that starts right where a well-formed table stops
   extends it to a well-formed table that stops at the block's end.
   */
  lemma ExtendByBlock(before: map<int, int>, after: map<int, int>, start: int, end: int)
    requires 0 <= start <= end && Filled(before, start - 1)
    requires BlockWritten(before, after, start, end)
    ensures Filled(after, end)
  {
  }

  /**
   One block's task: starting from the seed (L(start-4) .. L(start-1)), a
   window (a, b, c, d) slides over start..end; each step writes a + b, which
   is L(i), and never reads the table. Nothing outside start..end changes.
   */
  method RunBlock(cache: LabseqCache, start: int, end: int, prev0: int, prev1: int, prev2: int, prev3: int)
    requires 4 <= start <= end + 1
    requires prev0 == L(start - 4) && prev1 == L(start - 3)
    requires prev2 == L(start - 2) && prev3 == L(start - 1)
    modifies cache
    ensures BlockWritten(old(cache.entries), cache.entries, start, end)
  {
    var a, b, c, d := prev0, prev1, prev2, prev3;
    var i := start;
    while i <= end
      invariant start <= i <= end + 1
      invariant a == L(i - 4) && b == L(i - 3) && c == L(i - 2) && d == L(i - 1)
      invariant forall k :: k in cache.entries <==> k in old(cache.entries) || start <= k < i
      invariant forall k {:trigger cache.entries[k]} :: start <= k < i ==> cache.entries[k] == L(k)
      invariant forall k :: k in old(cache.entries) && !(start <= k < i) ==>
        cache.entries[k] == old(cache.entries)[k]
    {
      var result := a + b;
      cache.entries := cache.entries[i := result];
      a, b, c, d := b, c, d, result;
      i := i + 1;
    }
  }

  /**
   The block loop, with every block run to completion before the next seed is
   read: starting from a table filled up to first-1 and the seed L(first-4) ..
   L(first-1), it visits exactly the chunks of first..n in order, seeds each
   from its four predecessors, and leaves the table filled up to n.
   */
  method RunBlocks(cache: LabseqCache, firstToCompute: int, n: int, totalBlocks: int,
                   seed0: Option<int>, seed1: Option<int>, seed2: Option<int>, seed3: Option<int>)
    returns (ghost blocks: seq<Block>)
    requires 4 <= firstToCompute <= n
    requires totalBlocks == |Chunks(firstToCompute, n, BlockSize)|
    requires Filled(cache.entries, firstToCompute - 1)
    requires Seeded(seed0, seed1, seed2, seed3, firstToCompute)
    modifies cache
    ensures Filled(cache.entries, n)
    ensures blocks == Chunks(firstToCompute, n, BlockSize)
  {
    ghost var all := Chunks(firstToCompute, n, BlockSize);
    ChunkAt(firstToCompute, n, BlockSize, 0);
    var l0, l1, l2, l3 := seed0, seed1, seed2, seed3;
    blocks := [];
    var block := 0;
    while block < totalBlocks
      invariant 0 <= block <= totalBlocks
      invariant Filled(cache.entries, Resume(all, block, n) - 1)
      invariant block < totalBlocks ==> Seeded(l0, l1, l2, l3, all[block].start)
      invariant blocks == all[..block]
    {
      var start := firstToCompute + block * BlockSize;
      var end := Min(start + BlockSize - 1, n);
      BlockBounds(firstToCompute, n, block);

      var prev0, prev1, prev2, prev3 := l0.value, l1.value, l2.value, l3.value;
      ghost var before := cache.entries;
      RunBlock(cache, start, end, prev0, prev1, prev2, prev3);
      ExtendByBlock(before, cache.entries, start, end);
      blocks := blocks + [Block(start, end)];

      var seeds := HandOffSeeds(cache.entries, start, end);
      NextSeed(cache.entries, firstToCompute, n, block);
      l0, l1, l2, l3 := seeds[0], seeds[1], seeds[2], seeds[3];
      block := block + 1;
    }
    assert blocks == all;
  }

  /**
   A negative index throws and a cached one is answered from the table, both
   without touching it. Otherwise computation resumes at `first`, one past
   the largest cached index; the blocks visited are exactly the chunks of
   first..n of size BlockSize, their number is Java's ceiling division, each
   is seeded with its four predecessors, and afterwards the table holds
   exactly 0..n with L everywhere, the old entries unchanged.
   */
  method Calculate(cache: LabseqCache, n: int) returns (r: Result<int>, ghost first: int, ghost blocks: seq<Block>)
    requires cache.Valid()
    modifies cache
    ensures cache.Valid()
    ensures r == Outcome(n)
    ensures n < 0 || n in old(cache.entries) ==> cache.entries == old(cache.entries) && blocks == []
    ensures 0 <= n && n !in old(cache.entries) ==>
      && first - 1 in old(cache.entries)
      && (forall k :: k in old(cache.entries) ==> k < first)
      && blocks == Chunks(first, n, BlockSize)
      && (forall k :: k in cache.entries <==> k in old(cache.entries) || first <= k <= n)
    ensures forall k :: k in old(cache.entries) ==>
      k in cache.entries && cache.entries[k] == old(cache.entries)[k]
  {
    first, blocks := 0, [];
    if n < 0 {
      r := Err(IllegalArgument("n must be non-negative"));
      return;
    }
    if n in cache.entries {
      r := Ok(cache.entries[n]);
      return;
    }
    var lastCached := MaxKey(cache.entries.Keys);
    PrefixKeys(cache.entries, lastCached);
    var firstToCompute := lastCached + 1;
    var totalBlocks := JavaDiv(n - firstToCompute + 1 + BlockSize - 1, BlockSize);
    first := firstToCompute;
    ChunksCount(firstToCompute, n, BlockSize);
    assert totalBlocks == |Chunks(firstToCompute, n, BlockSize)|;

    var l0 := Lookup(cache.entries, lastCached - 3);
    var l1 := Lookup(cache.entries, lastCached - 2);
    var l2 := Lookup(cache.entries, lastCached - 1);
    var l3 := Lookup(cache.entries, lastCached);

    blocks := RunBlocks(cache, firstToCompute, n, totalBlocks, l0, l1, l2, l3);
    PrefixFromInterval(cache.entries, n);
    r := Ok(cache.entries[n]);
  }
}
