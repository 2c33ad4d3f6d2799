# labseq engine in Dafny

This project models the sequence engine of the labseq service. The sequence
is

    L(0..3) = 0, 1, 0, 1        L(n) = L(n-4) + L(n-3)

The engine has four parts:

- **The memo table.** One process-wide map from index to value, seeded with
  the four base values (`LabseqCache`).
- **Three strategies.** Each fills the table up to `n` and answers `L(n)`:
  - **Iterative:** a single loop over 4..n.
  - **Batched:** the same fill in chunks of 64.
  - **Segmented:** resumes after the largest cached index and splits the
    rest into blocks of 100 000. Each block is seeded with its four
    predecessors and filled with a four-value sliding window.
- **The use case.** It sorts `n` into a size class using two thresholds
  (defaults 1000 and 100 000), looks up the strategy registered under that
  class's name, and returns that strategy's answer.

The reference is the ghost function `Sequence.L`. Every operation is
specified against it.

The table is a class `Memo.LabseqCache` with a `map<int, int>` field. Its
invariant `Valid()` says three things:

- index 3 is present;
- every key is an index whose value is `L(key)`;
- the keys are closed downwards, so they form a contiguous prefix 0..k with
  k ≥ 3.

Each strategy is a method that takes the shared table, keeps it valid, and
states its result and its whole new key set in terms of the old table.

Modules:

- `Results`: `Option` (for a lookup that returns null), the `IllegalArgument`
  exception, and `Result`.
- `Sequence`: `L`, the table invariant, the base entries, and the facts a
  read or a write relies on.
- `Blocks`: the chunk lists `[lo, lo+size-1], [lo+size, …], …, [.., hi]` the
  batched and segmented loops visit, and the proof that they partition
  `[lo, hi]` in order.
- `Memo`: the table class and `Map.get`.
- `Iterative`, `Batched`, `Segmented`: the three strategies.
- `UseCase`: thresholds, size classes, names, lookup and delegation.
- `StrategyTests`: the scenarios of the strategy test class, as proved
  methods.

The model follows the Java code where it departs from what the engine is
meant to do:

- A negative index is meant to be rejected. The iterative strategy instead
  returns 0 for it. So `UseCase.Calculate` answers 0 for any negative index
  in the small class.
- A fill is meant to resume after the largest cached index. The iterative
  and batched fills instead always restart at 4, so cached indices are
  rewritten with the value they already hold.
- The thresholds are meant to be non-negative and ordered. The code does not
  check this, so the model takes any two integers, and only `RangeMonotone`
  assumes they are ordered.
- A chunked fill is meant to recompute a missing predecessor on demand. The
  batched strategy has no such fallback; under the table invariant a
  predecessor is never missing.
- Old entries are meant to be removable by a compaction policy. No such
  compaction exists in the code, and the model has none either.

## Model

| member | source | states |
|---|---|---|
| Sequence.BaseEntriesShape | src/main/java/org/altice/labseq/util/LabseqCache.java:8-15 | the initial table has exactly the keys {0,1,2,3} and satisfies the prefix invariant |
| Sequence.PrefixKeys | src/main/java/org/altice/labseq/infrastructure/strategy/SegmentedLabseqStrategy.java:25-36 | a valid table whose largest key is `top` holds exactly 0..top, each with its value L, and top ≥ 3, so the four seed reads at top-3..top all succeed |
| Sequence.PrefixFromInterval | src/main/java/org/altice/labseq/infrastructure/strategy/SegmentedLabseqStrategy.java:74-85 | a table holding exactly 0..top with L values (top ≥ 3) is a valid table again |
| Sequence.RecurrenceStep | src/main/java/org/altice/labseq/infrastructure/strategy/IterativeLabseqStrategy.java:28-30 | in a valid table that holds i-1, the reads at i-4 and i-3 are present and their sum is L(i) |
| Sequence.PutPreserves | src/main/java/org/altice/labseq/infrastructure/strategy/IterativeLabseqStrategy.java:31 | writing L(i) at an index whose predecessors are all present keeps the table valid and adds exactly i |
| Sequence.ValueExamples | src/test/java/org/altice/labseq/controller/LabseqStrategyTest.java:30-31 | the base values, and L(4) = 1, L(7) = 2, L(10) = 3 |
| Memo.Lookup | src/main/java/org/altice/labseq/infrastructure/strategy/SegmentedLabseqStrategy.java:33-36 | `Map.get` yields a value exactly when the key is present, and then the stored one; otherwise null |
| Memo.LabseqCache.constructor | src/main/java/org/altice/labseq/util/LabseqCache.java:8-15 | the static initializer leaves exactly 0→0, 1→1, 2→0, 3→1, a valid table |
| Memo.LabseqCache.Reset | src/test/java/org/altice/labseq/controller/LabseqStrategyTest.java:18-25 | clearing and re-putting the four base values gives back exactly the initial table from any state |
| Iterative.Calculate | src/main/java/org/altice/labseq/infrastructure/strategy/IterativeLabseqStrategy.java:18-35 | a negative n answers 0 and a cached n its stored value, both leaving the table unchanged; n > Integer.MAX_VALUE throws, also unchanged; otherwise it answers L(n), the keys become the old ones plus 4..n, and old entries keep their values |
| Batched.FillBatch | src/main/java/org/altice/labseq/infrastructure/strategy/BatchedLabseqStrategy.java:28-33 | one batch keeps the table valid and adds exactly lo..hi |
| Batched.Calculate | src/main/java/org/altice/labseq/infrastructure/strategy/BatchedLabseqStrategy.java:18-37 | a negative n throws and a cached n answers its stored value, both with the table unchanged; otherwise the batches visited, in order, are exactly the 64-wide chunks of 4..n, it answers L(n), the keys become the old ones plus 4..n, and old entries keep their values |
| Blocks.Chunks | src/main/java/org/altice/labseq/infrastructure/strategy/BatchedLabseqStrategy.java:25-26 | the blocks a loop stepping from lo by size visits: none exactly when lo > hi, and each a non-empty part of lo..hi |
| Blocks.ChunksTile | src/main/java/org/altice/labseq/infrastructure/strategy/BatchedLabseqStrategy.java:25-26 | the chunks of lo..hi start at lo, end at hi, are each non-empty, stay inside lo..hi and follow each other without a gap; every chunk but the last is full |
| Blocks.ChunkStep | src/main/java/org/altice/labseq/infrastructure/strategy/SegmentedLabseqStrategy.java:38-40 | a chunk is non-empty; a chunk that is not the last is full and is followed by the chunk starting right after it; the last one ends at hi |
| Blocks.ChunksCount | src/main/java/org/altice/labseq/infrastructure/strategy/SegmentedLabseqStrategy.java:27 | the number of chunks c satisfies (c-1)·size < hi-lo+1 ≤ c·size, so it is the ceiling of the length over the size |
| Blocks.ChunkAt | src/main/java/org/altice/labseq/infrastructure/strategy/SegmentedLabseqStrategy.java:39-40 | chunk k is [lo + k·size, min(lo + k·size + size - 1, hi)] |
| Blocks.TilesOrdered | src/main/java/org/altice/labseq/infrastructure/strategy/BatchedLabseqStrategy.java:25 | in a tiling an earlier block ends before a later one starts |
| Blocks.TilesPartition | src/main/java/org/altice/labseq/infrastructure/strategy/SegmentedLabseqStrategy.java:38-40 | the blocks of a tiling cover exactly lo..hi, are strictly increasing, and no two overlap |
| Segmented.JavaDiv | src/main/java/org/altice/labseq/infrastructure/strategy/SegmentedLabseqStrategy.java:27 | Java's long division: truncates toward zero, and for a non-negative dividend q·b ≤ a < q·b + b |
| Segmented.MaxKey | src/main/java/org/altice/labseq/infrastructure/strategy/SegmentedLabseqStrategy.java:25 | the largest key of a non-empty set, which is in the set and bounds it; 3 for the empty set |
| Segmented.BlockBounds | src/main/java/org/altice/labseq/infrastructure/strategy/SegmentedLabseqStrategy.java:38-40 | the loop's start and end for block k are chunk k; a block that is not the last is full; the table resumes one past its end |
| Segmented.HandOffSeeds | src/main/java/org/altice/labseq/infrastructure/strategy/SegmentedLabseqStrategy.java:67-71 | the four `Map.get` reads of the hand-off: the last four indices of a block of at least four, otherwise the four starting at the block's start |
| Segmented.HandOffAfterBlock | src/main/java/org/altice/labseq/infrastructure/strategy/SegmentedLabseqStrategy.java:66-71 | read after a block of at least four indices has completed, the seed is its last four values L(end-3..end) |
| Segmented.NextSeed | src/main/java/org/altice/labseq/infrastructure/strategy/SegmentedLabseqStrategy.java:66-71 | read after block k has completed, the seed is the four predecessors of block k+1, whenever there is one |
| Segmented.HandOffBeforeBlockRuns | src/main/java/org/altice/labseq/infrastructure/strategy/SegmentedLabseqStrategy.java:47-71 | read before a submitted block of at least four indices has written anything, the seed is four nulls |
| Segmented.RaceAtSecondBlock | src/main/java/org/altice/labseq/infrastructure/strategy/SegmentedLabseqStrategy.java:27-71 | from the initial table, n = 150 000 gives two blocks, and the seed read for the second block before the first has run is all null |
| Segmented.ExtendByBlock | src/main/java/org/altice/labseq/infrastructure/strategy/SegmentedLabseqStrategy.java:53-60 | a table filled up to start-1, once start..end is written with L, is filled up to end |
| Segmented.RunBlock | src/main/java/org/altice/labseq/infrastructure/strategy/SegmentedLabseqStrategy.java:47-62 | seeded with L(start-4..start-1), the sliding window writes exactly L(i) at each i in start..end and leaves every other entry as it was; the window holds L(i-4..i-1) at every step |
| Segmented.RunBlocks | src/main/java/org/altice/labseq/infrastructure/strategy/SegmentedLabseqStrategy.java:38-72 | with blocks run one after another, the loop visits exactly the chunks of first..n in order, seeds each with its four predecessors, and leaves the table filled up to n |
| Segmented.Calculate | src/main/java/org/altice/labseq/infrastructure/strategy/SegmentedLabseqStrategy.java:21-86 | a negative n throws and a cached n answers its stored value, both with the table unchanged; otherwise computation starts one past the largest cached key, the blocks are exactly the 100 000-wide chunks of first..n, it answers L(n), the keys become the old ones plus first..n, and old entries keep their values |
| UseCase.GetRange | src/main/java/org/altice/labseq/domain/CalculateLabseqUseCase.java:38-42 | small exactly when n ≤ the iterative threshold, medium exactly when it lies between the thresholds, large exactly when it exceeds both |
| UseCase.StrategyFor | src/main/java/org/altice/labseq/domain/CalculateLabseqUseCase.java:30-36 | each size class is handled by the strategy whose registered name the switch returns for it, and by no other |
| UseCase.SelectStrategyName | src/main/java/org/altice/labseq/domain/CalculateLabseqUseCase.java:30-36 | "iterative-labseq" exactly for small n, "labseq-batched" exactly for medium n, "labseq-parallel-segmented" exactly for large n |
| UseCase.StrategyNamed | src/main/java/org/altice/labseq/infrastructure/LabseqStrategyFactory.java:32-38 | a name is found exactly when it is one of the registered names, and then the strategy carrying it; otherwise "Unknown strategy: " + name is thrown |
| UseCase.Calculate | src/main/java/org/altice/labseq/domain/CalculateLabseqUseCase.java:23-28 | returns exactly the answer of the strategy looked up under the selected name, keeps the table valid, keeps old entries, adds only indices in 4..n, leaves the table unchanged when it throws, and after an answer for n ≥ 0 holds n, so a repeated call is a cache hit |
| StrategyTests.EngineRepeatIsCacheHit | src/main/java/org/altice/labseq/domain/CalculateLabseqUseCase.java:23-28 | for any thresholds, valid table and n ≥ 0 with an answer, calling the engine twice gives the same answer and the second call leaves the table unchanged |
| UseCase.NamesIdentifyStrategies | src/main/java/org/altice/labseq/infrastructure/LabseqStrategyFactory.java:26-27 | two strategies have the same registered name only if they are the same strategy |
| UseCase.SelectionIsRegistered | src/main/java/org/altice/labseq/domain/CalculateLabseqUseCase.java:24-25 | the selected name is always registered, so the lookup never throws, and it yields the strategy of n's size class |
| UseCase.RangeMonotone | src/main/java/org/altice/labseq/domain/CalculateLabseqUseCase.java:38-42 | with ordered thresholds, a larger n never falls in a smaller size class |
| UseCase.ExpectedCases | src/main/java/org/altice/labseq/domain/CalculateLabseqUseCase.java:23-28 | for any thresholds: 0 ≤ n ≤ Integer.MAX_VALUE gives L(n); a negative n gives 0 in the small class and "n must be non-negative" otherwise; above Integer.MAX_VALUE the small class throws and the others give L(n) |
| UseCase.DefaultsNeverFail | src/main/java/org/altice/labseq/domain/CalculateLabseqUseCase.java:17-21 | with thresholds 1000 and 100 000, a negative n gives 0 and every other n gives L(n), with segmented blocks run one after another; the Java strategy as written fails for n needing two blocks (see Findings) |
| UseCase.Defaults | src/main/java/org/altice/labseq/domain/CalculateLabseqUseCase.java:17-21 | the default iterative threshold is 1000 and the default batched threshold is 100 000 |
| UseCase.StrategiesAgree | src/test/java/org/altice/labseq/controller/LabseqStrategyTest.java:50-62 | the three strategies answer the same L(n) for every 0 ≤ n ≤ Integer.MAX_VALUE, and the batched and segmented ones agree everywhere |
| StrategyTests.FreshTable | src/test/java/org/altice/labseq/controller/LabseqStrategyTest.java:18-25 | the fixture leaves a valid table holding exactly the base entries |
| StrategyTests.IterativeAtTen | src/test/java/org/altice/labseq/controller/LabseqStrategyTest.java:27-32 | iterative at 10 answers 3 |
| StrategyTests.BatchedAtTenThousand | src/test/java/org/altice/labseq/controller/LabseqStrategyTest.java:34-40 | batched at 10 000 answers a value, L(10 000) |
| StrategyTests.SegmentedAtHundredThousand | src/test/java/org/altice/labseq/controller/LabseqStrategyTest.java:42-48 | segmented at 100 000 answers a value, L(100 000) |
| StrategyTests.ConsistencyAtFiveThousand | src/test/java/org/altice/labseq/controller/LabseqStrategyTest.java:50-62 | on one shared table, iterative, batched and segmented at 5000 answer the same value, L(5000) |
| StrategyTests.RepeatIsCacheHit | src/main/java/org/altice/labseq/infrastructure/strategy/SegmentedLabseqStrategy.java:23 | from the initial table, asking the segmented strategy twice for 100 003 (one block) answers L(100 003) both times, and the second call leaves the table unchanged |

## Left out

- `ParallelLabseqStrategy` is not part of this model. Its whole content is
  fan-out to a thread pool, and it is never selected by the use case.
- The executor, `Future`s, waiting and shutdown of the segmented strategy
  are replaced by running each block to completion before the next seed is
  read. So "Block computation failed" (the wrapped exception from a failed
  block) is not modelled.
- Segmented.HandOffBeforeBlockRuns: covers only the schedule in which the
  submitted block has written nothing yet. Schedules where the block has
  written part of its values are not modelled.
- The strategy factory's CDI injection, reflection on `@Named`, proxy
  unwrapping and lowercasing are replaced by a closed enumeration of the
  three selectable strategies, each with its registered name.
  - Lowercasing changes none of those names at registration.
  - `getStrategy` also lowercases the name it is asked for, so in Java
    "LABSEQ-BATCHED" finds the batched strategy, while `UseCase.StrategyNamed`
    reports it as unknown. This does not affect the engine, because
    `UseCase.SelectStrategyName` only produces lowercase names.
  - `parallel-labseq` is not in the enumeration, so the model reports it as
    unknown.
- `LabseqHelper` is a wrapper over `computeIfAbsent` with no caller. It is
  not part of this model.
- The HTTP adapter, the exception mapper and the response DTO are not part
  of this model.
- Thread safety of `ConcurrentHashMap` is not modelled. Each strategy call
  runs on its own.
- The static table is passed explicitly as a `LabseqCache` object.
- Integer widths:
  - indices are unbounded `int` rather than `long`, so `long` overflow in
    `i - 4`, `block * BLOCK_SIZE` or `start + BLOCK_SIZE - 1` is not
    modelled;
  - `BigInteger` values are unbounded `int`;
  - the only width the model keeps is the iterative strategy's
    `Integer.MAX_VALUE` guard.
- Console output in the tests and the runtime's processor count (the pool
  size) are left out.

## Findings

| source | as written | input that shows it | evidently intended | confidence | as-written member | corrected member |
|---|---|---|---|---|---|---|
| src/main/java/org/altice/labseq/infrastructure/strategy/SegmentedLabseqStrategy.java:66-71 | the next block's seed is read from the table straight after the current block is submitted, while that block may not have written anything yet | initial table, n = 150 000: two blocks, and the seed read for block [100004, 150000] from [4, 100003] is four nulls, so the second block's first addition fails | read the seed once the block that produces it has finished (or compute it in the submitting thread), so that each block starts from L(start-4..start-1) | not executed; depends on thread scheduling | Segmented.RaceAtSecondBlock | Segmented.RunBlocks |
