/**
 The entry point of the engine: a pure rule that picks a strategy by the size
 of the index, the name under which each strategy is registered, and the call
 that delegates to the chosen one.
 */
module UseCase {
  import opened Results
  import opened Sequence
  import opened Memo
  import Iterative
  import Batched
  import Segmented

  /** The size class of an index. */
  datatype Range = Small | Medium | Large
  {
    /** The order of the size classes. */
    function Rank(): nat
    {
      match this
      case Small => 0
      case Medium => 1
      case Large => 2
    }
  }

  /** The two configured thresholds. */
  datatype Thresholds = Thresholds(iterative: int, batched: int)

  /** The thresholds used when none is configured. */
  const Defaults: Thresholds := Thresholds(1000, 100_000)

  /** The strategies the selection can name. */
  datatype Strategy = IterativeLabseq | BatchedLabseq | SegmentedLabseq
  {
    /** The name the strategy is registered under. */
    function Name(): string
    {
      match this
      case IterativeLabseq => Iterative.Name
      case BatchedLabseq => Batched.Name
      case SegmentedLabseq => Segmented.Name
    }

    /** What the strategy answers for n, from a valid table. */
    ghost function Answer(n: int): Result<int>
    {
      match this
      case IterativeLabseq => Iterative.Outcome(n)
      case BatchedLabseq => Batched.Outcome(n)
      case SegmentedLabseq => Segmented.Outcome(n)
    }
  }

  /**
   The size class of n: small up to the iterative threshold, medium up to the
   batched one, large above both. Each class is characterised on its own.
   */
  function GetRange(t: Thresholds, n: int): (r: Range)
    ensures r == Small <==> n <= t.iterative
    ensures r == Medium <==> t.iterative < n <= t.batched
    ensures r == Large <==> t.iterative < n && t.batched < n
  {
    if n <= t.iterative then Small
    else if n <= t.batched then Medium
    else Large
  }

  /** The strategy that handles each size class. */
  function StrategyFor(r: Range): (s: Strategy)
    ensures s.Name() == Iterative.Name <==> r == Small
    ensures s.Name() == Batched.Name <==> r == Medium
    ensures s.Name() == Segmented.Name <==> r == Large
  {
    match r
    case Small => IterativeLabseq
    case Medium => BatchedLabseq
    case Large => SegmentedLabseq
  }

  /**
   The name of the strategy for n: the iterative strategy's exactly when n is
   at most the iterative threshold, the batched one's exactly when n lies
   between the thresholds, the segmented one's exactly when n exceeds both.
   */
  function SelectStrategyName(t: Thresholds, n: int): (name: string)
    ensures name == Iterative.Name <==> n <= t.iterative
    ensures name == Batched.Name <==> t.iterative < n <= t.batched
    ensures name == Segmented.Name <==> t.iterative < n && t.batched < n
  {
    match GetRange(t, n)
    case Small => "iterative-labseq"
    case Medium => "labseq-batched"
    case Large => "labseq-parallel-segmented"
  }

  /**
   The strategy registered under a name, or the exception for an unknown
   name. A name is found exactly when it is one of the three registered names.
   */
  function StrategyNamed(name: string): (r: Result<Strategy>)
    ensures r.Ok? <==> name == Iterative.Name || name == Batched.Name || name == Segmented.Name
    ensures r.Ok? ==> r.value.Name() == name
    ensures r.Err? ==> r == Err(IllegalArgument("Unknown strategy: " + name))
  {
    if name == Iterative.Name then Ok(IterativeLabseq)
    else if name == Batched.Name then Ok(BatchedLabseq)
    else if name == Segmented.Name then Ok(SegmentedLabseq)
    else
      Err(IllegalArgument("Unknown strategy: " + name))
  }

  /** What the engine answers for n: the chosen strategy's answer, or the lookup's exception. */
  ghost function Expected(t: Thresholds, n: int): Result<int>
  {
    match StrategyNamed(SelectStrategyName(t, n))
    case Ok(s) => s.Answer(n)
    case Err(e) => Err(e)
  }

  /**
   calculate: select a name, look the strategy up, and return exactly what it
   computes. The table stays valid, old entries keep their values, every
   added index lies in 4..n, an exception leaves the table as it was, and
   after an answer for n >= 0 the table holds n, so asking again is a cache
   hit.
   */
  method Calculate(t: Thresholds, cache: LabseqCache, n: int) returns (r: Result<int>)
    requires cache.Valid()
    modifies cache
    ensures cache.Valid()
    ensures r == Expected(t, n)
    ensures forall k :: k in old(cache.entries) ==>
      k in cache.entries && cache.entries[k] == old(cache.entries)[k]
    ensures forall k :: k in cache.entries && k !in old(cache.entries) ==> 4 <= k <= n
    ensures 0 <= n && r.Ok? ==> n in cache.entries
    ensures r.Err? ==> cache.entries == old(cache.entries)
  {
    var name := SelectStrategyName(t, n);
    var found := StrategyNamed(name);
    match found
    case Err(e) =>
      r := Err(e);
    case Ok(IterativeLabseq) =>
      r := Iterative.Calculate(cache, n);
    case Ok(BatchedLabseq) =>
      ghost var batches;
      r, batches := Batched.Calculate(cache, n);
    case Ok(SegmentedLabseq) =>
      ghost var first, blocks;
      r, first, blocks := Segmented.Calculate(cache, n);
  }

  /** The three registered names are pairwise different, so a name identifies its strategy. */
  lemma NamesIdentifyStrategies(s: Strategy, u: Strategy)
    ensures s.Name() == u.Name() <==> s == u
  {
  }

  /** The selected name is always registered, and it names the strategy of n's size class. */
  lemma SelectionIsRegistered(t: Thresholds, n: int)
    ensures StrategyNamed(SelectStrategyName(t, n)) == Ok(StrategyFor(GetRange(t, n)))
    ensures Expected(t, n) == StrategyFor(GetRange(t, n)).Answer(n)
  {
  }

  /** With the iterative threshold not above the batched one, a larger index never gets a smaller size class. */
  lemma RangeMonotone(t: Thresholds, n: int, m: int)
    requires t.iterative <= t.batched
    requires n <= m
    ensures GetRange(t, n).Rank() <= GetRange(t, m).Rank()
  {
  }

  /**
   Whatever the thresholds, an index in 0..Integer.MAX_VALUE gets L(n); a
   negative index gets 0 when it falls in the small class and the batched and
   segmented exception otherwise; above Integer.MAX_VALUE only the small
   class fails.
   */
  lemma ExpectedCases(t: Thresholds, n: int)
    ensures 0 <= n <= Iterative.IntMax ==> Expected(t, n) == Ok(L(n))
    ensures n < 0 && n <= t.iterative ==> Expected(t, n) == Ok(0)
    ensures n < 0 && t.iterative < n ==> Expected(t, n) == Err(IllegalArgument("n must be non-negative"))
    ensures Iterative.IntMax < n && n <= t.iterative ==>
      Expected(t, n) == Err(IllegalArgument("Iterative strategy supports up to Integer.MAX_VALUE"))
    ensures Iterative.IntMax < n && t.iterative < n ==> Expected(t, n) == Ok(L(n))
  {
    SelectionIsRegistered(t, n);
  }

  /**
   With the default thresholds the modelled engine never fails: a negative
   index falls in the small class and gets 0, every other index gets L(n).
   This rests on each segmented block finishing before the next block's seed
   is read; the Java strategy reads that seed while the block may still be
   running (see Segmented.HandOffBeforeBlockRuns), and then fails with "Block
   computation failed" for a large index that needs two blocks, such as
   150 000 from the initial table.
   */
  lemma DefaultsNeverFail(n: int)
    ensures n < 0 ==> Expected(Defaults, n) == Ok(0)
    ensures 0 <= n ==> Expected(Defaults, n) == Ok(L(n))
  {
    ExpectedCases(Defaults, n);
  }

  /**
   The three strategies agree on every index the iterative one accepts, and
   the two throwing strategies agree everywhere.
   */
  lemma StrategiesAgree(n: int)
    ensures 0 <= n <= Iterative.IntMax ==>
      Iterative.Outcome(n) == Batched.Outcome(n) == Segmented.Outcome(n) == Ok(L(n))
    ensures Batched.Outcome(n) == Segmented.Outcome(n)
  {
  }
}
