/** The direct sequential strategy, used for small indices. */
module Iterative {
  import opened Results
  import opened Sequence
  import opened Memo

  /** The strategy's registered name. */
  const Name: string := "iterative-labseq"

  /** Integer.MAX_VALUE, the largest index this strategy accepts. */
  const IntMax: int := 0x7fff_ffff

  /** What the strategy answers: 0 for a negative index, an exception above IntMax, L(n) otherwise. */
  ghost function Outcome(n: int): Result<int>
  {
    if n < 0 then Ok(0)
    else if n > IntMax then Err(IllegalArgument("Iterative strategy supports up to Integer.MAX_VALUE"))
    else Ok(L(n))
  }

  /**
   A negative index answers 0 and a too-large one throws, both without
   touching the table; a cached index is answered from the table; otherwise
   the loop fills 4..n in order, always restarting at 4, so indices already
   cached are rewritten with the value they hold and nothing above n changes.
   */
  method Calculate(cache: LabseqCache, n: int) returns (r: Result<int>)
    requires cache.Valid()
    modifies cache
    ensures cache.Valid()
    ensures r == Outcome(n)
    ensures n < 0 || n > IntMax || n in old(cache.entries) ==> cache.entries == old(cache.entries)
    ensures 0 <= n <= IntMax ==>
      forall k :: k in cache.entries <==> k in old(cache.entries) || 4 <= k <= n
    ensures forall k :: k in old(cache.entries) ==>
      k in cache.entries && cache.entries[k] == old(cache.entries)[k]
  {
    if n < 0 {
      return Ok(0);
    }
    if n > IntMax {
      return Err(IllegalArgument("Iterative strategy supports up to Integer.MAX_VALUE"));
    }
    if n in cache.entries {
      return Ok(cache.entries[n]);
    }
    var last := 3;
    var i := last + 1;
    while i <= n
      invariant 4 <= i <= n + 1
      invariant IsPrefixMemo(cache.entries)
      invariant forall k :: k in cache.entries <==> k in old(cache.entries) || 4 <= k < i
    {
      RecurrenceStep(cache.entries, i);
      var a := cache.entries[i - 4];
      var b := cache.entries[i - 3];
      var value := a + b;
      PutPreserves(cache.entries, i);
      cache.entries := cache.entries[i := value];
      i := i + 1;
    }
    r := Ok(cache.entries[n]);
  }
}
