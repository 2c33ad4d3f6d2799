/** The shared memo table every strategy reads and writes. */
module Memo {
  import opened Results
  import opened Sequence

  /** `Map.get`: the stored value, or None (Java's null) for a missing index. */
  function Lookup(m: map<int, int>, k: int): (r: Option<int>)
    ensures r.Some? <==> k in m
    ensures r.Some? ==> r.value == m[k]
  {
    if k in m then Some(m[k]) else None
  }

  /**
   The process-wide table from index to value. It starts with the four base
   values, and every strategy keeps it a contiguous prefix of the sequence.
   */
  class LabseqCache {
    var entries: map<int, int>

    ghost predicate Valid()
      reads this
    {
      IsPrefixMemo(entries)
    }

    /** The static initializer: an empty map followed by the four base puts. */
    constructor ()
      ensures entries == BaseEntries()
      ensures Valid()
    {
      var m: map<int, int> := map[];
      m := m[0 := 0];
      m := m[1 := 1];
      m := m[2 := 0];
      m := m[3 := 1];
      entries := m;
      BaseEntriesShape();
    }

    /**
     The test fixture's reset, usable from any state: clear the map and put
     the four base values again, which gives back the initial table.
     */
    method Reset()
      modifies this
      ensures entries == BaseEntries()
      ensures Valid()
    {
      entries := map[];
      entries := entries[0 := 0];
      entries := entries[1 := 1];
      entries := entries[2 := 0];
      entries := entries[3 := 1];
      BaseEntriesShape();
    }
  }
}
