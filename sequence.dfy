/**
 The labseq sequence itself, the shape of a well-formed memo table, and the
 facts every strategy relies on when it reads the table.
 */
module Sequence {

  /** The reference definition: L(0..3) = 0, 1, 0, 1 and L(n) = L(n-4) + L(n-3). */
  ghost function L(n: nat): nat
  {
    if n == 0 then 0
    else if n == 1 then 1
    else if n == 2 then 0
    else if n == 3 then 1
    else L(n - 4) + L(n - 3)
  }

  /**
   The invariant of the shared memo table: the base index 3 is present, every
   key is a non-negative index whose value is L(key), and the keys are closed
   downwards, so they form a contiguous prefix 0..k with k >= 3.
   */
  ghost predicate IsPrefixMemo(m: map<int, int>)
  {
    && 3 in m
    && (forall k :: k in m ==> 0 <= k)
    && (forall k {:trigger m[k]} :: k in m ==> 0 <= k && m[k] == L(k))
    && (forall k, j :: k in m && 0 <= j <= k ==> j in m)
  }

  /** The table holds exactly the indices 0..top, each with its value L. */
  ghost predicate Filled(m: map<int, int>, top: int)
  {
    && (forall k :: k in m <==> 0 <= k <= top)
    && (forall k {:trigger m[k]} :: 0 <= k <= top ==> m[k] == L(k))
  }

  /** The four entries the table is seeded with. */
  function BaseEntries(): map<int, int>
  {
    map[0 := 0, 1 := 1, 2 := 0, 3 := 1]
  }

  /** The seeded table holds exactly the indices 0..3, so its largest key is 3, and it is well formed. */
  lemma BaseEntriesShape()
    ensures BaseEntries().Keys == {0, 1, 2, 3}
    ensures forall k :: k in BaseEntries() <==> 0 <= k <= 3
    ensures IsPrefixMemo(BaseEntries())
  {
  }

  /** A well-formed table whose largest key is `top` holds exactly 0..top, and top is at least 3. */
  lemma PrefixKeys(m: map<int, int>, top: int)
    requires IsPrefixMemo(m)
    requires top in m && forall k :: k in m ==> k <= top
    ensures 3 <= top
    ensures Filled(m, top)
  {
    forall k | 0 <= k <= top
      ensures k in m
    {
      assert top in m;
    }
  }

  /** Conversely, a table over exactly 0..top (top >= 3) whose values are L is well formed. */
  lemma PrefixFromInterval(m: map<int, int>, top: int)
    requires 3 <= top && Filled(m, top)
    ensures IsPrefixMemo(m)
  {
  }

  /**
   In a well-formed table that reaches i-1, the two entries one step of the
   recurrence reads are present and their sum is L(i).
   */
  lemma RecurrenceStep(m: map<int, int>, i: int)
    requires IsPrefixMemo(m)
    requires 4 <= i && i - 1 in m
    ensures i - 4 in m && i - 3 in m
    ensures m[i - 4] + m[i - 3] == L(i)
  {
  }

  /** Writing L(i) at an index whose predecessors are all present keeps the table well formed. */
  lemma PutPreserves(m: map<int, int>, i: int)
    requires IsPrefixMemo(m)
    requires 0 <= i && forall j :: 0 <= j < i ==> j in m
    ensures IsPrefixMemo(m[i := L(i)])
    ensures (m[i := L(i)]).Keys == m.Keys + {i}
  {
  }

  /** The values the service's examples quote. */
  lemma ValueExamples()
    ensures L(0) == 0 && L(1) == 1 && L(2) == 0 && L(3) == 1
    ensures L(4) == 1 && L(7) == 2 && L(10) == 3
  {
  }
}
