/**
 Splitting an index range into consecutive fixed-size blocks, as both the
 batched strategy (64 indices) and the segmented strategy (100 000 indices) do.
 */
module Blocks {

  /** The closed index range start..end. */
  datatype Block = Block(start: int, end: int)

  function Min(a: int, b: int): int
  {
    if a <= b then a else b
  }

  function Max(a: int, b: int): int
  {
    if a >= b then a else b
  }

  /** Index i lies in block b. */
  predicate InBlock(b: Block, i: int)
  {
    b.start <= i <= b.end
  }

  /** Index i lies in some block of c. */
  ghost predicate Covered(c: seq<Block>, i: int)
  {
    exists k :: 0 <= k < |c| && InBlock(c[k], i)
  }

  /**
   The blocks [lo, min(lo+size-1, hi)], [lo+size, min(lo+2*size-1, hi)], ...
   that a loop stepping from lo by size while the start stays <= hi visits.
   */
  ghost function Chunks(lo: int, hi: int, size: int): (c: seq<Block>)
    requires 1 <= size
    ensures |c| == 0 <==> lo > hi
    ensures forall k :: 0 <= k < |c| ==> lo <= c[k].start <= c[k].end <= hi
    decreases hi - lo + 1
  {
    if lo > hi then [] else [Block(lo, Min(lo + size - 1, hi))] + Chunks(lo + size, hi, size)
  }

  /**
   `c` tiles lo..hi: empty exactly when the range is, starting at lo, ending
   at hi, each block a non-empty part of lo..hi, and each block starting right after the
   previous one ends.
   */
  ghost predicate Tiles(c: seq<Block>, lo: int, hi: int)
  {
    && (|c| == 0 <==> lo > hi)
    && (|c| > 0 ==> c[0].start == lo && c[|c| - 1].end == hi)
    && (forall k :: 0 <= k < |c| ==> lo <= c[k].start <= c[k].end <= hi)
    && (forall k :: 0 <= k < |c| - 1 ==> c[k].end + 1 == c[k + 1].start)
  }

  /** Every block of c but the last holds exactly `size` indices. */
  ghost predicate FullBlocks(c: seq<Block>, size: int)
  {
    forall k :: 0 <= k < |c| - 1 ==> c[k].end - c[k].start + 1 == size
  }

  /** The chunks tile lo..hi, and every block but the last holds exactly `size` indices. */
  lemma {:induction false} ChunksTile(lo: int, hi: int, size: int)
    requires 1 <= size
    ensures Tiles(Chunks(lo, hi, size), lo, hi)
    ensures FullBlocks(Chunks(lo, hi, size), size)
    decreases hi - lo + 1
  {
    if lo <= hi {
      var c := Chunks(lo, hi, size);
      var rest := Chunks(lo + size, hi, size);
      ChunksTile(lo + size, hi, size);
      assert c == [Block(lo, Min(lo + size - 1, hi))] + rest;
      assert forall k :: 1 <= k < |c| ==> c[k] == rest[k - 1];
      if rest != [] {
        assert lo + size <= hi;
        assert c[0].end - c[0].start + 1 == size;
        forall k | 1 <= k < |c| - 1
          ensures c[k].end - c[k].start + 1 == size
        {
          assert c[k] == rest[k - 1];
          assert k - 1 < |rest| - 1;
        }
      }
    }
  }

  /**
   What a loop over the chunks needs at chunk k: the chunk is non-empty; a
   chunk that has a successor is full and is followed right after its end;
   the last chunk ends at hi.
   */
  lemma ChunkStep(lo: int, hi: int, size: int, k: int)
    requires 1 <= size && 0 <= k < |Chunks(lo, hi, size)|
    ensures var c := Chunks(lo, hi, size);
      && c[k].start <= c[k].end
      && (k + 1 < |c| ==> c[k].end - c[k].start + 1 == size && c[k + 1].start == c[k].end + 1)
      && (k + 1 == |c| ==> c[k].end == hi)
  {
    ChunksTile(lo, hi, size);
  }

  /**
   The number of chunks is the ceiling of the range length over `size`:
   |c| * size covers the range and (|c| - 1) * size falls short of it.
   */
  lemma {:induction false} ChunksCount(lo: int, hi: int, size: int)
    requires 1 <= size && lo <= hi + 1
    ensures var c := Chunks(lo, hi, size);
      (|c| - 1) * size < hi - lo + 1 <= |c| * size
    decreases hi - lo + 1
  {
    if lo <= hi {
      var c := Chunks(lo, hi, size);
      var rest := Chunks(lo + size, hi, size);
      if lo + size <= hi + 1 {
        ChunksCount(lo + size, hi, size);
        assert |c| == |rest| + 1;
        assert |c| * size == |rest| * size + size;
      } else {
        assert rest == [];
      }
    }
  }

  /** The k-th chunk starts at lo + k*size and ends size-1 later, or at hi if that comes first. */
  lemma {:induction false} ChunkAt(lo: int, hi: int, size: int, k: int)
    requires 1 <= size && 0 <= k < |Chunks(lo, hi, size)|
    ensures Chunks(lo, hi, size)[k] == Block(lo + k * size, Min(lo + k * size + size - 1, hi))
    decreases k
  {
    if k > 0 {
      ChunkAt(lo + size, hi, size, k - 1);
      assert lo + size + (k - 1) * size == lo + k * size;
    }
  }

  /** In blocks that tile a range, an earlier block ends before a later one starts. */
  lemma {:induction false} TilesOrdered(c: seq<Block>, lo: int, hi: int, j: int, k: int)
    requires Tiles(c, lo, hi)
    requires 0 <= j < k < |c|
    ensures c[j].end < c[k].start
    decreases k - j
  {
    if j + 1 < k {
      TilesOrdered(c, lo, hi, j, k - 1);
    }
  }

  /**
   Blocks that tile lo..hi partition it in increasing order: an index lies in
   some block exactly when it is in lo..hi, and an earlier block ends before a
   later one starts, so no index lies in two blocks.
   */
  lemma {:induction false} TilesPartition(c: seq<Block>, lo: int, hi: int)
    requires Tiles(c, lo, hi)
    ensures forall i :: lo <= i <= hi <==> Covered(c, i)
    ensures forall j, k :: 0 <= j < k < |c| ==> c[j].end < c[k].start
    decreases |c|
  {
    if |c| > 1 {
      var rest := c[1..];
      forall j, k | 0 <= j < k < |c|
        ensures c[j].end < c[k].start
      {
        TilesOrdered(c, lo, hi, j, k);
      }
      assert Tiles(rest, c[0].end + 1, hi) by {
        assert forall k :: 0 <= k < |rest| ==> rest[k] == c[k + 1];
      }
      TilesPartition(rest, c[0].end + 1, hi);
      forall i | lo <= i <= hi
        ensures Covered(c, i)
      {
        if i > c[0].end {
          assert Covered(rest, i);
          var k' :| 0 <= k' < |rest| && InBlock(rest[k'], i);
          assert c[k' + 1] == rest[k'];
        } else {
          assert InBlock(c[0], i);
        }
      }
      forall i | Covered(c, i)
        ensures lo <= i <= hi
      {
        var k :| 0 <= k < |c| && InBlock(c[k], i);
        if k > 0 {
          assert rest[k - 1] == c[k];
          assert Covered(rest, i);
        }
      }
    }
  }
}
