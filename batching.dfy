/** The chunks in which the import walks the table: the starts that
    `range(0, total, size)` visits, each paired with the end
    `min(start + size, total)` of its slice (app.py:17-19). */
module Batching {

  /** The half-open row range [start, stop) of one chunk. */
  datatype Chunk = Chunk(start: nat, stop: nat)

  function Min(a: nat, b: nat): (m: nat)
    ensures m <= a && m <= b && (m == a || m == b)
  {
    if a <= b then a else b
  }

  /** The chunks visited from `start` on: none once `start` reaches the
      end, and never more chunks than rows left. */
  function ChunksFrom(start: nat, total: nat, size: nat): (cs: seq<Chunk>)
    requires size > 0
    ensures cs == [] <==> start >= total
    ensures start <= total ==> |cs| <= total - start
    decreases total - start
  {
    if start >= total then []
    else [Chunk(start, Min(start + size, total))] + ChunksFrom(start + size, total, size)
  }

  /** All chunks of a table of `total` rows in chunks of `size` rows:
      none for an empty table, and never more chunks than rows. */
  function Chunks(total: nat, size: nat): (cs: seq<Chunk>)
    requires size > 0
    ensures cs == [] <==> total == 0
    ensures |cs| <= total
  {
    ChunksFrom(0, total, size)
  }

  /** The row indices lo, lo+1, ..., hi-1. */
  function Range(lo: nat, hi: nat): (r: seq<nat>)
    ensures |r| == if lo <= hi then hi - lo else 0
    ensures forall k :: 0 <= k < |r| ==> r[k] == lo + k
  {
    if lo >= hi then [] else seq(hi - lo, k requires 0 <= k < hi - lo => lo + k)
  }

  /** The row indices of the chunks, one chunk after the other. */
  function Flatten(chunks: seq<Chunk>): seq<nat>
  {
    if chunks == [] then [] else Range(chunks[0].start, chunks[0].stop) + Flatten(chunks[1..])
  }

  lemma RangeSplit(lo: nat, mid: nat, hi: nat)
    requires lo <= mid <= hi
    ensures Range(lo, mid) + Range(mid, hi) == Range(lo, hi)
  {
  }

  /** From `start` on there are as many chunks as it takes `size`-row
      steps to get from `start` past the end: the ceiling of
      (total - start) / size. */
  lemma {:induction false} ChunksFromCount(start: nat, total: nat, size: nat)
    requires size > 0
    ensures start >= total ==> |ChunksFrom(start, total, size)| == 0
    ensures start < total ==>
              && start + (|ChunksFrom(start, total, size)| - 1) * size < total
              && total <= start + |ChunksFrom(start, total, size)| * size
    decreases total - start
  {
    if start < total {
      var m := |ChunksFrom(start + size, total, size)|;
      ChunksFromCount(start + size, total, size);
      assert |ChunksFrom(start, total, size)| == m + 1;
      assert (m + 1) * size == m * size + size;
      if m > 0 {
        assert (m - 1) * size + size == m * size;
      }
    }
  }

  /** The k-th chunk from `start` begins k chunk lengths after `start` and
      ends a chunk length later, or at the end of the table. */
  lemma {:induction false} ChunksFromAt(start: nat, total: nat, size: nat, k: nat)
    requires size > 0
    requires k < |ChunksFrom(start, total, size)|
    ensures ChunksFrom(start, total, size)[k]
            == Chunk(start + k * size, Min(start + k * size + size, total))
    ensures start + k * size < total
    decreases total - start
  {
    if k > 0 {
      ChunksFromAt(start + size, total, size, k - 1);
      assert start + size + (k - 1) * size == start + k * size;
    }
  }

  /** The chunks from `start` on visit every row from `start` to the end,
      once each and in order. */
  lemma {:induction false} ChunksFromCover(start: nat, total: nat, size: nat)
    requires size > 0
    ensures Flatten(ChunksFrom(start, total, size)) == Range(start, total)
    decreases total - start
  {
    if start < total {
      var c := ChunksFrom(start, total, size);
      var stop := Min(start + size, total);
      assert c[0] == Chunk(start, stop) && c[1..] == ChunksFrom(start + size, total, size);
      ChunksFromCover(start + size, total, size);
      if start + size < total {
        RangeSplit(start, stop, total);
      } else {
        assert Range(start + size, total) == [];
      }
    }
  }

  /** ceil(total / size) chunks: the fewest chunks of `size` rows that
      hold `total` rows. With no rows there are none. */
  lemma ChunkCount(total: nat, size: nat)
    requires size > 0
    ensures total == 0 <==> Chunks(total, size) == []
    ensures total > 0 ==> && (|Chunks(total, size)| - 1) * size < total
                          && total <= |Chunks(total, size)| * size
  {
    ChunksFromCount(0, total, size);
  }

  /** Chunk k starts at k * size; every chunk is non-empty and at most
      `size` rows long; each ends where the next begins; all but the last
      are exactly `size` rows and the last ends at `total`. */
  lemma ChunkShape(total: nat, size: nat, k: nat)
    requires size > 0
    requires k < |Chunks(total, size)|
    ensures Chunks(total, size)[k].start == k * size
    ensures Chunks(total, size)[k].start < Chunks(total, size)[k].stop <= Chunks(total, size)[k].start + size
    ensures k + 1 < |Chunks(total, size)| ==>
              && Chunks(total, size)[k].stop == Chunks(total, size)[k + 1].start
              && Chunks(total, size)[k].stop - Chunks(total, size)[k].start == size
    ensures k + 1 == |Chunks(total, size)| ==> Chunks(total, size)[k].stop == total
  {
    ChunksFromAt(0, total, size, k);
    if k + 1 < |Chunks(total, size)| {
      ChunksFromAt(0, total, size, k + 1);
      assert (k + 1) * size == k * size + size;
    } else {
      ChunksFromCount(0, total, size);
      assert (k + 1) * size == k * size + size;
    }
  }

  /** Together the chunks cover rows 0 .. total-1 exactly once, in order. */
  lemma ChunksPartition(total: nat, size: nat)
    requires size > 0
    ensures Flatten(Chunks(total, size)) == Range(0, total)
  {
    ChunksFromCover(0, total, size);
  }

  /** Moving the start of the chunk walk past one chunk moves that chunk to
      the visited ones. */
  lemma ChunksFromStep(visited: seq<Chunk>, start: nat, total: nat, size: nat)
    requires size > 0 && start < total
    ensures visited + ChunksFrom(start, total, size)
            == (visited + [Chunk(start, Min(start + size, total))]) + ChunksFrom(start + size, total, size)
  {
  }

  /** Example: 23 rows in chunks of 10 are rows 0-9, 10-19 and 20-22. */
  lemma TwentyThreeRowsExample()
    ensures Chunks(23, 10) == [Chunk(0, 10), Chunk(10, 20), Chunk(20, 23)]
  {
  }
}
