/** `ParallelSumDemo`: the sum 1 + 2 + ... + n split into `numThreads`
    contiguous chunks, each summed by its own loop, the partial sums then
    added into one total. The threads run one after another here; adding
    the partial sums in any order gives the same total. */
module ParallelSum {
  import opened Arithmetic

  /** The sum start + (start + 1) + ... + end, zero when the range is empty. */
  function RangeSum(start: int, end: int): int
    decreases end - start
  {
    if end < start then 0 else RangeSum(start, end - 1) + end
  }

  /** A range sum splits at any point inside the range. */
  lemma {:induction false} RangeSumSplit(start: int, middle: int, end: int)
    requires start <= middle + 1 <= end + 1
    ensures RangeSum(start, end) == RangeSum(start, middle) + RangeSum(middle + 1, end)
    decreases end - middle
  {
    if end > middle {
      RangeSumSplit(start, middle, end - 1);
    }
  }

  /** Gauss's formula: 1 + 2 + ... + m == m(m + 1)/2. */
  lemma {:induction false} RangeSumClosedForm(m: nat)
    ensures RangeSum(1, m) == m * (m + 1) / 2
  {
    if m > 0 {
      RangeSumClosedForm(m - 1);
      assert m * (m + 1) == (m - 1) * m + 2 * m;
    }
  }

  /** The first number of chunk `i`: `i * (n / numThreads) + 1`. */
  function ChunkStart(i: int, n: int, numThreads: int): int
    requires numThreads >= 1
  {
    i * (n / numThreads) + 1
  }

  /** The last number of chunk `i`: `n` for the last chunk, `(i + 1) * (n / numThreads)` otherwise. */
  function ChunkEnd(i: int, n: int, numThreads: int): int
    requires numThreads >= 1
  {
    if i == numThreads - 1 then n else (i + 1) * (n / numThreads)
  }

  /** The chunks tile 1..n: the first starts at 1, the last ends at `n`, each
      starts right after the previous one ends, every chunk but the last
      holds `n / numThreads` numbers and the last holds the rest. */
  lemma ChunksTile(n: nat, numThreads: nat)
    requires numThreads >= 1
    ensures ChunkStart(0, n, numThreads) == 1
    ensures ChunkEnd(numThreads - 1, n, numThreads) == n
    ensures forall i :: 0 <= i < numThreads - 1 ==>
              ChunkEnd(i, n, numThreads) + 1 == ChunkStart(i + 1, n, numThreads)
    ensures forall i :: 0 <= i < numThreads - 1 ==>
              ChunkEnd(i, n, numThreads) - ChunkStart(i, n, numThreads) + 1 == n / numThreads
    ensures ChunkEnd(numThreads - 1, n, numThreads) - ChunkStart(numThreads - 1, n, numThreads) + 1
            == n - (numThreads - 1) * (n / numThreads) >= n / numThreads
  {
    var q := n / numThreads;
    assert numThreads * q <= n;
    assert (numThreads - 1) * q + q == numThreads * q;
  }

  /** `x` is one of the numbers chunk `i` sums. */
  predicate InChunk(x: int, i: int, n: int, numThreads: int)
    requires numThreads >= 1
  {
    ChunkStart(i, n, numThreads) <= x <= ChunkEnd(i, n, numThreads)
  }

  /** Later chunks lie wholly after earlier ones. */
  lemma ChunkOrder(n: nat, numThreads: nat, i: int, j: int)
    requires numThreads >= 1 && 0 <= i < j < numThreads
    ensures ChunkEnd(i, n, numThreads) < ChunkStart(j, n, numThreads)
  {
    MultiplyMonotone(i + 1, j, n / numThreads);
  }

  /** Every number a chunk sums lies in 1..n. */
  lemma ChunksWithinRange(n: nat, numThreads: nat)
    requires numThreads >= 1
    ensures forall i, x :: 0 <= i < numThreads && InChunk(x, i, n, numThreads) ==> 1 <= x <= n
  {
    ChunksTile(n, numThreads);
    forall i, x | 0 <= i < numThreads && InChunk(x, i, n, numThreads)
      ensures 1 <= x <= n
    {
      MultiplyMonotone(0, i, n / numThreads);
      if i < numThreads - 1 {
        ChunkOrder(n, numThreads, i, numThreads - 1);
      }
    }
  }

  /** No number is summed by two chunks. */
  lemma ChunksDisjoint(n: nat, numThreads: nat)
    requires numThreads >= 1
    ensures forall i, j, x :: 0 <= i < j < numThreads && InChunk(x, i, n, numThreads) ==> !InChunk(x, j, n, numThreads)
  {
    forall i, j, x | 0 <= i < j < numThreads && InChunk(x, i, n, numThreads)
      ensures !InChunk(x, j, n, numThreads)
    {
      ChunkOrder(n, numThreads, i, j);
    }
  }

  /** The chunk holding `x`, searched among the first `chunks` chunks. */
  lemma {:induction false} CoveredBy(n: nat, numThreads: nat, chunks: nat, x: int) returns (i: nat)
    requires numThreads >= 1 && 1 <= chunks <= numThreads
    requires 1 <= x <= ChunkEnd(chunks - 1, n, numThreads)
    ensures i < chunks && InChunk(x, i, n, numThreads)
  {
    ChunksTile(n, numThreads);
    if chunks == 1 || x >= ChunkStart(chunks - 1, n, numThreads) {
      i := chunks - 1;
    } else {
      assert ChunkEnd(chunks - 2, n, numThreads) + 1 == ChunkStart(chunks - 1, n, numThreads);
      i := CoveredBy(n, numThreads, chunks - 1, x);
    }
  }

  /** Some chunk sums `x`. */
  predicate Covered(x: int, n: int, numThreads: int)
    requires numThreads >= 1
  {
    exists i :: 0 <= i < numThreads && InChunk(x, i, n, numThreads)
  }

  /** Every number of 1..n is summed by some chunk. */
  lemma ChunksCover(n: nat, numThreads: nat)
    requires numThreads >= 1
    ensures forall x :: 1 <= x <= n ==> Covered(x, n, numThreads)
  {
    ChunksTile(n, numThreads);
    forall x | 1 <= x <= n
      ensures Covered(x, n, numThreads)
    {
      var i := CoveredBy(n, numThreads, numThreads, x);
    }
  }

  /** One worker: `for (long j = start; j <= end; j++) partialSum += j;`. */
  method PartialSum(start: int, end: int) returns (partialSum: int)
    ensures partialSum == RangeSum(start, end)
  {
    partialSum := 0;
    var j := start;
    while j <= end
      invariant start <= j && (j <= end + 1 || j == start)
      invariant partialSum == RangeSum(start, j - 1)
      decreases end - j
    {
      partialSum := partialSum + j;
      j := j + 1;
    }
  }

  /** The whole computation: chunk bounds, one partial sum per chunk, and
      their total, which equals the expected `n * (n + 1) / 2`. */
  method ParallelSum(n: nat, numThreads: nat) returns (totalSum: int)
    requires numThreads >= 1
    ensures totalSum == n * (n + 1) / 2
  {
    ChunksTile(n, numThreads);
    totalSum := 0;
    for i := 0 to numThreads
      invariant totalSum == RangeSum(1, if i == 0 then 0 else ChunkEnd(i - 1, n, numThreads))
    {
      var start := ChunkStart(i, n, numThreads);
      var end := if i == numThreads - 1 then n else (i + 1) * (n / numThreads);
      var partialSum := PartialSum(start, end);
      MultiplyMonotone(0, i, n / numThreads);
      RangeSumSplit(1, start - 1, end);
      totalSum := totalSum + partialSum;
    }
    RangeSumClosedForm(n);
  }
}
