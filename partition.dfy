/**
 * The partition of the N samples into T blocks, one per thread, as the loop
 * in `DoExecute` steps its `input_start`/`output_start` iterators.
 *
 * `block_size = N / T` (replaced by N when T >= N) and `remainder = N % T`
 * are `size_t`; every block advances `block_size` positions, and the last
 * one further advances by `remainder - 1`. That subtraction wraps in
 * `size_t` when the remainder is 0 and the wrapped value is converted back
 * to the iterator's signed difference type, so the advance is exactly
 * `remainder - 1` in every case: the last block always ends one sample
 * short of N.
 *
 * Iterator positions are integers here; a position outside [0, N] is one
 * the C++ iterators cannot legally reach (`InBounds` says when the
 * positions stay inside).
 */
module Partition {
  import opened ThreadCount

  /** Values of `size_t` are 0 .. SizeRange - 1. */
  const SizeRange: int := 0x1_0000_0000_0000_0000

  /** Values of `ptrdiff_t` are -PtrdiffHalfRange .. PtrdiffHalfRange - 1. */
  const PtrdiffHalfRange: int := 0x8000_0000_0000_0000

  /** One thread's work: read samples [first, last), write results from `offset` on. */
  datatype Block = Block(first: int, last: int, offset: int)

  /** The block reads sample `j`. */
  predicate Covers(b: Block, j: int)
  {
    b.first <= j < b.last
  }

  /** The block writes result slot `j`. */
  predicate Writes(b: Block, j: int)
  {
    b.offset <= j < b.offset + (b.last - b.first)
  }

  /** The block reads inside `samples` samples and writes inside `slots` slots. */
  predicate Fits(b: Block, samples: nat, slots: nat)
  {
    0 <= b.first <= b.last <= samples && 0 <= b.offset && b.offset + (b.last - b.first) <= slots
  }

  function Min(a: int, b: int): int
  {
    if a <= b then a else b
  }

  /** `block_size`: N / T, or N itself when T >= N. */
  function BlockSize(n: nat, t: nat): nat
    requires 1 <= t
  {
    var blockSize := n / t;
    if t >= n then n else blockSize
  }

  /** The conversion of a `size_t` value to `ptrdiff_t`. */
  function ToPtrdiff(u: nat): int
    requires u < SizeRange
  {
    if u < PtrdiffHalfRange then u else u - SizeRange
  }

  /** The last block's extra advance, `remainder - 1` computed in `size_t`: wrap and conversion cancel out. */
  function LastAdvance(n: nat, t: nat): (d: int)
    requires 1 <= t < UintRange && n < SizeRange
    ensures d == n % t - 1
  {
    ToPtrdiff((n % t - 1) % SizeRange)
  }

  /** Block `i` of `T` as the iterator loop produces it. */
  function BlockAt(n: nat, t: nat, i: nat): Block
    requires 1 <= t < UintRange && n < SizeRange && i < t
  {
    var blockSize := BlockSize(n, t);
    var start := i * blockSize;
    Block(start, start + blockSize + (if i == t - 1 then LastAdvance(n, t) else 0), start)
  }

  /** All `T` blocks, in thread order. */
  function Layout(n: nat, t: nat): (r: seq<Block>)
    requires 1 <= t < UintRange && n < SizeRange
    ensures |r| == t
  {
    seq(t, i requires 0 <= i < t => BlockAt(n, t, i))
  }

  /**
   * The partition loop: each thread's block starts where the previous one
   * ended; its end advances `block_size`, plus `remainder - 1` for the last
   * thread; the output iterator advances `block_size` per thread.
   */
  method PartitionBlocks(sampleCount: nat, numThreads: nat) returns (blocks: seq<Block>)
    requires 1 <= numThreads < UintRange && sampleCount < SizeRange
    ensures blocks == Layout(sampleCount, numThreads)
  {
    var blockSize := sampleCount / numThreads;
    var remainder := sampleCount % numThreads;
    if numThreads >= sampleCount {
      blockSize := sampleCount;
    }
    var inputStart, outputStart := 0, 0;
    blocks := [];
    for t := 0 to numThreads
      invariant |blocks| == t
      invariant t < numThreads ==> inputStart == outputStart == t * blockSize
      invariant forall i :: 0 <= i < t ==> blocks[i] == BlockAt(sampleCount, numThreads, i)
    {
      var inputEnd := inputStart + blockSize;
      if t == numThreads - 1 {
        inputEnd := inputEnd + ToPtrdiff((remainder - 1) % SizeRange);
      }
      blocks := blocks + [Block(inputStart, inputEnd, outputStart)];
      inputStart := inputEnd;
      outputStart := outputStart + blockSize;
      assert (t + 1) * blockSize == t * blockSize + blockSize;
    }
  }

  // ---------------------------------------------------------------------
  // Properties of the layout as written

  /** The inputs for which no iterator leaves the sample and result vectors. */
  predicate WellDefined(n: nat, t: nat)
  {
    (t == 1 && n >= 1) || (2 <= t < n)
  }

  /** Every block reads and writes inside vectors of length `n`. */
  predicate InBounds(blocks: seq<Block>, n: nat)
  {
    forall i :: 0 <= i < |blocks| ==> Fits(blocks[i], n, n)
  }

  lemma {:induction false} MulMono(a: int, c: int, b: int)
    requires a <= c && 0 <= b
    ensures a * b <= c * b
  {
  }

  lemma {:induction false} DivBounds(j: nat, b: nat)
    requires 1 <= b
    ensures (j / b) * b <= j < (j / b) * b + b
  {
  }

  /**
   * On the well-defined domain: block `i < T-1` is [i*b, (i+1)*b) with
   * b = N / T, the last block is [(T-1)*b, N-1), blocks are contiguous from
   * 0 and each writes where it reads.
   */
  lemma {:induction false} LayoutShape(n: nat, t: nat)
    requires 1 <= t < UintRange && n < SizeRange && WellDefined(n, t)
    ensures BlockSize(n, t) == n / t >= 1
    ensures forall i :: 0 <= i < t - 1 ==> Layout(n, t)[i] == Block(i * (n / t), (i + 1) * (n / t), i * (n / t))
    ensures Layout(n, t)[t - 1] == Block((t - 1) * (n / t), n - 1, (t - 1) * (n / t))
    ensures Layout(n, t)[0].first == 0
    ensures forall i :: 0 < i < t ==> Layout(n, t)[i].first == Layout(n, t)[i - 1].last
    ensures forall i :: 0 <= i < t ==> Layout(n, t)[i].offset == Layout(n, t)[i].first
  {
    var b := n / t;
    assert n == t * b + n % t;
    assert (t - 1) * b + b == t * b;
    forall i | 0 < i < t
      ensures Layout(n, t)[i].first == Layout(n, t)[i - 1].last
    {
      assert (i - 1) * b + b == i * b;
    }
  }

  /** The block that reads sample `j`, on the well-defined domain. */
  function Owner(n: nat, t: nat, j: nat): (i: nat)
    requires 1 <= t && WellDefined(n, t)
    ensures i < t
  {
    Min(j / (n / t), t - 1)
  }

  /**
   * On the well-defined domain the blocks are pairwise disjoint and in
   * order, and together they read exactly the samples [0, N-1): every
   * sample but the last is read by its owner block, and sample N-1 by none.
   */
  lemma {:induction false} LayoutCoverage(n: nat, t: nat)
    requires 1 <= t < UintRange && n < SizeRange && WellDefined(n, t)
    ensures InBounds(Layout(n, t), n)
    ensures forall i, i' :: 0 <= i < i' < t ==> Layout(n, t)[i].last <= Layout(n, t)[i'].first
    ensures forall i, j :: 0 <= i < t && Covers(Layout(n, t)[i], j) ==> 0 <= j < n - 1
    ensures forall j :: 0 <= j < n - 1 ==> Covers(Layout(n, t)[Owner(n, t, j)], j)
    ensures forall i :: 0 <= i < t ==> !Covers(Layout(n, t)[i], n - 1)
  {
    LayoutShape(n, t);
    var b := n / t;
    var l := Layout(n, t);
    forall i, i' | 0 <= i < i' < t
      ensures l[i].last <= l[i'].first
    {
      MulMono(i + 1, i', b);
    }
    forall i | 0 <= i < t
      ensures 0 <= l[i].first <= l[i].last <= n - 1
    {
      if i < t - 1 {
        MulMono(i + 1, t - 1, b);
      }
      MulMono(0, i, b);
    }
    forall j | 0 <= j < n - 1
      ensures Covers(l[Owner(n, t, j)], j)
    {
      DivBounds(j, b);
      var i := j / b;
      if i >= t - 1 {
        MulMono(t - 1, i, b);
      }
    }
  }

  /** The iterators stay inside the vectors exactly on the well-defined domain. */
  lemma {:induction false} InBoundsIffWellDefined(n: nat, t: nat)
    requires 1 <= t < UintRange && n < SizeRange
    ensures InBounds(Layout(n, t), n) <==> WellDefined(n, t)
  {
    if WellDefined(n, t) {
      LayoutCoverage(n, t);
    } else if n == 0 {
      assert Layout(n, t)[t - 1].last < Layout(n, t)[t - 1].first;
    } else {
      assert t >= 2 && t >= n && BlockSize(n, t) == n;
      assert Layout(n, t)[1].first == n;
      assert Layout(n, t)[1].last > n;
    }
  }

  /** Five samples on two threads: sample 4 is never read. */
  lemma {:induction false} FiveSamplesTwoThreads()
    ensures Layout(5, 2) == [Block(0, 2, 0), Block(2, 4, 2)]
    ensures forall i :: 0 <= i < 2 ==> !Covers(Layout(5, 2)[i], 4)
  {
  }

  /** Two samples on two threads: the second block reads past the end. */
  lemma {:induction false} TwoSamplesTwoThreads()
    ensures Layout(2, 2) == [Block(0, 2, 0), Block(2, 3, 2)]
    ensures !InBounds(Layout(2, 2), 2)
  {
    assert Layout(2, 2)[1].last == 3;
  }

  // ---------------------------------------------------------------------
  // The partition the code evidently intends

  /**
   * Block `i` with the positions clamped to N and the last block ending at
   * N: the remainder is appended to the last block, and surplus threads get
   * empty blocks.
   */
  function CorrectedBlockAt(n: nat, t: nat, i: nat): Block
    requires 1 <= t && i < t
  {
    var blockSize := BlockSize(n, t);
    var start := Min(i * blockSize, n);
    Block(start, if i == t - 1 then n else Min((i + 1) * blockSize, n), start)
  }

  function CorrectedLayout(n: nat, t: nat): (r: seq<Block>)
    requires 1 <= t
    ensures |r| == t
  {
    seq(t, i requires 0 <= i < t => CorrectedBlockAt(n, t, i))
  }

  /** The block of the corrected layout that reads sample `j`. */
  function CorrectedOwner(n: nat, t: nat, j: nat): (i: nat)
    requires 1 <= t
    ensures i < t
  {
    if BlockSize(n, t) == 0 then t - 1 else Min(j / BlockSize(n, t), t - 1)
  }

  /**
   * For every N and every T >= 1 the corrected blocks stay in bounds, are
   * pairwise disjoint and in order, write where they read, and together read
   * exactly [0, N); on the well-defined domain they agree with the blocks
   * as written except for the last block's end.
   */
  lemma {:induction false} CorrectedLayoutCovers(n: nat, t: nat)
    requires 1 <= t
    ensures InBounds(CorrectedLayout(n, t), n)
    ensures forall i :: 0 <= i < t ==> CorrectedLayout(n, t)[i].offset == CorrectedLayout(n, t)[i].first
    ensures forall i, i' :: 0 <= i < i' < t ==> CorrectedLayout(n, t)[i].last <= CorrectedLayout(n, t)[i'].first
    ensures forall i, j :: 0 <= i < t && Covers(CorrectedLayout(n, t)[i], j) ==> 0 <= j < n
    ensures forall j :: 0 <= j < n ==> Covers(CorrectedLayout(n, t)[CorrectedOwner(n, t, j)], j)
  {
    var b := BlockSize(n, t);
    var c := CorrectedLayout(n, t);
    forall i | 0 <= i < t
      ensures 0 <= c[i].first <= c[i].last <= n
    {
      MulMono(i, i + 1, b);
      MulMono(0, i, b);
    }
    forall i, i' | 0 <= i < i' < t
      ensures c[i].last <= c[i'].first
    {
      MulMono(i + 1, i', b);
    }
    forall j | 0 <= j < n
      ensures Covers(c[CorrectedOwner(n, t, j)], j)
    {
      assert b >= 1;
      DivBounds(j, b);
      var i := j / b;
      if i >= t - 1 {
        MulMono(t - 1, i, b);
      }
    }
  }

  /** On the well-defined domain the corrected blocks differ from the written ones only in the last end. */
  lemma {:induction false} CorrectedAgreesWithLayout(n: nat, t: nat)
    requires 1 <= t < UintRange && n < SizeRange && WellDefined(n, t)
    ensures CorrectedLayout(n, t)[..t - 1] == Layout(n, t)[..t - 1]
    ensures CorrectedLayout(n, t)[t - 1] == Layout(n, t)[t - 1].(last := n)
  {
    LayoutCoverage(n, t);
    var l := Layout(n, t);
    var c := CorrectedLayout(n, t);
    forall i | 0 <= i < t
      ensures c[i].first == l[i].first && c[i].offset == l[i].offset
      ensures i < t - 1 ==> c[i].last == l[i].last
    {
    }
  }
}
