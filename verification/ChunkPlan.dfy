/**
 Sizes: how the ROCm path turns a request into an aligned size and a list of chunk sizes.

 Every quantity is an unsigned 64-bit word, so each addition that the source performs is
 written with its wrap-around.
 */
module ChunkPlan {
  import opened Sums

  const WORD: nat := 0x1_0000_0000_0000_0000
  const MB: nat := 1024 * 1024
  const DEFAULT_CHUNK: nat := 256 * 1024 * 1024

  type Word = x: nat | x < WORD

  /** What `getenv` and `strtoull` report about the configured chunk size. */
  datatype ChunkEnv = Unset | Unparsable | Megabytes(value: Word)

  /** The configured chunk size in bytes; the conversion from megabytes never wraps. */
  function ConfiguredChunk(env: ChunkEnv): (bytes: Word)
    ensures bytes >= 0x10_0000 && bytes % 0x10_0000 == 0
    ensures env.Megabytes? && env.value != 0 && env.value * 0x10_0000 < WORD ==> bytes == env.value * 0x10_0000
    ensures !(env.Megabytes? && env.value != 0 && env.value * 0x10_0000 < WORD) ==> bytes == 0x1000_0000
  {
    match env
    case Unset => DEFAULT_CHUNK
    case Unparsable => DEFAULT_CHUNK
    case Megabytes(v) =>
      if v == 0 || v > (WORD - 1) / MB then DEFAULT_CHUNK else v * MB
  }

  /** `((x + g - 1) / g) * g` in 64-bit arithmetic. */
  function AlignUp(x: Word, g: Word): (r: Word)
    requires g > 0
  {
    DivMul((x + g - 1) % WORD, g);
    ((x + g - 1) % WORD / g) * g
  }

  /** Rounding up is exact as long as the sum does not wrap. */
  lemma AlignUpExact(x: Word, g: Word)
    requires g > 0 && x + g - 1 < WORD
    ensures x <= AlignUp(x, g) < x + g
    ensures AlignUp(x, g) % g == 0
  {
    DivMul(x + g - 1, g);
    MultipleOf((x + g - 1) / g, g);
  }

  /** Once the sum wraps, the rounded value collapses to zero. */
  lemma AlignUpWraps(x: Word, g: Word)
    requires g > 0 && x + g - 1 >= WORD
    ensures AlignUp(x, g) == 0
  {
    var s := (x + g - 1) % WORD;
    assert s == x + g - 1 - WORD;
    assert s < g;
    assert s / g == 0;
  }


  /** The chunk that holds byte `a` of the range. */
  function {:induction false} ChunkOf(sizes: seq<nat>, a: nat): (i: nat)
    requires a < Sum(sizes)
    ensures i < |sizes|
    ensures Offset(sizes, i) <= a < Offset(sizes, i) + sizes[i]
  {
    var k := |sizes| - 1;
    if a >= Sum(sizes[..k]) then k
    else
      var i := ChunkOf(sizes[..k], a);
      assert sizes[..k][..i] == sizes[..i];
      i
  }

  /** The chunks tile the range: a byte lies in one chunk only. */
  lemma ChunksTile(sizes: seq<nat>, a: nat, i: nat, j: nat)
    requires i < |sizes| && j < |sizes|
    requires Offset(sizes, i) <= a < Offset(sizes, i) + sizes[i]
    requires Offset(sizes, j) <= a < Offset(sizes, j) + sizes[j]
    ensures i == j && a < Sum(sizes)
  {
    OffsetStep(sizes, i);
    OffsetStep(sizes, j);
    OffsetEnds(sizes);
    OffsetMono(sizes, i + 1, |sizes|);
    if i < j {
      OffsetMono(sizes, i + 1, j);
    } else if j < i {
      OffsetMono(sizes, j + 1, i);
    }
  }

  /** The chunks are granularity-aligned, not empty, and make up the whole aligned size. */
  ghost predicate Covers(sizes: seq<nat>, total: nat, g: nat)
    requires g > 0
  {
    && Sum(sizes) == total
    && forall i :: 0 <= i < |sizes| ==> sizes[i] > 0 && sizes[i] % g == 0
  }

  /** Neither of the two additions that size the chunks wraps around. */
  predicate NoWrap(alignedSize: Word, baseChunk: Word, g: Word)
    requires g > 0
  {
    baseChunk + g - 1 < WORD && alignedSize + AlignUp(baseChunk, g) - 1 < WORD
  }

  datatype PlanResult = DivisionByZero | Plan(sizes: seq<nat>)

  function ChunkSize(alignedSize: nat, chunk: nat, i: nat): (size: int)
  {
    if alignedSize - i * chunk < chunk then alignedSize - i * chunk else chunk
  }

  /** Every chunk but the last is full, the last takes the rest; together they sum up. */
  lemma {:induction false} SizesSum(alignedSize: nat, chunk: nat, sizes: seq<nat>)
    requires chunk > 0 && (|sizes| - 1) * chunk < alignedSize
    requires forall k :: 0 <= k < |sizes| ==> sizes[k] == ChunkSize(alignedSize, chunk, k)
    ensures Sum(sizes) == if |sizes| * chunk < alignedSize then |sizes| * chunk else alignedSize
    ensures forall k :: 0 <= k < |sizes| ==> 0 < sizes[k] <= chunk
    ensures forall k :: 0 <= k < |sizes| - 1 ==> sizes[k] == chunk
  {
    var n := |sizes|;
    if n > 0 {
      assert n * chunk == (n - 1) * chunk + chunk && (n - 2) * chunk == (n - 1) * chunk - chunk;
      SizesSum(alignedSize, chunk, sizes[..n - 1]);
      assert n > 1 ==> sizes[n - 2] == ChunkSize(alignedSize, chunk, n - 2) == chunk;
    }
  }

  lemma SizesAligned(alignedSize: nat, chunk: nat, sizes: seq<nat>, g: nat)
    requires g > 0 && alignedSize % g == 0 && chunk % g == 0
    requires forall k :: 0 <= k < |sizes| ==> sizes[k] == ChunkSize(alignedSize, chunk, k)
    ensures forall k :: 0 <= k < |sizes| ==> sizes[k] % g == 0
  {
    forall k | 0 <= k < |sizes| ensures sizes[k] % g == 0 {
      DifferenceOfMultiples(alignedSize, k, chunk, g);
    }
  }

  /** The loop that fills `chunk_sizes`. */
  method FillSizes(alignedSize: nat, chunk: nat, numChunks: nat) returns (sizes: seq<nat>)
    requires (numChunks - 1) * chunk < alignedSize
    ensures |sizes| == numChunks
    ensures forall k :: 0 <= k < |sizes| ==> sizes[k] == ChunkSize(alignedSize, chunk, k)
  {
    sizes := [];
    var i := 0;
    while i < numChunks
      invariant 0 <= i <= numChunks && |sizes| == i
      invariant forall k :: 0 <= k < i ==> sizes[k] == ChunkSize(alignedSize, chunk, k)
    {
      MulMono(chunk, i, numChunks - 1);
      sizes := sizes + [ChunkSize(alignedSize, chunk, i)];
      i := i + 1;
    }
  }

  /** How many chunks the division yields, with and without the wrap-around of its dividend. */
  lemma ChunkCount(alignedSize: Word, chunk: Word, n: nat)
    requires alignedSize > 0 && chunk > 0
    requires n == (alignedSize + chunk - 1) % WORD / chunk
    ensures (n - 1) * chunk < alignedSize
    ensures n * chunk >= alignedSize <==> alignedSize + chunk - 1 < WORD
  {
    var s := (alignedSize + chunk - 1) % WORD;
    DivMul(s, chunk);
    assert (n - 1) * chunk == n * chunk - chunk;
    if alignedSize + chunk - 1 < WORD {
      assert s == alignedSize + chunk - 1;
    } else {
      assert s == alignedSize + chunk - 1 - WORD;
    }
  }

  /** The fewest chunks whose full sizes together are not below the aligned size. */
  ghost function ChunksNeeded(alignedSize: nat, chunk: nat): (n: nat)
    ensures chunk > 0 && alignedSize > 0 ==> (n - 1) * chunk < alignedSize <= n * chunk
  {
    if chunk == 0 || alignedSize == 0 then 0
    else
      DivMul(alignedSize + chunk - 1, chunk);
      (alignedSize + chunk - 1) / chunk
  }

  /**
   The chunk list of `my_malloc`. It covers the aligned size exactly when neither addition
   wraps: a wrap at the first one divides by zero, a wrap at the second one yields too few chunks.
   */
  method PlanChunks(alignedSize: Word, baseChunk: Word, g: Word) returns (r: PlanResult)
    requires g > 0 && baseChunk > 0 && alignedSize > 0 && alignedSize % g == 0
    ensures (r.Plan? && Covers(r.sizes, alignedSize, g)) <==> NoWrap(alignedSize, baseChunk, g)
    ensures r.DivisionByZero? <==> baseChunk + g - 1 >= WORD
    ensures r.Plan? ==> forall i :: 0 <= i < |r.sizes| ==> r.sizes[i] <= AlignUp(baseChunk, g)
    ensures r.Plan? ==> forall i :: 0 <= i < |r.sizes| - 1 ==> r.sizes[i] == AlignUp(baseChunk, g)
    ensures NoWrap(alignedSize, baseChunk, g) ==> r.Plan? && |r.sizes| == ChunksNeeded(alignedSize, AlignUp(baseChunk, g))
  {
    hide AlignUp, ChunkSize, Sum;
    var chunk := AlignUp(baseChunk, g);
    AlignUpZero(baseChunk, g);
    if chunk == 0 {
      return DivisionByZero;
    }
    var numChunks := (alignedSize + chunk - 1) % WORD / chunk;
    ChunkCount(alignedSize, chunk, numChunks);
    var sizes := FillSizes(alignedSize, chunk, numChunks);
    SizesSum(alignedSize, chunk, sizes);
    SizesAligned(alignedSize, chunk, sizes, g);
    r := Plan(sizes);
  }

  lemma AlignUpZero(x: Word, g: Word)
    requires g > 0 && x > 0
    ensures AlignUp(x, g) == 0 <==> x + g - 1 >= WORD
    ensures AlignUp(x, g) % g == 0
  {
    if x + g - 1 >= WORD {
      AlignUpWraps(x, g);
    } else {
      AlignUpExact(x, g);
    }
  }

  lemma DifferenceOfMultiples(a: nat, i: nat, chunk: nat, g: nat)
    requires g > 0 && a % g == 0 && chunk % g == 0
    ensures (a - i * chunk) % g == 0
  {
    var p, q := a / g, chunk / g;
    assert a == p * g && chunk == q * g;
    assert a - i * chunk == (p - i * q) * g;
    MultipleOf(p - i * q, g);
  }

  /** With the default chunk size every request of at most half the address space is covered. */
  lemma DefaultChunkNeverWraps(size: Word, g: Word)
    requires 0 < size < WORD / 2 && 0 < g <= WORD / 8
    ensures AlignUp(size, g) > 0 && NoWrap(AlignUp(size, g), DEFAULT_CHUNK, g)
  {
    AlignUpExact(size, g);
    AlignUpExact(DEFAULT_CHUNK, g);
  }

  /** The largest accepted setting, with 2 MB granularity: the rounded chunk size is zero. */
  lemma HugeChunkDividesByZero()
    ensures ConfiguredChunk(Megabytes(WORD / MB - 1)) == WORD - MB
    ensures AlignUp(WORD - MB, 2 * MB) == 0
  {
    AlignUpWraps(WORD - MB, 2 * MB);
  }

  /** The same setting with 64 KB granularity: a 2 MB request gets no chunk at all. */
  lemma HugeChunkMapsNothing()
    ensures AlignUp(WORD - MB, 65536) == WORD - MB
    ensures (2 * MB + (WORD - MB) - 1) % WORD / (WORD - MB) == 0
  {
  }
}
