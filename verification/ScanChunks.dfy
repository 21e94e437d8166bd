/**
 How a batch of prefill requests is cut into chunks so that the scan can store its state at every
 block boundary, and which block each stored state belongs to.
 */
module ScanChunks {
  import opened Sums

  /**
   The chunks of one request with `computed` tokens already done and `tokens` new ones: they make up
   the new tokens, and every chunk but the last ends at a block boundary of the whole sequence.
   */
  ghost predicate GoodChunks(lens: seq<nat>, computed: nat, tokens: nat, size: nat)
    requires size > 0
  {
    && Sum(lens) == tokens
    && (tokens > 0 ==> |lens| > 0 && forall c :: 0 <= c < |lens| ==> 0 < lens[c] <= size)
    && (lens != [] ==> lens[0] <= size - computed % size)
    && (forall c :: 0 < c < |lens| ==> (computed + Offset(lens, c)) % size == 0)
  }

  function CeilDiv(a: nat, b: nat): (q: nat)
    requires b > 0
  {
    (a + b - 1) / b
  }

  lemma CeilGap(a: nat, b: nat)
    requires b > 0 && a % b != 0
    ensures CeilDiv(a, b) * b - a == b - a % b
    ensures CeilDiv(a, b) * b % b == 0
  {
    MultipleOf(CeilDiv(a, b), b);
    var q, r := a / b, a % b;
    assert a == q * b + r && (q + 1) * b == q * b + b;
    QuotientIs(a + b - 1, q + 1, b);
  }

  /** `pos + Offset(lens, k)` for every chunk: the entries appended to `cu_chunk_seqlen`. */
  ghost predicate StartsAt(starts: seq<nat>, lens: seq<nat>, pos: nat) {
    |starts| == |lens| && forall k :: 0 <= k < |lens| ==> starts[k] == pos + Offset(lens, k)
  }

  lemma Extend(lens: seq<nat>, len: nat)
    ensures Sum(lens + [len]) == Sum(lens) + len
    ensures forall k :: 0 <= k <= |lens| ==> Offset(lens + [len], k) == Offset(lens, k)
  {
    var l := lens + [len];
    assert l[..|lens|] == lens;
    forall k | 0 <= k <= |lens| ensures Offset(l, k) == Offset(lens, k) {
      assert l[..k] == lens[..k];
    }
  }

  /** What holds while the chunks of one request are laid out. */
  ghost predicate Laying(lens: seq<nat>, computed: nat, done: nat, size: nat)
    requires size > 0
  {
    && Sum(lens) == done
    && (lens != [] ==> lens[0] <= size - computed % size)
    && (forall c :: 0 < c < |lens| ==> (computed + Offset(lens, c)) % size == 0)
  }

  lemma LayNext(lens: seq<nat>, computed: nat, done: nat, size: nat, len: nat)
    requires size > 0 && Laying(lens, computed, done, size)
    requires if lens != [] then (computed + done) % size == 0 else len <= size - computed % size
    ensures Laying(lens + [len], computed, done + len, size)
  {
    Extend(lens, len);
    OffsetEnds(lens);
  }

  ghost predicate Sized(lens: seq<nat>, size: nat) {
    forall c :: 0 <= c < |lens| ==> 0 < lens[c] <= size
  }

  /** The part of `_compute_chunk_metadata` that handles one request. */
  method RequestChunks(size: nat, computed: nat, tokens: nat, pos: nat)
    returns (starts: seq<nat>, end: nat, ghost lens: seq<nat>)
    requires size > 0
    ensures StartsAt(starts, lens, pos) && end == pos + tokens
    ensures GoodChunks(lens, computed, tokens, size)
  {
    starts, end, lens := [], pos, [];
    var left := tokens;
    if computed % size != 0 {
      CeilGap(computed, size);
      var gap := CeilDiv(computed, size) * size - computed;
      var len := if gap < left then gap else left;
      starts, end, left := [pos], pos + len, left - len;
      lens := [len];
      OneChunk(len, pos, computed, size);
    }
    starts, end, lens := FullChunks(size, computed, tokens, pos, starts, end, left, lens);
  }

  lemma OneChunk(len: nat, pos: nat, computed: nat, size: nat)
    requires size > 0 && len <= size - computed % size
    ensures Laying([len], computed, len, size) && StartsAt([pos], [len], pos)
  {
    Extend([], len);
  }

  /** The loop over the remaining tokens, one full chunk after the other. */
  method FullChunks(size: nat, computed: nat, tokens: nat, pos: nat,
                    starts0: seq<nat>, end0: nat, left0: nat, ghost lens0: seq<nat>)
    returns (starts: seq<nat>, end: nat, ghost lens: seq<nat>)
    requires size > 0 && left0 <= tokens && end0 == pos + (tokens - left0)
    requires StartsAt(starts0, lens0, pos) && Laying(lens0, computed, tokens - left0, size)
    requires tokens > 0 ==> Sized(lens0, size)
    requires left0 > 0 ==> (computed + (tokens - left0)) % size == 0
    ensures StartsAt(starts, lens, pos) && end == pos + tokens
    ensures GoodChunks(lens, computed, tokens, size)
  {
    hide Sum, Offset;
    starts, end, lens := starts0, end0, lens0;
    var left: nat := left0;
    var n := CeilDiv(left, size);
    var chunk := 0;
    while chunk < n
      invariant 0 <= chunk <= n && n - chunk == CeilDiv(left, size)
      invariant left <= tokens && end == pos + (tokens - left)
      invariant StartsAt(starts, lens, pos) && Laying(lens, computed, tokens - left, size)
      invariant left > 0 ==> (computed + (tokens - left)) % size == 0
      invariant tokens > 0 ==> Sized(lens, size)
    {
      CeilStep(left, size);
      var len := if size < left then size else left;
      NextChunk(starts, lens, pos, computed, tokens - left, size, len);
      NextBoundary(computed + (tokens - left), size);
      starts, lens := starts + [end], lens + [len];
      end, left := end + len, left - len;
      chunk := chunk + 1;
    }
    CeilStep(left, size);
    EmptySum();
  }

  lemma EmptySum()
    ensures Sum([]) == 0
  {
  }

  lemma NextChunk(starts: seq<nat>, lens: seq<nat>, pos: nat, computed: nat, done: nat, size: nat, len: nat)
    requires size > 0 && StartsAt(starts, lens, pos) && Laying(lens, computed, done, size)
    requires (computed + done) % size == 0 && len <= size
    ensures StartsAt(starts + [pos + done], lens + [len], pos)
    ensures Laying(lens + [len], computed, done + len, size)
  {
    if lens == [] { assert done == 0; }
    LayNext(lens, computed, done, size, len);
    Extend(lens, len);
    OffsetEnds(lens);
    hide Sum;
  }

  /** The number of chunks left goes down by one with every chunk. */
  lemma CeilStep(left: nat, size: nat)
    requires size > 0
    ensures left == 0 <==> CeilDiv(left, size) == 0
    ensures left > size ==> CeilDiv(left - size, size) == CeilDiv(left, size) - 1
    ensures 0 < left <= size ==> CeilDiv(left, size) == 1
    ensures CeilDiv(0, size) == 0
  {
    DivMul(left + size - 1, size);
    if left > size {
      var q := (left + size - 1) / size;
      assert left - 1 == (q - 1) * size + (left + size - 1) % size;
      QuotientIs(left - 1, q - 1, size);
    } else if left > 0 {
      QuotientIs(left + size - 1, 1, size);
    }
    QuotientIs(size - 1, 0, size);
  }

  lemma NextBoundary(x: nat, size: nat)
    requires size > 0
    ensures x % size == 0 ==> (x + size) % size == 0
  {
    if x % size == 0 {
      var q := x / size;
      assert x == q * size;
      assert x + size == (q + 1) * size;
      MultipleOf(q + 1, size);
    }
  }

  // ----- a batch of requests -----

  /** The first chunk of request `b`, as the kernel finds it. */
  function FirstChunk(last: seq<int>, b: nat): (i: int)
    requires b < |last|
  {
    if b == 0 then 0 else last[b - 1] + 1
  }

  /** The entries of request `b`, its end included, are the running sums of its chunks. */
  ghost predicate Segment(cu: seq<nat>, last: seq<int>, b: nat, lens: seq<nat>, pos: nat)
    requires b < |last|
  {
    var i := FirstChunk(last, b);
    && 0 <= i && last[b] + 1 == i + |lens| < |cu|
    && forall k :: 0 <= k <= |lens| ==> cu[i + k] == pos + Offset(lens, k)
  }

  /** Chunk `i` belongs to request `seqIdx[i]`. */
  ghost predicate Owned(seqIdx: seq<nat>, last: seq<int>) {
    forall i :: 0 <= i < |seqIdx| ==>
      seqIdx[i] < |last| && FirstChunk(last, seqIdx[i]) <= i <= last[seqIdx[i]]
  }

  predicate Increasing(starts: seq<nat>) {
    forall i, j :: 0 <= i <= j < |starts| ==> starts[i] <= starts[j]
  }

  /**
   `_compute_chunk_metadata`: chunks hold tokens of one request only, and the chunks of every
   request are good ones.
   */
  method ComputeChunks(size: nat, computed: seq<nat>, queryStart: seq<nat>)
    returns (cu: seq<nat>, seqIdx: seq<nat>, last: seq<int>, ghost lens: seq<seq<nat>>)
    requires size > 0 && |queryStart| == |computed| + 1 && Increasing(queryStart)
    ensures |last| == |lens| == |computed| && |cu| == |seqIdx| + 1 && Owned(seqIdx, last)
    ensures Segments(cu, last, lens, queryStart)
    ensures forall b :: 0 <= b < |computed| ==>
              GoodChunks(lens[b], computed[b], queryStart[b + 1] - queryStart[b], size)
  {
    hide Segment, GoodChunks, Owned;
    cu, seqIdx, last, lens := [], [], [], [];
    var pos: nat := 0;
    assert Owned(seqIdx, last) by { OwnedNone(); }
    for b := 0 to |computed|
      invariant |last| == |lens| == b && |cu| == |seqIdx| && Owned(seqIdx, last)
      invariant pos == queryStart[b] - queryStart[0]
      invariant if b == 0 then cu == [] else last[b - 1] == |cu| - 1
      invariant Segments(cu + [pos], last, lens, queryStart)
      invariant forall c :: 0 <= c < b ==> GoodChunks(lens[c], computed[c], queryStart[c + 1] - queryStart[c], size)
    {
      var starts, end;
      ghost var l;
      starts, end, l := RequestChunks(size, computed[b], queryStart[b + 1] - queryStart[b], pos);
      assert end == pos + Sum(l) by { GoodSum(l, computed[b], queryStart[b + 1] - queryStart[b], size); }
      SegmentsStep(cu, starts, pos, end, last, lens, queryStart, l);
      OwnedStep(seqIdx, last, |starts|);
      seqIdx := seqIdx + seq(|starts|, _ => b);
      cu, pos, last, lens := cu + starts, end, last + [|cu| + |starts| - 1], lens + [l];
    }
    cu := cu + [pos];
  }

  lemma GoodSum(l: seq<nat>, computed: nat, tokens: nat, size: nat)
    requires size > 0 && GoodChunks(l, computed, tokens, size)
    ensures Sum(l) == tokens
  {
  }

  lemma OwnedNone()
    ensures Owned([], [])
  {
  }

  lemma OwnedStep(seqIdx: seq<nat>, last: seq<int>, n: nat)
    requires Owned(seqIdx, last) && (last != [] ==> last[|last| - 1] == |seqIdx| - 1) && (last == [] ==> seqIdx == [])
    ensures Owned(seqIdx + seq(n, _ => |last|), last + [|seqIdx| + n - 1])
  {
  }

  ghost predicate Segments(cu: seq<nat>, last: seq<int>, lens: seq<seq<nat>>, queryStart: seq<nat>)
    requires |last| == |lens| < |queryStart| && Increasing(queryStart)
  {
    forall c :: 0 <= c < |lens| ==> Segment(cu, last, c, lens[c], queryStart[c] - queryStart[0])
  }

  lemma SegmentsStep(cu: seq<nat>, starts: seq<nat>, pos: nat, end: nat, last: seq<int>, lens: seq<seq<nat>>,
                     queryStart: seq<nat>, l: seq<nat>)
    requires |last| == |lens| && |lens| + 1 < |queryStart| && Increasing(queryStart)
    requires Segments(cu + [pos], last, lens, queryStart) && pos == queryStart[|lens|] - queryStart[0]
    requires if last == [] then cu == [] else last[|last| - 1] == |cu| - 1
    requires StartsAt(starts, l, pos) && end == pos + Sum(l)
    ensures Segments(cu + starts + [end], last + [|cu| + |starts| - 1], lens + [l], queryStart)
  {
    hide Segment, StartsAt;
    var last', lens' := last + [|cu| + |starts| - 1], lens + [l];
    forall c | 0 <= c < |lens'|
      ensures Segment(cu + starts + [end], last', c, lens'[c], queryStart[c] - queryStart[0])
    {
      if c < |lens| {
        SegmentKept(cu, starts, pos, end, last, last', c, lens[c], queryStart[c] - queryStart[0], l);
      } else {
        SegmentNew(cu, starts, pos, end, last, last', l);
      }
    }
  }

  lemma SegmentKept(cu: seq<nat>, starts: seq<nat>, pos: nat, end: nat, last: seq<int>, last': seq<int>,
                    c: nat, lens: seq<nat>, base: nat, l: seq<nat>)
    requires c < |last| && last' == last + [|cu| + |starts| - 1]
    requires Segment(cu + [pos], last, c, lens, base)
    requires StartsAt(starts, l, pos) && (l == [] ==> end == pos)
    ensures Segment(cu + starts + [end], last', c, lens, base)
  {
    assert starts != [] ==> starts[0] == pos by { OffsetEnds(l); }
    var x, x' := cu + [pos], cu + starts + [end];
    assert forall i :: 0 <= i < |x| ==> x'[i] == x[i];
  }

  lemma SegmentNew(cu: seq<nat>, starts: seq<nat>, pos: nat, end: nat, last: seq<int>, last': seq<int>, l: seq<nat>)
    requires last' == last + [|cu| + |starts| - 1]
    requires if last == [] then cu == [] else last[|last| - 1] == |cu| - 1
    requires StartsAt(starts, l, pos) && end == pos + Sum(l)
    ensures Segment(cu + starts + [end], last', |last|, l, pos)
  {
    OffsetEnds(l);
    var x, i := cu + starts + [end], |cu|;
    forall k | 0 <= k <= |l| ensures x[i + k] == pos + Offset(l, k) {
      if k < |l| { assert x[i + k] == starts[k]; }
    }
  }

  // ----- which block a stored state belongs to -----

  /** `block_idx_first_scheduled_token`. */
  function BlockFirst(computed: nat, size: nat): (i: int)
    requires size > 0
  {
    (computed + size) / size - 1
  }

  /** `block_idx_last_scheduled_token`. */
  function BlockLast(computed: nat, tokens: nat, size: nat): (i: int)
    requires size > 0
  {
    (computed + tokens + size - 1) / size - 1
  }

  /** Where the kernel believes the first chunk to start. */
  function StartPosition(blockFirst: nat, size: nat, lens: seq<nat>): (p: int)
    requires |lens| > 0
  {
    blockFirst * size + if |lens| > 1 && lens[0] < size then size - lens[0] else 0
  }

  /** `block_idx_done`: the block whose slot takes the state stored after chunk `c`. */
  function BlockDone(blockFirst: nat, size: nat, lens: seq<nat>, c: nat): (i: int)
    requires size > 0 && c < |lens|
  {
    (StartPosition(blockFirst, size, lens) + Offset(lens, c + 1) - 1) / size
  }

  lemma BlockFirstIs(computed: nat, size: nat)
    requires size > 0
    ensures BlockFirst(computed, size) == computed / size
  {
    DivMul(computed, size);
    assert (computed / size + 1) * size == computed / size * size + size;
    QuotientIs(computed + size, computed / size + 1, size);
  }

  /** If the first chunk ends at a block boundary, the kernel's start position is the true one. */
  lemma StartIsTrue(lens: seq<nat>, computed: nat, tokens: nat, size: nat)
    requires size > 0 && tokens > 0 && GoodChunks(lens, computed, tokens, size) && |lens| > 1
    ensures StartPosition(computed / size, size, lens) == computed
  {
    OffsetEnds(lens);
    ChunkEnds(lens, computed, tokens, size, 0);
    OffsetStep(lens, 0);
    hide GoodChunks, Offset, Sum;
    NextBlock(computed / size, size);
  }

  lemma NextBlock(q: nat, size: nat)
    ensures (q + 1) * size == q * size + size
  {
  }

  lemma Exact(x: nat, size: nat)
    requires size > 0 && x % size == 0
    ensures x == x / size * size
  {
  }

  /** Every chunk but the last completes exactly one block. */
  lemma {:induction false} ChunkEnds(lens: seq<nat>, computed: nat, tokens: nat, size: nat, c: nat)
    requires size > 0 && tokens > 0 && GoodChunks(lens, computed, tokens, size) && c < |lens| - 1
    ensures computed + Offset(lens, c + 1) == (computed / size + c + 1) * size
  {
    OffsetStep(lens, c);
    var m := (computed + Offset(lens, c + 1)) / size;
    Exact(computed + Offset(lens, c + 1), size);
    if c == 0 {
      OffsetEnds(lens);
      FirstBoundary(computed, lens[0], size, m);
    } else {
      ChunkEnds(lens, computed, tokens, size, c - 1);
      NextMultiple(m, computed / size + c, size, lens[c]);
    }
  }

  /**
   The state stored after chunk `c` goes to the slot of the block that the chunk's last token
   completes, which is block `block_idx_first + c`.
   */
  lemma StoredBlock(lens: seq<nat>, computed: nat, tokens: nat, size: nat, c: nat)
    requires size > 0 && tokens > 0 && GoodChunks(lens, computed, tokens, size) && c < |lens| - 1
    ensures var done := BlockDone(computed / size, size, lens, c);
      && done == BlockFirst(computed, size) + c
      && computed + Offset(lens, c + 1) == (done + 1) * size
  {
    StartIsTrue(lens, computed, tokens, size);
    BlockFirstIs(computed, size);
    ChunkEnds(lens, computed, tokens, size, c);
    hide GoodChunks, StartPosition;
    var k := computed / size + c;
    assert (k + 1) * size == k * size + size;
    QuotientIs((k + 1) * size - 1, k, size);
  }

  /** The last chunk lies in the block of the last token. */
  lemma LastBlock(lens: seq<nat>, computed: nat, tokens: nat, size: nat)
    requires size > 0 && tokens > 0 && GoodChunks(lens, computed, tokens, size)
    ensures BlockLast(computed, tokens, size) == computed / size + |lens| - 1
  {
    var n, q := |lens|, computed / size;
    OffsetStep(lens, n - 1);
    OffsetEnds(lens);
    if n > 1 {
      ChunkEnds(lens, computed, tokens, size, n - 2);
      hide Offset, Sum;
      LastQuotient(q + n - 1, lens[n - 1], size);
    } else {
      OnlyBlock(computed, tokens, size);
    }
  }

  lemma OnlyBlock(computed: nat, tokens: nat, size: nat)
    requires size > 0 && 0 < tokens <= size - computed % size
    ensures BlockLast(computed, tokens, size) == computed / size
  {
    var q := computed / size;
    assert computed == q * size + computed % size;
    LastQuotient(q, computed % size + tokens, size);
  }

  lemma LastQuotient(k: nat, len: nat, size: nat)
    requires size > 0 && 0 < len <= size
    ensures (k * size + len + size - 1) / size == k + 1
  {
    assert (k + 1) * size == k * size + size;
    QuotientIs(k * size + len + size - 1, k + 1, size);
  }

  lemma FirstBoundary(computed: nat, len: nat, size: nat, m: nat)
    requires size > 0 && 0 < len <= size && computed + len == m * size
    ensures m == computed / size + 1
  {
    assert (m - 1) * size == m * size - size;
    QuotientIs(computed, m - 1, size);
  }

  lemma NextMultiple(m: nat, k: nat, size: nat, len: nat)
    requires size > 0 && 0 < len <= size && m * size == k * size + len
    ensures m == k + 1
  {
    assert (m - k) * size == len;
    if m - k >= 2 {
      MulMono(size, 2, m - k);
    } else if m - k <= 0 {
      MulMono(size, m - k, 0);
    }
  }
}
