/**
 Gathering the cached context of several requests out of pages into consecutive rows.
 */
module PagedGather {
  import opened Sums

  predicate Paged<T>(cache: seq<seq<T>>, page: nat) {
    page > 0 && forall b :: 0 <= b < |cache| ==> |cache[b]| == page
  }

  /** The block table has a block of the cache for logical token `pos`. */
  predicate Addressable<T>(cache: seq<seq<T>>, page: nat, blocks: seq<nat>, pos: nat)
    requires page > 0
  {
    pos / page < |blocks| && blocks[pos / page] < |cache|
  }

  /** The cached row of a request's logical token `pos`, found through its block table. */
  function Logical<T>(cache: seq<seq<T>>, page: nat, blocks: seq<nat>, pos: nat): (row: T)
    requires Paged(cache, page) && Addressable(cache, page, blocks, pos)
  {
    cache[blocks[pos / page]][pos % page]
  }

  predicate AllAddressable<T>(cache: seq<seq<T>>, page: nat, blocks: seq<nat>, from: nat, to: int)
    requires page > 0
  {
    forall pos :: from <= pos < to ==> Addressable(cache, page, blocks, pos)
  }

  /** Row `slot` of the cache seen as one list of rows. */
  function Flat<T>(cache: seq<seq<T>>, page: nat, slot: nat): (row: T)
    requires Paged(cache, page) && slot / page < |cache|
  {
    cache[slot / page][slot % page]
  }

  /** The slot computed for a logical token holds its row. */
  lemma SlotIsRow<T>(cache: seq<seq<T>>, page: nat, blocks: seq<nat>, pos: nat)
    requires Paged(cache, page) && Addressable(cache, page, blocks, pos)
    ensures SlotFits(cache, page, blocks, pos)
  {
    SlotOf(page, blocks[pos / page], pos % page);
  }

  ghost predicate SlotFits<T>(cache: seq<seq<T>>, page: nat, blocks: seq<nat>, pos: nat)
    requires Paged(cache, page)
  {
    && Addressable(cache, page, blocks, pos) && Slot(page, blocks, pos) / page < |cache|
    && Flat(cache, page, Slot(page, blocks, pos)) == Logical(cache, page, blocks, pos)
  }

  /** The cache indexed with the slots of `len` consecutive tokens. */
  function SlotRows<T>(cache: seq<seq<T>>, page: nat, blocks: seq<nat>, start: nat, len: nat): (rows: seq<T>)
    requires Paged(cache, page) && AllAddressable(cache, page, blocks, start, start + len)
    ensures |rows| == len
    ensures forall j :: 0 <= j < len ==> rows[j] == TokenRow(cache, page, blocks, start, len, j)
  {
    seq(len, j requires 0 <= j < len => SlotRow(cache, page, blocks, start, len, j))
  }

  function SlotRow<T>(cache: seq<seq<T>>, page: nat, blocks: seq<nat>, start: nat, len: nat, j: nat): (row: T)
    requires Paged(cache, page) && AllAddressable(cache, page, blocks, start, start + len) && j < len
    ensures row == TokenRow(cache, page, blocks, start, len, j)
  {
    assert Addressable(cache, page, blocks, start + j);
    SlotIsRow(cache, page, blocks, start + j);
    Flat(cache, page, Slot(page, blocks, start + j))
  }

  /** The row of the `j`-th of `len` consecutive tokens. */
  function TokenRow<T>(cache: seq<seq<T>>, page: nat, blocks: seq<nat>, start: nat, len: nat, j: nat): (row: T)
    requires Paged(cache, page) && AllAddressable(cache, page, blocks, start, start + len) && j < len
  {
    assert Addressable(cache, page, blocks, start + j);
    Logical(cache, page, blocks, start + j)
  }

  function Slot(page: nat, blocks: seq<nat>, pos: nat): (slot: nat)
    requires page > 0 && pos / page < |blocks|
  {
    blocks[pos / page] * page + pos % page
  }

  lemma SlotOf(page: nat, block: nat, offset: nat)
    requires offset < page
    ensures (block * page + offset) / page == block && (block * page + offset) % page == offset
  {
    QuotientIs(block * page + offset, block, page);
  }

  // ----- the rows -----

  /** Requests are those that have both a start and a length. */
  function Requests(starts: seq<nat>, cu: seq<int>): (n: nat) {
    if cu == [] then 0 else if |starts| < |cu| - 1 then |starts| else |cu| - 1
  }

  function Length(cu: seq<int>, i: nat): (n: int)
    requires i + 1 < |cu|
  {
    cu[i + 1] - cu[i]
  }

  /** The rows that the requests before `i` take. */
  function RowStart(cu: seq<int>, i: nat): (r: nat)
    requires i == 0 || i < |cu|
  {
    if i == 0 then 0
    else RowStart(cu, i - 1) + if Length(cu, i - 1) > 0 then Length(cu, i - 1) else 0
  }

  lemma {:induction false} RowStartMono(cu: seq<int>, i: nat, k: nat)
    requires i <= k < |cu|
    ensures RowStart(cu, i) <= RowStart(cu, k)
    decreases k
  {
    if i < k { RowStartMono(cu, i, k - 1); }
  }

  predicate NonDecreasing(cu: seq<int>, n: nat)
    requires n < |cu|
  {
    forall i :: 0 <= i < n ==> cu[i] <= cu[i + 1]
  }

  /** The rows start where `cu` says exactly when it does not decrease on the way. */
  lemma {:induction false} RowStartIsOffset(cu: seq<int>, n: nat)
    requires n < |cu|
    ensures RowStart(cu, n) >= cu[n] - cu[0]
    ensures RowStart(cu, n) == cu[n] - cu[0] <==> NonDecreasing(cu, n)
  {
    if n > 0 {
      RowStartIsOffset(cu, n - 1);
      assert NonDecreasing(cu, n) <==> NonDecreasing(cu, n - 1) && cu[n - 1] <= cu[n];
    }
  }

  /** Every row belongs to exactly one request, empty requests having none. */
  ghost predicate Owns(cu: seq<int>, i: nat, row: nat)
    requires i + 1 < |cu|
  {
    RowStart(cu, i) <= row < RowStart(cu, i + 1)
  }

  lemma {:induction false} RowHasOwner(cu: seq<int>, n: nat, row: nat) returns (i: nat)
    requires n < |cu| && row < RowStart(cu, n)
    ensures i < n && Owns(cu, i, row) && row - RowStart(cu, i) < Length(cu, i)
    ensures forall k :: 0 <= k < |cu| - 1 && Owns(cu, k, row) ==> k == i
  {
    if row < RowStart(cu, n - 1) {
      i := RowHasOwner(cu, n - 1, row);
    } else {
      i := n - 1;
      forall k | 0 <= k < |cu| - 1 && Owns(cu, k, row) ensures k == i {
        if k < i { RowStartMono(cu, k + 1, i); } else if k > i { RowStartMono(cu, i + 1, k); }
      }
    }
  }

  // ----- the gather -----

  /** A batch: the block table, the first token and the row offsets of every request. */
  datatype Batch = Batch(table: seq<seq<nat>>, starts: seq<nat>, cu: seq<int>)

  /** The request's row of the block table; a request without one has no blocks. */
  function BlocksOf(b: Batch, i: nat): (blocks: seq<nat>) { if i < |b.table| then b.table[i] else [] }

  predicate Readable<T>(cache: seq<seq<T>>, page: nat, b: Batch, i: nat)
    requires page > 0 && i < Requests(b.starts, b.cu)
  {
    AllAddressable(cache, page, BlocksOf(b, i), b.starts[i], b.starts[i] + Length(b.cu, i))
  }

  /** There is room for request `i` and those before it. */
  predicate Roomy(b: Batch, i: nat, rows: nat)
    requires i + 1 < |b.cu|
  {
    RowStart(b.cu, i + 1) <= rows
  }

  /**
   The copy of request `i` goes through: there is room, or nothing is copied, or its single row is
   broadcast to the empty rest of the destination and lost.
   */
  predicate Accepted(b: Batch, i: nat, rows: nat)
    requires i + 1 < |b.cu|
  {
    Roomy(b, i, rows) || Length(b.cu, i) <= 1
  }

  /** The first `n` requests are in place, as far as there are rows, and the rows from there on are as they were. */
  ghost predicate Gathered<T>(cache: seq<seq<T>>, page: nat, b: Batch, n: nat, before: seq<T>, dst: seq<T>)
    requires Paged(cache, page) && n <= Requests(b.starts, b.cu)
  {
    && |dst| == |before|
    && (forall i :: 0 <= i < n ==> Readable(cache, page, b, i) && Accepted(b, i, |dst|))
    && (forall i, r: nat :: 0 <= i < n && Owns(b.cu, i, r) && r < |dst| ==> InPlace(cache, page, b, i, r, dst))
    && (forall r :: RowStart(b.cu, n) <= r < |dst| ==> dst[r] == before[r])
  }

  /** Row `r` holds the token of request `i` that is due there. */
  ghost predicate InPlace<T>(cache: seq<seq<T>>, page: nat, b: Batch, i: nat, r: nat, dst: seq<T>)
    requires Paged(cache, page) && i < Requests(b.starts, b.cu) && RowStart(b.cu, i) <= r < |dst|
  {
    var pos := b.starts[i] + (r - RowStart(b.cu, i));
    Addressable(cache, page, BlocksOf(b, i), pos) && dst[r] == Logical(cache, page, BlocksOf(b, i), pos)
  }

  /** With offsets that do not decrease, token `j` of request `i` is at row `cu[i] - cu[0] + j`. */
  lemma GatheredAt<T>(cache: seq<seq<T>>, page: nat, b: Batch, n: nat, before: seq<T>, dst: seq<T>, i: nat, j: nat)
    requires Paged(cache, page) && i < n <= Requests(b.starts, b.cu)
    requires Gathered(cache, page, b, n, before, dst) && NonDecreasing(b.cu, n) && b.cu[n] - b.cu[0] <= |dst|
    requires j < b.cu[i + 1] - b.cu[i]
    ensures 0 <= b.cu[i] - b.cu[0] + j < b.cu[n] - b.cu[0]
    ensures Addressable(cache, page, BlocksOf(b, i), b.starts[i] + j)
    ensures dst[b.cu[i] - b.cu[0] + j] == Logical(cache, page, BlocksOf(b, i), b.starts[i] + j)
  {
    RowStartIsOffset(b.cu, i);
    RowStartIsOffset(b.cu, n);
    RowStartMono(b.cu, i + 1, n);
    assert NonDecreasing(b.cu, i);
    assert Owns(b.cu, i, RowStart(b.cu, i) + j);
    assert InPlace(cache, page, b, i, RowStart(b.cu, i) + j, dst);
  }

  /** One request: the copied rows go after those of the requests before it. */
  lemma GatheredStep<T>(cache: seq<seq<T>>, page: nat, b: Batch, i: nat, before: seq<T>, dst: seq<T>, dst': seq<T>)
    requires Paged(cache, page) && i < Requests(b.starts, b.cu)
    requires Gathered(cache, page, b, i, before, dst)
    requires |dst| == |dst'| && Readable(cache, page, b, i) && Accepted(b, i, |dst|)
    requires forall r :: 0 <= r < |dst| && !Owns(b.cu, i, r) ==> dst'[r] == dst[r]
    requires forall r: nat :: Owns(b.cu, i, r) && r < |dst| ==> InPlace(cache, page, b, i, r, dst')
    ensures Gathered(cache, page, b, i + 1, before, dst')
  {
    hide InPlace;
    forall k, r: nat | 0 <= k < i + 1 && Owns(b.cu, k, r) && r < |dst'| ensures InPlace(cache, page, b, k, r, dst') {
      if k < i {
        RowStartMono(b.cu, k + 1, i);
        Unmoved(cache, page, b, k, r, dst, dst');
      }
    }
  }

  lemma Unmoved<T>(cache: seq<seq<T>>, page: nat, b: Batch, i: nat, r: nat, dst: seq<T>, dst': seq<T>)
    requires Paged(cache, page) && i < Requests(b.starts, b.cu) && RowStart(b.cu, i) <= r < |dst|
    requires InPlace(cache, page, b, i, r, dst) && |dst'| == |dst| && dst'[r] == dst[r]
    ensures InPlace(cache, page, b, i, r, dst')
  {
  }

  datatype Outcome = Copied(rows: nat) | IndexError(request: nat) | SizeMismatch(request: nat)

  /** Nothing stops the loop at request `i`. */
  predicate Passes<T>(cache: seq<seq<T>>, page: nat, b: Batch, i: nat, rows: nat)
    requires page > 0 && i < Requests(b.starts, b.cu)
  {
    Readable(cache, page, b, i) && Accepted(b, i, rows)
  }

  /**
   Fills the rows request by request. The first request whose pages cannot all be read, for want of a
   block table entry or of the page, or whose rows
   do not fit the rest of the destination, stops it with the rows of the requests before it in place.
   */
  method Gather<T>(cache: seq<seq<T>>, page: nat, dst: array<T>, b: Batch) returns (r: Outcome)
    requires Paged(cache, page)
    modifies dst
    ensures r.Copied? ==> r.rows == RowStart(b.cu, Requests(b.starts, b.cu))
    ensures r.Copied? && |b.starts| < |b.cu| && NonDecreasing(b.cu, |b.starts|) ==> r.rows == b.cu[|b.starts|] - b.cu[0]
    ensures r.Copied? && 0 < |b.cu| <= |b.starts| && NonDecreasing(b.cu, |b.cu| - 1) ==> r.rows == b.cu[|b.cu| - 1] - b.cu[0]
    ensures r.Copied? ==> Gathered(cache, page, b, Requests(b.starts, b.cu), old(dst[..]), dst[..])
    ensures !r.Copied? ==> r.request < Requests(b.starts, b.cu) && Gathered(cache, page, b, r.request, old(dst[..]), dst[..])
    ensures r.IndexError? ==> !Readable(cache, page, b, r.request)
    ensures r.SizeMismatch? ==> Readable(cache, page, b, r.request) && !Accepted(b, r.request, dst.Length)
    ensures r.Copied? <==> forall i :: 0 <= i < Requests(b.starts, b.cu) ==> Passes(cache, page, b, i, dst.Length)
  {
    var outStart := 0;
    for i := 0 to Requests(b.starts, b.cu)
      invariant outStart == RowStart(b.cu, i)
      invariant Gathered(cache, page, b, i, old(dst[..]), dst[..])
      invariant forall k :: 0 <= k < i ==> Passes(cache, page, b, k, dst.Length)
    {
      ghost var was := dst[..];
      var len := b.cu[i + 1] - b.cu[i];
      if len > 0 {
        if !AllAddressable(cache, page, BlocksOf(b, i), b.starts[i], b.starts[i] + len) {
          assert !Passes(cache, page, b, i, dst.Length);
          return IndexError(i);
        }
        if outStart + len <= dst.Length {
          CopyPages(cache, page, dst, BlocksOf(b, i), b.starts[i], len, outStart);
          forall r: nat | Owns(b.cu, i, r) ensures InPlace(cache, page, b, i, r, dst[..]) {
            assert Addressable(cache, page, BlocksOf(b, i), b.starts[i] + (r - outStart));
            assert dst[..][r] == dst[r];
          }
        } else if len != 1 {
          assert !Passes(cache, page, b, i, dst.Length);
          return SizeMismatch(i);
        }
        outStart := outStart + len;
      }
      GatheredStep(cache, page, b, i, old(dst[..]), was, dst[..]);
    }
    if b.cu != [] { RowStartIsOffset(b.cu, Requests(b.starts, b.cu)); }
    return Copied(outStart);
  }

  /** A request passes when each of its tokens has a block in the cache, and the destination has a row for all so far. */
  lemma PassesWhen<T>(cache: seq<seq<T>>, page: nat, b: Batch, i: nat, rows: nat)
    requires page > 0 && i < Requests(b.starts, b.cu) && RowStart(b.cu, i + 1) <= rows
    requires b.cu[i + 1] <= b.cu[i] || i < |b.table|
    requires i < |b.table| ==> forall pos :: b.starts[i] <= pos < b.starts[i] + (b.cu[i + 1] - b.cu[i]) ==>
               pos / page < |b.table[i]| && b.table[i][pos / page] < |cache|
    ensures Passes(cache, page, b, i, rows)
  {
  }

  /** A destination with a row for everything accepts everything. */
  lemma RoomForAll(b: Batch, n: nat, rows: nat)
    requires n < |b.cu| && RowStart(b.cu, n) <= rows
    ensures forall i :: 0 <= i < n ==> Accepted(b, i, rows)
  {
    forall i | 0 <= i < n ensures Accepted(b, i, rows) {
      RowStartMono(b.cu, i + 1, n);
    }
  }

  /** The rows at the request's slots, copied to `dst[out..out + len]`. */
  method CopyPages<T>(cache: seq<seq<T>>, page: nat, dst: array<T>, blocks: seq<nat>, start: nat, len: nat, out: nat)
    requires Paged(cache, page) && out + len <= dst.Length && AllAddressable(cache, page, blocks, start, start + len)
    modifies dst
    ensures forall r :: 0 <= r < dst.Length && !(out <= r < out + len) ==> dst[r] == old(dst[r])
    ensures forall r :: out <= r < out + len ==> dst[r] == TokenRow(cache, page, blocks, start, len, r - out)
  {
    var rows := SlotRows(cache, page, blocks, start, len);
    forall r | out <= r < out + len {
      dst[r] := rows[r - out];
    }
  }
}
