/**
 A launch of the scan kernel for a batch of requests: the programs that it consists of, why they do not
 get in each other's way, and what the launch leaves in the buffers and in the state cache.
 */
module ScanLaunch {
  import opened Basics
  import opened Sums
  import opened ScanSpec
  import opened ScanKernel
  import opened ScanChunks
  import opened ScanProgram
  import opened ScanPrefix
  import opened ScanGrid

  /** Sequences side by side in one row per dimension, or one row per sequence and dimension. */
  datatype Arrangement = Packed(stride: nat) | Batched(batchStride: nat, dimStride: nat)

  /** A request as the kernel sees it: its row of the block table and the tokens it has computed. */
  datatype Request = Request(row: seq<nat>, computed: nat)

  datatype Batch = Batch(
    reqs: seq<Request>, queryStart: seq<nat>, dims: nat, size: nat, nullBlock: nat,
    arr: Arrangement, zArr: Arrangement, hasZ: bool)

  // ----- where the programs work -----

  /** Where sequence `b` of dimension `d` starts. */
  function Base(arr: Arrangement, queryStart: seq<nat>, b: nat, d: nat): (p: nat)
    requires b < |queryStart|
  {
    match arr
    case Packed(stride) => d * stride + queryStart[b]
    case Batched(batchStride, dimStride) => b * batchStride + d * dimStride
  }

  function TokensOf(queryStart: seq<nat>, b: nat): (n: nat)
    requires b + 1 < |queryStart| && Increasing(queryStart)
  {
    queryStart[b + 1] - queryStart[b]
  }

  /** The rows are long enough for what lies in them. */
  ghost predicate Roomy(arr: Arrangement, queryStart: seq<nat>, dims: nat)
    requires queryStart != [] && Increasing(queryStart)
  {
    match arr
    case Packed(stride) => queryStart[|queryStart| - 1] <= stride
    case Batched(batchStride, dimStride) =>
      dims * dimStride <= batchStride && forall b :: 0 <= b < |queryStart| - 1 ==> TokensOf(queryStart, b) <= dimStride
  }

  lemma RowEnds(d: nat, e: nat, stride: nat)
    requires d < e
    ensures d * stride + stride <= e * stride
  {
    MulMono(stride, d + 1, e);
    assert (d + 1) * stride == d * stride + stride;
  }

  /** Packed sequences: in one row the sequences follow each other, and rows follow each other. */
  lemma PackedRowsDisjoint(queryStart: seq<nat>, stride: nat, b: nat, d: nat, c: nat, e: nat)
    requires Increasing(queryStart) && b + 1 < |queryStart| && c + 1 < |queryStart| && (b != c || d != e)
    requires queryStart[|queryStart| - 1] <= stride
    ensures Apart(d * stride + queryStart[b], TokensOf(queryStart, b), e * stride + queryStart[c], TokensOf(queryStart, c))
  {
    if d < e { RowEnds(d, e, stride); } else if e < d { RowEnds(e, d, stride); }
    assert b < c ==> queryStart[b + 1] <= queryStart[c];
    assert c < b ==> queryStart[c + 1] <= queryStart[b];
  }

  /** A batch: one row per sequence and dimension. */
  lemma BatchRowsDisjoint(b: nat, d: nat, c: nat, e: nat, dims: nat, batchStride: nat, dimStride: nat, n: nat, k: nat)
    requires d < dims && e < dims && n <= dimStride && k <= dimStride && dims * dimStride <= batchStride && (b != c || d != e)
    ensures Apart(b * batchStride + d * dimStride, n, c * batchStride + e * dimStride, k)
  {
    RowEnds(d, dims, dimStride);
    RowEnds(e, dims, dimStride);
    if b < c {
      RowEnds(b, c, batchStride);
    } else if c < b {
      RowEnds(c, b, batchStride);
    } else if d < e {
      RowEnds(d, e, dimStride);
    } else {
      RowEnds(e, d, dimStride);
    }
  }

  /** Different (sequence, dimension) pairs have no cell in common. */
  lemma BasesApart(arr: Arrangement, queryStart: seq<nat>, dims: nat, b: nat, d: nat, c: nat, e: nat)
    requires queryStart != [] && Increasing(queryStart) && Roomy(arr, queryStart, dims)
    requires b + 1 < |queryStart| && c + 1 < |queryStart| && d < dims && e < dims && (b != c || d != e)
    ensures Apart(Base(arr, queryStart, b, d), TokensOf(queryStart, b), Base(arr, queryStart, c, e), TokensOf(queryStart, c))
  {
    match arr
    case Packed(stride) => PackedRowsDisjoint(queryStart, stride, b, d, c, e);
    case Batched(batchStride, dimStride) =>
      BatchRowsDisjoint(b, d, c, e, dims, batchStride, dimStride, TokensOf(queryStart, b), TokensOf(queryStart, c));
  }

  // ----- the state cache, one vector per slot and dimension -----

  function Cell(slot: nat, dims: nat, d: nat): (c: nat) { slot * dims + d }

  lemma CellsDiffer(s: nat, d: nat, t: nat, e: nat, dims: nat)
    requires d < dims && e < dims
    ensures Cell(s, dims, d) == Cell(t, dims, e) <==> s == t && d == e
  {
    if s < t { RowEnds(s, t, dims); } else if t < s { RowEnds(t, s, dims); }
  }

  lemma CellInside(s: nat, d: nat, dims: nat, n: nat)
    requires d < dims && s < n
    ensures Cell(s, dims, d) < n * dims
  {
    RowEnds(s, n, dims);
  }

  /** The states of one dimension, slot by slot. */
  ghost function Column(ssm: seq<State>, n: nat, dims: nat, d: nat): (col: seq<State>)
    requires |ssm| == n * dims && d < dims
    ensures |col| == n && forall s :: 0 <= s < n ==> col[s] == StateAt(ssm, n, dims, s, d)
  {
    seq(n, s requires 0 <= s < n => StateAt(ssm, n, dims, s, d))
  }

  ghost function StateAt(ssm: seq<State>, n: nat, dims: nat, slot: nat, d: nat): (s: State)
    requires |ssm| == n * dims && slot < n && d < dims
    ensures Cell(slot, dims, d) < |ssm| && s == ssm[Cell(slot, dims, d)]
  {
    CellInside(slot, d, dims, n);
    ssm[Cell(slot, dims, d)]
  }

  // ----- the programs -----

  /** The kernel goes on with request `b`: the slot to load is not the null block. */
  predicate Active(q: Batch, b: nat)
    requires b < |q.reqs| && q.size > 0
  {
    BlockComputed(q.reqs[b].computed, q.size) < |q.reqs[b].row| &&
    q.reqs[b].row[BlockComputed(q.reqs[b].computed, q.size)] != q.nullBlock
  }

  /** The batch as the scheduler and the metadata deliver it; `lens` are the chunks of each request. */
  ghost predicate Scheduled(q: Batch, lens: seq<seq<nat>>, n: nat) {
    && q.size > 0 && q.dims > 0 && |q.queryStart| == |q.reqs| + 1 && Increasing(q.queryStart) && |lens| == |q.reqs|
    && Roomy(q.arr, q.queryStart, q.dims) && Roomy(q.zArr, q.queryStart, q.dims)
    && (forall b :: 0 <= b < |q.reqs| ==> ScheduledAt(q, lens, n, b))
  }

  ghost predicate ScheduledAt(q: Batch, lens: seq<seq<nat>>, n: nat, b: nat)
    requires q.size > 0 && |q.queryStart| == |q.reqs| + 1 && Increasing(q.queryStart) && |lens| == |q.reqs| && b < |q.reqs|
  {
    var r := q.reqs[b];
    && BlockComputed(r.computed, q.size) < |r.row|
    && (Active(q, b) ==>
          && DistinctRow(r.row, n) && TokensOf(q.queryStart, b) > 0 && GoodChunks(lens[b], r.computed, TokensOf(q.queryStart, b), q.size)
          && BlockLast(r.computed, TokensOf(q.queryStart, b), q.size) < |r.row|)
  }

  /** The slots that request `b` stores to: the blocks from its first scheduled token's on. */
  ghost function Stores(q: Batch, lens: seq<seq<nat>>, n: nat, b: nat): (slots: seq<nat>)
    requires Scheduled(q, lens, n) && b < |q.reqs|
  {
    if Active(q, b) then
      StoresFit(q, lens, n, b);
      var r := q.reqs[b];
      r.row[r.computed / q.size..r.computed / q.size + |lens[b]|]
    else []
  }

  lemma StoresAre(q: Batch, lens: seq<seq<nat>>, n: nat, b: nat)
    requires Scheduled(q, lens, n) && b < |q.reqs|
    ensures var slots := Stores(q, lens, n, b);
      && (Active(q, b) ==> CallSlots(slots, lens[b], q.reqs[b].row, q.reqs[b].computed / q.size, n))
      && forall c :: 0 <= c < |slots| ==> slots[c] in q.reqs[b].row && slots[c] < n
  {
    if Active(q, b) {
      StoresFit(q, lens, n, b);
      hide Scheduled, CallSlots, BlockComputed, DistinctRow, Active;
      SliceIsCall(q.reqs[b].row, q.reqs[b].computed / q.size, lens[b], n);
    }
  }

  lemma SliceIsCall(row: seq<nat>, first: nat, lens: seq<nat>, n: nat)
    requires first + |lens| <= |row| && DistinctRow(row, n)
    ensures var slots := row[first..first + |lens|];
      CallSlots(slots, lens, row, first, n) && forall c :: 0 <= c < |slots| ==> slots[c] in row && slots[c] < n
  {
  }

  lemma StoresFit(q: Batch, lens: seq<seq<nat>>, n: nat, b: nat)
    requires Scheduled(q, lens, n) && b < |q.reqs| && Active(q, b)
    ensures var r := q.reqs[b]; r.computed / q.size + |lens[b]| <= |r.row| && lens[b] != [] && DistinctRow(r.row, n)
  {
    assert ScheduledAt(q, lens, n, b);
    LastBlock(lens[b], q.reqs[b].computed, TokensOf(q.queryStart, b), q.size);
  }

  /** The program of request `b` and dimension `d`; on the null block it does nothing. */
  ghost function ProgramOf(q: Batch, lens: seq<seq<nat>>, n: nat, Ps: seq<Params>, ins: seq<seq<Inputs>>, b: nat, d: nat): (pr: Program)
    requires Scheduled(q, lens, n) && b < |q.reqs| <= |ins| && d < q.dims <= |Ps| && d < |ins[b]|
  {
    if Active(q, b) then
      assert ScheduledAt(q, lens, n, b);
      var r := q.reqs[b];
      var slots := Stores(q, lens, n, b);
      Program(Ps[d], ins[b][d], Layout(Base(q.arr, q.queryStart, b, d), Base(q.zArr, q.queryStart, b, d), q.hasZ),
              if r.computed > 0 then Some(Cell(r.row[BlockComputed(r.computed, q.size)], q.dims, d)) else None,
              lens[b], seq(|slots|, c requires 0 <= c < |slots| => Cell(slots[c], q.dims, d)))
    else Program(Ps[d], Inputs([], [], []), Layout(0, 0, q.hasZ), None, [], [])
  }

  /** No request stores to a slot in the block table row of another active one. */
  ghost predicate Exclusive(q: Batch, lens: seq<seq<nat>>, n: nat)
    requires Scheduled(q, lens, n)
  {
    forall b, c :: 0 <= b < |q.reqs| && 0 <= c < |q.reqs| && b != c && Active(q, c) ==>
      Spares(Stores(q, lens, n, b), q.reqs[c].row)
  }

  predicate Spares(stores: seq<nat>, row: seq<nat>) {
    forall k :: 0 <= k < |stores| ==> stores[k] !in row
  }

  lemma ProgramCells(q: Batch, lens: seq<seq<nat>>, n: nat, Ps: seq<Params>, ins: seq<seq<Inputs>>, b: nat, d: nat)
    requires Scheduled(q, lens, n) && b < |q.reqs| <= |ins| && d < q.dims <= |Ps| && d < |ins[b]|
    ensures var pr, slots := ProgramOf(q, lens, n, Ps, ins, b, d), Stores(q, lens, n, b);
      && |pr.cells| == |slots| == |pr.lens| && (!Active(q, b) ==> pr.cells == [] && pr.load == None)
      && (forall c :: 0 <= c < |slots| ==> pr.cells[c] == Cell(slots[c], q.dims, d) && slots[c] < n && slots[c] in q.reqs[b].row)
      && (pr.load.Some? ==> exists k :: 0 <= k < |q.reqs[b].row| && pr.load == Some(Cell(q.reqs[b].row[k], q.dims, d)) && q.reqs[b].row[k] < n)
  {
    StoresAre(q, lens, n, b);
    hide Cell, Roomy, GoodChunks, CallSlots;
    assert ScheduledAt(q, lens, n, b);
  }

  /** The cells of one program meet neither the cells nor the load of another one. */
  lemma CellsApart(q: Batch, lens: seq<seq<nat>>, n: nat, Ps: seq<Params>, ins: seq<seq<Inputs>>, b: nat, d: nat, c: nat, e: nat)
    requires Scheduled(q, lens, n) && Exclusive(q, lens, n) && |q.reqs| <= |ins| && q.dims <= |Ps|
    requires b < |q.reqs| && c < |q.reqs| && d < q.dims && e < q.dims && d < |ins[b]| && e < |ins[c]| && (b != c || d != e)
    ensures var x, y := ProgramOf(q, lens, n, Ps, ins, b, d), ProgramOf(q, lens, n, Ps, ins, c, e);
      forall k :: 0 <= k < |y.cells| ==> y.cells[k] !in x.cells && x.load != Some(y.cells[k])
  {
    var x, y := ProgramOf(q, lens, n, Ps, ins, b, d), ProgramOf(q, lens, n, Ps, ins, c, e);
    var mine, theirs := Stores(q, lens, n, b), Stores(q, lens, n, c);
    ProgramCells(q, lens, n, Ps, ins, b, d);
    ProgramCells(q, lens, n, Ps, ins, c, e);
    hide ProgramOf, Stores, Cell, Active;
    assert b != c && Active(q, b) ==> Spares(theirs, q.reqs[b].row);
    forall k | 0 <= k < |y.cells| ensures y.cells[k] !in x.cells && x.load != Some(y.cells[k]) {
      forall j | 0 <= j < |x.cells| ensures x.cells[j] != y.cells[k] {
        CellsDiffer(mine[j], d, theirs[k], e, q.dims);
        assert mine[j] in q.reqs[b].row;
      }
      if x.load.Some? {
        var i :| 0 <= i < |q.reqs[b].row| && x.load == Some(Cell(q.reqs[b].row[i], q.dims, d));
        CellsDiffer(q.reqs[b].row[i], d, theirs[k], e, q.dims);
      }
    }
  }

  /** The programs of different (sequence, dimension) pairs do not get in each other's way. */
  lemma ProgramsSeparate(q: Batch, lens: seq<seq<nat>>, n: nat, Ps: seq<Params>, ins: seq<seq<Inputs>>, b: nat, d: nat, c: nat, e: nat)
    requires Scheduled(q, lens, n) && Exclusive(q, lens, n) && Supplied(q, Ps, ins)
    requires b < |q.reqs| && c < |q.reqs| && d < q.dims && e < q.dims && (b != c || d != e)
    ensures Separate(ProgramOf(q, lens, n, Ps, ins, b, d), ProgramOf(q, lens, n, Ps, ins, c, e))
  {
    CellsApart(q, lens, n, Ps, ins, b, d, c, e);
    BasesApart(q.arr, q.queryStart, q.dims, b, d, c, e);
    BasesApart(q.zArr, q.queryStart, q.dims, b, d, c, e);
    hide Base, Roomy, Exclusive, Stores, Cell;
  }

  /** There are parameters for every dimension, and inputs for every sequence and dimension. */
  ghost predicate Supplied(q: Batch, Ps: seq<Params>, ins: seq<seq<Inputs>>)
    requires |q.queryStart| == |q.reqs| + 1 && Increasing(q.queryStart)
  {
    && |Ps| == q.dims && |ins| == |q.reqs|
    && (forall d, e :: 0 <= d < |Ps| && 0 <= e < |Ps| ==> |Ps[d].A| == |Ps[e].A|)
    && (forall b :: 0 <= b < |ins| ==> |ins[b]| == q.dims)
    && (forall b, d :: 0 <= b < |ins| && 0 <= d < |ins[b]| ==>
          WellFormed(Ps[d], ins[b][d]) && |ins[b][d].u| == TokensOf(q.queryStart, b))
  }

  // ----- the launch -----

  /** The sequence and the dimension of program `i`. */
  function BatchIndex(i: nat, dims: nat): (b: nat)
    requires dims > 0
  {
    i / dims
  }

  function DimIndex(i: nat, dims: nat): (d: nat)
    requires dims > 0
    ensures d < dims
  {
    i % dims
  }

  lemma IndexPair(i: nat, dims: nat, n: nat)
    requires dims > 0 && i < n * dims
    ensures BatchIndex(i, dims) < n && i == Cell(BatchIndex(i, dims), dims, DimIndex(i, dims))
  {
    DivMul(i, dims);
    BelowProduct(i / dims, dims, n, i);
  }

  lemma BelowProduct(b: nat, dims: nat, n: nat, i: nat)
    requires b * dims <= i < n * dims
    ensures b < n
  {
    if b >= n { MulMono(dims, n, b); }
  }

  /** The grid: one program per sequence and dimension. */
  ghost function Programs(q: Batch, lens: seq<seq<nat>>, n: nat, Ps: seq<Params>, ins: seq<seq<Inputs>>): (progs: seq<Program>)
    requires Scheduled(q, lens, n) && Supplied(q, Ps, ins)
    ensures |progs| == |q.reqs| * q.dims
  {
    seq(|q.reqs| * q.dims, i requires 0 <= i < |q.reqs| * q.dims => ProgramAt(q, lens, n, Ps, ins, i))
  }

  ghost function ProgramAt(q: Batch, lens: seq<seq<nat>>, n: nat, Ps: seq<Params>, ins: seq<seq<Inputs>>, i: nat): (pr: Program)
    requires Scheduled(q, lens, n) && Supplied(q, Ps, ins) && i < |q.reqs| * q.dims
  {
    IndexPair(i, q.dims, |q.reqs|);
    ProgramOf(q, lens, n, Ps, ins, BatchIndex(i, q.dims), DimIndex(i, q.dims))
  }

  /** The index of the program of request `b` and dimension `d`. */
  lemma IndexOf(q: Batch, lens: seq<seq<nat>>, n: nat, Ps: seq<Params>, ins: seq<seq<Inputs>>, b: nat, d: nat)
    requires Scheduled(q, lens, n) && Supplied(q, Ps, ins) && b < |q.reqs| && d < q.dims
    ensures var i := Cell(b, q.dims, d);
      i < |q.reqs| * q.dims && Programs(q, lens, n, Ps, ins)[i] == ProgramOf(q, lens, n, Ps, ins, b, d)
  {
    hide Scheduled, ProgramOf;
    var i := Cell(b, q.dims, d);
    CellInside(b, d, q.dims, |q.reqs|);
    IndexPair(i, q.dims, |q.reqs|);
    CellsDiffer(b, d, BatchIndex(i, q.dims), DimIndex(i, q.dims), q.dims);
  }

  /** The launch's programs are disjoint. */
  lemma LaunchDisjoint(q: Batch, lens: seq<seq<nat>>, n: nat, Ps: seq<Params>, ins: seq<seq<Inputs>>)
    requires Scheduled(q, lens, n) && Exclusive(q, lens, n) && Supplied(q, Ps, ins)
    ensures Disjoint(Programs(q, lens, n, Ps, ins))
  {
    hide Exclusive, Supplied, ProgramAt, Separate, Scheduled;
    var progs := Programs(q, lens, n, Ps, ins);
    forall i, j | 0 <= i < |progs| && 0 <= j < |progs| && i != j ensures Separate(progs[i], progs[j]) {
      PairSeparate(q, lens, n, Ps, ins, i, j);
    }
  }

  lemma PairsDiffer(i: nat, j: nat, dims: nat, n: nat)
    requires dims > 0 && i < n * dims && j < n * dims && i != j
    ensures BatchIndex(i, dims) < n && BatchIndex(j, dims) < n
    ensures BatchIndex(i, dims) != BatchIndex(j, dims) || DimIndex(i, dims) != DimIndex(j, dims)
  {
    IndexPair(i, dims, n);
    IndexPair(j, dims, n);
  }

  lemma PairSeparate(q: Batch, lens: seq<seq<nat>>, n: nat, Ps: seq<Params>, ins: seq<seq<Inputs>>, i: nat, j: nat)
    requires Scheduled(q, lens, n) && Exclusive(q, lens, n) && Supplied(q, Ps, ins)
    requires i < |q.reqs| * q.dims && j < |q.reqs| * q.dims && i != j
    ensures Separate(ProgramAt(q, lens, n, Ps, ins, i), ProgramAt(q, lens, n, Ps, ins, j))
  {
    hide Exclusive, Supplied, ProgramOf, Separate, BatchIndex, DimIndex;
    assert q.dims > 0;
    hide Scheduled;
    PairsDiffer(i, j, q.dims, |q.reqs|);
    ProgramsSeparate(q, lens, n, Ps, ins, BatchIndex(i, q.dims), DimIndex(i, q.dims), BatchIndex(j, q.dims), DimIndex(j, q.dims));
  }

  /** The buffers hold every sequence, and the cache one vector per slot and dimension. */
  ghost predicate Furnished(q: Batch, n: nat, Ps: seq<Params>, m: Memory)
    requires |q.queryStart| == |q.reqs| + 1 && Increasing(q.queryStart)
  {
    && |m.ssm| == n * q.dims && (forall d :: 0 <= d < |Ps| ==> StatesFit(Ps[d], m.ssm))
    && (forall b, d :: 0 <= b < |q.reqs| && 0 <= d < q.dims ==>
          Base(q.arr, q.queryStart, b, d) + TokensOf(q.queryStart, b) <= |m.delta|)
    && (q.hasZ ==> forall b, d :: 0 <= b < |q.reqs| && 0 <= d < q.dims ==>
          Base(q.zArr, q.queryStart, b, d) + TokensOf(q.queryStart, b) <= |m.z|)
  }

  lemma ProgramFits(q: Batch, lens: seq<seq<nat>>, n: nat, Ps: seq<Params>, ins: seq<seq<Inputs>>, m: Memory, b: nat, d: nat)
    requires Scheduled(q, lens, n) && Supplied(q, Ps, ins) && Furnished(q, n, Ps, m) && b < |q.reqs| && d < q.dims
    ensures var pr := ProgramOf(q, lens, n, Ps, ins, b, d); Fitting(pr, m) && pr.P == Ps[d]
  {
    var pr := ProgramOf(q, lens, n, Ps, ins, b, d);
    ProgramCells(q, lens, n, Ps, ins, b, d);
    forall c | 0 <= c < |pr.cells| ensures pr.cells[c] < |m.ssm| {
      CellInside(Stores(q, lens, n, b)[c], d, q.dims, n);
    }
    if pr.load.Some? {
      var k :| 0 <= k < |q.reqs[b].row| && pr.load == Some(Cell(q.reqs[b].row[k], q.dims, d)) && q.reqs[b].row[k] < n;
      CellInside(q.reqs[b].row[k], d, q.dims, n);
    }
    if Active(q, b) {
      assert ScheduledAt(q, lens, n, b);
      GoodSum(lens[b], q.reqs[b].computed, TokensOf(q.queryStart, b), q.size);
    }
    hide Stores, Cell, StatesFit, Roomy, GoodChunks;
    assert WellFormed(Ps[d], ins[b][d]);
  }

  lemma LaunchSane(q: Batch, lens: seq<seq<nat>>, n: nat, Ps: seq<Params>, ins: seq<seq<Inputs>>, m: Memory)
    requires Scheduled(q, lens, n) && Supplied(q, Ps, ins) && Furnished(q, n, Ps, m)
    ensures Sane(Programs(q, lens, n, Ps, ins), Launch(Programs(q, lens, n, Ps, ins)), m)
  {
    hide ProgramOf, Furnished, Fitting, BatchIndex, DimIndex;
    assert q.dims > 0;
    hide Scheduled;
    var progs := Programs(q, lens, n, Ps, ins);
    forall i | 0 <= i < |progs| ensures Fitting(progs[i], m) && |progs[i].P.A| == |Ps[0].A| {
      IndexPair(i, q.dims, |q.reqs|);
      ProgramFits(q, lens, n, Ps, ins, m, BatchIndex(i, q.dims), DimIndex(i, q.dims));
    }
  }

  // ----- what the launch leaves behind -----

  /** The checkpoints of one program, seen in its dimension's column. */
  lemma {:induction false} ColumnCheckpoints(ssm: seq<State>, n: nat, dims: nat, d: nat, P: Params, s: State, toks: seq<Token>,
                                             lens: seq<nat>, slots: seq<nat>, cells: seq<nat>, k: nat, slot: nat)
    requires |ssm| == n * dims && d < dims && slot < n && |s| == |P.A| && AllFit(P, toks)
    requires k <= |lens| == |slots| == |cells| && Sum(lens) == |toks|
    requires forall c :: 0 <= c < |slots| ==> slots[c] < n && cells[c] == Cell(slots[c], dims, d) && cells[c] < |ssm|
    ensures Cell(slot, dims, d) < |ssm|
    ensures Checkpoints(ssm, P, s, toks, lens, cells, k)[Cell(slot, dims, d)]
         == Checkpoints(Column(ssm, n, dims, d), P, s, toks, lens, slots, k)[slot]
  {
    hide Cell, Fold, Sum, Offset;
    CellInside(slot, d, dims, n);
    if k > 0 {
      ColumnCheckpoints(ssm, n, dims, d, P, s, toks, lens, slots, cells, k - 1, slot);
      CellsDiffer(slot, d, slots[k - 1], d, dims);
      OffsetMono(lens, k, |lens|);
      OffsetEnds(lens);
    }
  }

  /** What the cache holds for a request depends on the slots of its row only. */
  lemma CacheAgrees(P: Params, all: seq<Token>, computed: nat, size: nat, row: seq<nat>, states: seq<State>, states': seq<State>)
    requires CacheHolds(P, all, computed, size, row, states) && |states'| == |states|
    requires forall k :: 0 <= k < |row| ==> row[k] < |states| && states'[row[k]] == states[row[k]]
    ensures CacheHolds(P, all, computed, size, row, states')
  {
    hide Fold;
    forall k: nat | (k + 1) * size <= computed ensures BlockState(P, all, size, row, states', k) {
      assert BlockState(P, all, size, row, states, k);
    }
  }

  /** All programs of the launch have finished, in some interleaving. */
  ghost predicate Completes(progs: seq<Program>, m0: Memory, schedule: seq<nat>, m: Memory) {
    && Sane(progs, Launch(progs), m0) && (forall k :: 0 <= k < |schedule| ==> schedule[k] < |progs|)
    && var (ls, m1) := Interleave(progs, Launch(progs), m0, schedule);
    && m == m1 && forall i :: 0 <= i < |progs| ==> ls[i].phase.Finished?
  }

  /** Every program gets enough turns, in any order. */
  ghost predicate Fair(progs: seq<Program>, schedule: seq<nat>) {
    && (forall k :: 0 <= k < |schedule| ==> schedule[k] < |progs|)
    && (forall i :: 0 <= i < |progs| ==> Turns(schedule, i) > 4 * |progs[i].ins.u| + |progs[i].lens|)
  }

  /** Then the launch completes. */
  lemma FairCompletes(progs: seq<Program>, m0: Memory, schedule: seq<nat>)
    requires Sane(progs, Launch(progs), m0) && Disjoint(progs) && Fair(progs, schedule)
    ensures Completes(progs, m0, schedule, Interleave(progs, Launch(progs), m0, schedule).1)
  {
    hide Fitting, Disjoint, Interleave, Turns;
    forall i | 0 <= i < |progs| ensures Interleave(progs, Launch(progs), m0, schedule).0[i].phase.Finished? {
      EveryProgramFinishes(progs, m0, schedule, i);
    }
  }

  /** One program after the other. */
  ghost function InOrder(progs: seq<Program>): (schedule: seq<nat>)
    ensures forall k :: 0 <= k < |schedule| ==> schedule[k] < |progs|
  {
    if progs == [] then []
    else
      var i: nat := |progs| - 1;
      InOrder(progs[..i]) + seq(4 * |progs[i].ins.u| + |progs[i].lens| + 1, _ => i)
  }

  lemma {:induction false} TurnsAdd(s: seq<nat>, t: seq<nat>, i: nat)
    ensures Turns(s + t, i) == Turns(s, i) + Turns(t, i)
  {
    if t == [] {
      assert s + t == s;
    } else {
      assert (s + t)[..|s + t| - 1] == s + t[..|t| - 1];
      TurnsAdd(s, t[..|t| - 1], i);
    }
  }

  lemma {:induction false} TurnsRepeat(n: nat, i: nat)
    ensures Turns(seq(n, _ => i), i) == n
  {
    if n > 0 {
      assert seq(n, _ => i)[..n - 1] == seq(n - 1, _ => i);
      TurnsRepeat(n - 1, i);
    }
  }

  lemma {:induction false} InOrderIsFair(progs: seq<Program>)
    ensures Fair(progs, InOrder(progs))
  {
    if progs != [] {
      var i: nat := |progs| - 1;
      var front, last := InOrder(progs[..i]), seq(4 * |progs[i].ins.u| + |progs[i].lens| + 1, _ => i);
      InOrderIsFair(progs[..i]);
      TurnsRepeat(|last|, i);
      hide Turns;
      forall j: nat | j < |progs| ensures Turns(front + last, j) > 4 * |progs[j].ins.u| + |progs[j].lens| {
        TurnsAdd(front, last, j);
      }
    }
  }

  /** After a completed launch every program is done, and what belongs to none is as it was. */
  lemma LaunchDone(q: Batch, lens: seq<seq<nat>>, n: nat, Ps: seq<Params>, ins: seq<seq<Inputs>>,
                   m0: Memory, schedule: seq<nat>, m: Memory)
    requires Scheduled(q, lens, n) && Exclusive(q, lens, n) && Supplied(q, Ps, ins) && Furnished(q, n, Ps, m0)
    requires Completes(Programs(q, lens, n, Ps, ins), m0, schedule, m)
    ensures |m.ssm| == |m0.ssm| && RestKept(Programs(q, lens, n, Ps, ins), m0, m)
    ensures forall b, d :: 0 <= b < |q.reqs| && 0 <= d < q.dims ==>
      var pr := ProgramOf(q, lens, n, Ps, ins, b, d); Fitting(pr, m0) && Fitting(pr, m) && Done(pr, m0, m)
  {
    var progs := Programs(q, lens, n, Ps, ins);
    LaunchDisjoint(q, lens, n, Ps, ins);
    EveryInterleaving(progs, m0, schedule);
    hide OnTrack, Interleave, Done, Programs, ProgramOf, Fitting, Scheduled, Exclusive, Supplied, Disjoint, Furnished;
    forall b, d | 0 <= b < |q.reqs| && 0 <= d < q.dims
      ensures var pr := ProgramOf(q, lens, n, Ps, ins, b, d); Fitting(pr, m0) && Fitting(pr, m) && Done(pr, m0, m)
    {
      IndexOf(q, lens, n, Ps, ins, b, d);
      var i := Cell(b, q.dims, d);
      InPlaceIsSafe(progs, m0, schedule, i);
    }
  }

  /** A cell whose slot no request stores to is as it was. */
  lemma SparedCell(q: Batch, lens: seq<seq<nat>>, n: nat, Ps: seq<Params>, ins: seq<seq<Inputs>>,
                   m0: Memory, m: Memory, slot: nat, d: nat)
    requires Scheduled(q, lens, n) && Supplied(q, Ps, ins) && |m.ssm| == |m0.ssm| == n * q.dims
    requires RestKept(Programs(q, lens, n, Ps, ins), m0, m) && slot < n && d < q.dims
    requires forall b :: 0 <= b < |q.reqs| ==> slot !in Stores(q, lens, n, b)
    ensures Cell(slot, q.dims, d) < |m.ssm| && m.ssm[Cell(slot, q.dims, d)] == m0.ssm[Cell(slot, q.dims, d)]
  {
    var progs := Programs(q, lens, n, Ps, ins);
    assert q.dims > 0;
    CellInside(slot, d, q.dims, n);
    hide ProgramOf, Scheduled, Stores, Cell, Supplied;
    forall i | 0 <= i < |progs| ensures Cell(slot, q.dims, d) !in progs[i].cells {
      NotStored(q, lens, n, Ps, ins, i, slot, d);
    }
  }

  lemma NotStored(q: Batch, lens: seq<seq<nat>>, n: nat, Ps: seq<Params>, ins: seq<seq<Inputs>>, i: nat, slot: nat, d: nat)
    requires Scheduled(q, lens, n) && Supplied(q, Ps, ins) && i < |q.reqs| * q.dims && d < q.dims
    requires forall b :: 0 <= b < |q.reqs| ==> slot !in Stores(q, lens, n, b)
    ensures Cell(slot, q.dims, d) !in ProgramAt(q, lens, n, Ps, ins, i).cells
  {
    hide BatchIndex, DimIndex;
    IndexPair(i, q.dims, |q.reqs|);
    var b, e := BatchIndex(i, q.dims), DimIndex(i, q.dims);
    ProgramCells(q, lens, n, Ps, ins, b, e);
    hide ProgramOf, Stores, Cell, Scheduled, Supplied;
    var pr, slots := ProgramOf(q, lens, n, Ps, ins, b, e), Stores(q, lens, n, b);
    forall c | 0 <= c < |pr.cells| ensures pr.cells[c] != Cell(slot, q.dims, d) {
      CellsDiffer(slot, d, slots[c], e, q.dims);
      assert slots[c] in slots;
    }
  }

  /** A request that is not in the batch: if no slot of its row is stored to, the cache holds for it what it held. */
  lemma LaunchSpares(q: Batch, lens: seq<seq<nat>>, n: nat, Ps: seq<Params>, ins: seq<seq<Inputs>>, m0: Memory, m: Memory,
                     d: nat, all: seq<Token>, computed: nat, row: seq<nat>)
    requires Scheduled(q, lens, n) && Supplied(q, Ps, ins) && |m.ssm| == |m0.ssm| == n * q.dims && d < q.dims
    requires RestKept(Programs(q, lens, n, Ps, ins), m0, m)
    requires CacheHolds(Ps[d], all, computed, q.size, row, Column(m0.ssm, n, q.dims, d))
    requires forall b :: 0 <= b < |q.reqs| ==> Spares(Stores(q, lens, n, b), row)
    ensures CacheHolds(Ps[d], all, computed, q.size, row, Column(m.ssm, n, q.dims, d))
  {
    var col0, col := Column(m0.ssm, n, q.dims, d), Column(m.ssm, n, q.dims, d);
    HoldsParts(Ps[d], all, computed, q.size, row, col0);
    hide CacheHolds, Scheduled, Supplied, Stores, RestKept, Cell;
    forall k | 0 <= k < |row| ensures col[row[k]] == col0[row[k]] {
      forall b | 0 <= b < |q.reqs| ensures row[k] !in Stores(q, lens, n, b) {
        assert Spares(Stores(q, lens, n, b), row);
      }
      SparedCell(q, lens, n, Ps, ins, m0, m, row[k], d);
    }
    CacheAgrees(Ps[d], all, computed, q.size, row, col0, col);
  }

  /** What the program of an active request is made of. */
  lemma {:induction false} ActiveProgram(q: Batch, lens: seq<seq<nat>>, n: nat, Ps: seq<Params>, ins: seq<seq<Inputs>>, m: Memory, b: nat, d: nat)
    requires Scheduled(q, lens, n) && Supplied(q, Ps, ins) && Furnished(q, n, Ps, m) && b < |q.reqs| && d < q.dims && Active(q, b)
    ensures var pr, r := ProgramOf(q, lens, n, Ps, ins, b, d), q.reqs[b];
      && Fitting(pr, m) && pr.P == Ps[d] && pr.lens == lens[b] && |pr.ins.u| == TokensOf(q.queryStart, b) > 0
      && pr.lay == Layout(Base(q.arr, q.queryStart, b, d), Base(q.zArr, q.queryStart, b, d), q.hasZ)
      && BlockComputed(r.computed, q.size) < |r.row| && DistinctRow(r.row, n)
      && GoodChunks(lens[b], r.computed, TokensOf(q.queryStart, b), q.size)
      && Start(pr, m) == Loaded(|Ps[d].A|, r.computed, q.size, r.row, Column(m.ssm, n, q.dims, d))
  {
    ProgramFits(q, lens, n, Ps, ins, m, b, d);
    assert ScheduledAt(q, lens, n, b);
    var r := q.reqs[b];
    assert StateAt(m.ssm, n, q.dims, r.row[BlockComputed(r.computed, q.size)], d)
        == Column(m.ssm, n, q.dims, d)[r.row[BlockComputed(r.computed, q.size)]];
    hide Stores, Cell, GoodChunks, Roomy, Fitting, BlockComputed;
  }

  /** The batch, its inputs and the memory are as they should be before a launch. */
  ghost predicate Ready(q: Batch, lens: seq<seq<nat>>, n: nat, Ps: seq<Params>, ins: seq<seq<Inputs>>, m: Memory) {
    Scheduled(q, lens, n) && Exclusive(q, lens, n) && Supplied(q, Ps, ins) && Furnished(q, n, Ps, m)
  }

  /** Request `b` is active, and the buffers hold the next tokens of the sequence `all` that the cache knows. */
  ghost predicate Continues(q: Batch, lens: seq<seq<nat>>, n: nat, Ps: seq<Params>, ins: seq<seq<Inputs>>, m: Memory,
                            b: nat, d: nat, all: seq<Token>)
    requires Ready(q, lens, n, Ps, ins, m) && b < |q.reqs| && d < q.dims
  {
    ProgramFits(q, lens, n, Ps, ins, m, b, d);
    var r, t := q.reqs[b], TokensOf(q.queryStart, b);
    && Active(q, b) && CacheHolds(Ps[d], all, r.computed, q.size, r.row, Column(m.ssm, n, q.dims, d))
    && r.computed + t <= |all| && Tokens(ProgramOf(q, lens, n, Ps, ins, b, d), m) == all[r.computed..r.computed + t]
  }

  /** What the programs start from and put out, in terms of the whole sequence. */
  lemma {:induction false} StartsRight(q: Batch, lens: seq<seq<nat>>, n: nat, Ps: seq<Params>, ins: seq<seq<Inputs>>, m: Memory,
                                       b: nat, d: nat, all: seq<Token>)
    requires Ready(q, lens, n, Ps, ins, m) && b < |q.reqs| && d < q.dims && Continues(q, lens, n, Ps, ins, m, b, d, all)
    ensures var pr, r, t := ProgramOf(q, lens, n, Ps, ins, b, d), q.reqs[b], TokensOf(q.queryStart, b);
      && Fitting(pr, m) && AllFit(Ps[d], all) && pr.P == Ps[d]
      && Start(pr, m) == Fold(Ps[d], Rest(|Ps[d].A|), all[..r.computed])
      && Outputs(pr.P, Start(pr, m), Tokens(pr, m)) == Outputs(Ps[d], Rest(|Ps[d].A|), all)[r.computed..r.computed + t]
      && GatedOutputs(pr.P, Start(pr, m), Tokens(pr, m)) == GatedOutputs(Ps[d], Rest(|Ps[d].A|), all)[r.computed..r.computed + t]
  {
    hide ProgramOf, Stores, Cell, Scheduled, Supplied, Furnished, Active, GoodChunks, TokensIn, Outputs, GatedOutputs, Fold, Start, Exclusive;
    hide CacheHolds, Loaded, BlockComputed, Fits;
    Sizes(q, lens, n, Ps, ins, m);
    ActiveProgram(q, lens, n, Ps, ins, m, b, d);
    var pr, r, t := ProgramOf(q, lens, n, Ps, ins, b, d), q.reqs[b], TokensOf(q.queryStart, b);
    var col := Column(m.ssm, n, q.dims, d);
    StartState(Ps[d], all, r.computed, q.size, r.row, col);
    HoldsParts(Ps[d], all, r.computed, q.size, r.row, col);
    CallOutputs(Ps[d], all, r.computed, t);
    GatedStretch(Ps[d], Start(pr, m), all, r.computed, t);
  }

  /** What can be taken for granted where the checkpoints of an active request are spoken of. */
  lemma IdealFits(q: Batch, lens: seq<seq<nat>>, n: nat, Ps: seq<Params>, ins: seq<seq<Inputs>>, m: Memory, b: nat, d: nat)
    requires Ready(q, lens, n, Ps, ins, m) && b < |q.reqs| && d < q.dims && Active(q, b)
    ensures var pr, slots := ProgramOf(q, lens, n, Ps, ins, b, d), Stores(q, lens, n, b);
      && Fitting(pr, m) && pr.P == Ps[d] && |Ps| == q.dims && |m.ssm| == n * q.dims
      && pr.lens == lens[b] && |slots| == |lens[b]| == |pr.cells| && Sum(lens[b]) == |Tokens(pr, m)|
      && forall c :: 0 <= c < |slots| ==> slots[c] < n && pr.cells[c] == Cell(slots[c], q.dims, d) && pr.cells[c] < |m.ssm|
  {
    ActiveProgram(q, lens, n, Ps, ins, m, b, d);
    ProgramCells(q, lens, n, Ps, ins, b, d);
    hide ProgramOf, Stores, Cell, Scheduled, TokensIn;
  }

  /** The column of dimension `d` as the checkpoints of request `b` alone would leave it. */
  ghost function Ideal(q: Batch, lens: seq<seq<nat>>, n: nat, Ps: seq<Params>, ins: seq<seq<Inputs>>, m: Memory, b: nat, d: nat): (col: seq<State>)
    requires Ready(q, lens, n, Ps, ins, m) && b < |q.reqs| && d < q.dims && Active(q, b)
    ensures |col| == n
  {
    IdealFits(q, lens, n, Ps, ins, m, b, d);
    var pr := ProgramOf(q, lens, n, Ps, ins, b, d);
    Checkpoints(Column(m.ssm, n, q.dims, d), Ps[d], Start(pr, m), Tokens(pr, m), lens[b], Stores(q, lens, n, b), |lens[b]|)
  }

  lemma {:induction false} IdealHolds(q: Batch, lens: seq<seq<nat>>, n: nat, Ps: seq<Params>, ins: seq<seq<Inputs>>, m: Memory,
                                      b: nat, d: nat, all: seq<Token>)
    requires Ready(q, lens, n, Ps, ins, m) && b < |q.reqs| && d < q.dims && Continues(q, lens, n, Ps, ins, m, b, d, all)
    ensures CacheHolds(Ps[d], all, q.reqs[b].computed + TokensOf(q.queryStart, b), q.size, q.reqs[b].row, Ideal(q, lens, n, Ps, ins, m, b, d))
  {
    hide ProgramOf, Stores, Cell, Scheduled, Supplied, Furnished, Active, GoodChunks, TokensIn, Outputs, GatedOutputs, Fold, Start, Exclusive;
    hide Fitting, CacheHolds, DistinctRow, CallSlots, Loaded, Checkpoints, Tokens, BlockComputed, Fits;
    Sizes(q, lens, n, Ps, ins, m);
    ActiveProgram(q, lens, n, Ps, ins, m, b, d);
    StoresAre(q, lens, n, b);
    StartsRight(q, lens, n, Ps, ins, m, b, d, all);
    IdealFits(q, lens, n, Ps, ins, m, b, d);
    var r, t, col := q.reqs[b], TokensOf(q.queryStart, b), Column(m.ssm, n, q.dims, d);
    CallKeepsCache(Ps[d], all, r.computed, t, q.size, r.row, col, lens[b], Stores(q, lens, n, b), Ideal(q, lens, n, Ps, ins, m, b, d));
  }

  /** The outcome of a completed launch, seen from one program. */
  ghost predicate After(q: Batch, lens: seq<seq<nat>>, n: nat, Ps: seq<Params>, ins: seq<seq<Inputs>>, m0: Memory, m: Memory, b: nat, d: nat)
    requires Ready(q, lens, n, Ps, ins, m0) && b < |q.reqs| && d < q.dims
  {
    ProgramFits(q, lens, n, Ps, ins, m0, b, d);
    var pr := ProgramOf(q, lens, n, Ps, ins, b, d);
    |m.ssm| == |m0.ssm| && RestKept(Programs(q, lens, n, Ps, ins), m0, m) && Fitting(pr, m) && Done(pr, m0, m)
  }

  /** In the columns, a launch leaves in the row of an active request what its own checkpoints would leave. */
  lemma {:induction false} RowAfter(q: Batch, lens: seq<seq<nat>>, n: nat, Ps: seq<Params>, ins: seq<seq<Inputs>>, m0: Memory, m: Memory,
                                    b: nat, d: nat, k: nat)
    requires Ready(q, lens, n, Ps, ins, m0) && b < |q.reqs| && d < q.dims && Active(q, b) && k < |q.reqs[b].row|
    requires After(q, lens, n, Ps, ins, m0, m, b, d)
    ensures |m.ssm| == n * q.dims && q.reqs[b].row[k] < n
    ensures Column(m.ssm, n, q.dims, d)[q.reqs[b].row[k]] == Ideal(q, lens, n, Ps, ins, m0, b, d)[q.reqs[b].row[k]]
  {
    var pr, slots, slot := ProgramOf(q, lens, n, Ps, ins, b, d), Stores(q, lens, n, b), q.reqs[b].row[k];
    IdealFits(q, lens, n, Ps, ins, m0, b, d);
    assert ScheduledAt(q, lens, n, b);
    hide ProgramOf, Stores, Cell, Scheduled, Supplied, Checkpoints, Furnished, Active, GoodChunks, RestKept, TokensIn, Outputs, Start;
    var col0, s, toks := Column(m0.ssm, n, q.dims, d), Start(pr, m0), Tokens(pr, m0);
    ColumnCheckpoints(m0.ssm, n, q.dims, d, Ps[d], s, toks, lens[b], slots, pr.cells, |lens[b]|, slot);
    if slot in slots {
      var c :| 0 <= c < |slots| && slots[c] == slot;
      assert pr.cells[c] == Cell(slot, q.dims, d);
    } else {
      forall c | 0 <= c < |q.reqs| ensures slot !in Stores(q, lens, n, c) {
        if c != b { assert Spares(Stores(q, lens, n, c), q.reqs[b].row); }
      }
      SparedCell(q, lens, n, Ps, ins, m0, m, slot, d);
      OtherSlots(col0, Ps[d], s, toks, lens[b], slots, |lens[b]|, slot);
    }
  }

  /**
   What a launch means for an active request, whatever the interleaving: the cache holds what it
   promises for the longer prefix, in every dimension.
   */
  lemma {:induction false} LaunchServes(q: Batch, lens: seq<seq<nat>>, n: nat, Ps: seq<Params>, ins: seq<seq<Inputs>>,
                                        m0: Memory, m: Memory, b: nat, d: nat, all: seq<Token>)
    requires Ready(q, lens, n, Ps, ins, m0) && b < |q.reqs| && d < q.dims && Continues(q, lens, n, Ps, ins, m0, b, d, all)
    requires After(q, lens, n, Ps, ins, m0, m, b, d)
    ensures |m.ssm| == n * q.dims
    ensures CacheHolds(Ps[d], all, q.reqs[b].computed + TokensOf(q.queryStart, b), q.size, q.reqs[b].row, Column(m.ssm, n, q.dims, d))
  {
    hide ProgramOf, Stores, Cell, Scheduled, Supplied, Furnished, Active, GoodChunks, TokensIn, Outputs, GatedOutputs, Fold, Start, Exclusive;
    hide Done, RestKept, Programs, Fitting, CacheHolds, DistinctRow, CallSlots, Loaded, Checkpoints, Tokens, Ideal, BlockComputed, Fits;
    Sizes(q, lens, n, Ps, ins, m0);
    IdealHolds(q, lens, n, Ps, ins, m0, b, d, all);
    var r, ideal, col := q.reqs[b], Ideal(q, lens, n, Ps, ins, m0, b, d), Column(m.ssm, n, q.dims, d);
    forall k | 0 <= k < |r.row| ensures r.row[k] < n && col[r.row[k]] == ideal[r.row[k]] {
      RowAfter(q, lens, n, Ps, ins, m0, m, b, d, k);
    }
    CacheAgrees(Ps[d], all, r.computed + TokensOf(q.queryStart, b), q.size, r.row, ideal, col);
  }

  /** ... and the buffers hold that stretch of one uninterrupted scan, in every dimension. */
  lemma {:induction false} LaunchOutputs(q: Batch, lens: seq<seq<nat>>, n: nat, Ps: seq<Params>, ins: seq<seq<Inputs>>,
                                         m0: Memory, m: Memory, b: nat, d: nat, all: seq<Token>)
    requires Ready(q, lens, n, Ps, ins, m0) && b < |q.reqs| && d < q.dims && Continues(q, lens, n, Ps, ins, m0, b, d, all)
    requires After(q, lens, n, Ps, ins, m0, m, b, d)
    ensures AllFit(Ps[d], all) && Written(q, Ps[d], m, b, d, all)
  {
    Sizes(q, lens, n, Ps, ins, m0);
    ActiveProgram(q, lens, n, Ps, ins, m0, b, d);
    StartsRight(q, lens, n, Ps, ins, m0, b, d, all);
    hide ProgramOf, Stores, Cell, Scheduled, Supplied, Furnished, Active, GoodChunks, TokensIn, Outputs, GatedOutputs, Fold, Start, Exclusive;
    hide Done, RestKept, Programs, Fitting, CacheHolds, Written, Base, Tokens;
    DoneIsWritten(q, ProgramOf(q, lens, n, Ps, ins, b, d), m0, m, b, d, all);
  }

  lemma {:induction false} DoneIsWritten(q: Batch, pr: Program, m0: Memory, m: Memory, b: nat, d: nat, all: seq<Token>)
    requires Fitting(pr, m0) && Fitting(pr, m) && |m.ssm| == |m0.ssm| && Done(pr, m0, m) && AllFit(pr.P, all)
    requires b < |q.reqs| && b + 1 < |q.queryStart| && Increasing(q.queryStart)
    requires pr.lay == Layout(Base(q.arr, q.queryStart, b, d), Base(q.zArr, q.queryStart, b, d), q.hasZ)
    requires |pr.ins.u| == TokensOf(q.queryStart, b) && q.reqs[b].computed + |pr.ins.u| <= |all|
    requires var i, t := q.reqs[b].computed, TokensOf(q.queryStart, b);
      && Outputs(pr.P, Start(pr, m0), Tokens(pr, m0)) == Outputs(pr.P, Rest(|pr.P.A|), all)[i..i + t]
      && GatedOutputs(pr.P, Start(pr, m0), Tokens(pr, m0)) == GatedOutputs(pr.P, Rest(|pr.P.A|), all)[i..i + t]
    ensures Written(q, pr.P, m, b, d, all)
  {
    hide Outputs, GatedOutputs, Base, Start, Tokens, Checkpoints, Sum, WellFormed, StatesFit, Fits;
  }

  lemma Sizes(q: Batch, lens: seq<seq<nat>>, n: nat, Ps: seq<Params>, ins: seq<seq<Inputs>>, m: Memory)
    requires Scheduled(q, lens, n) && Supplied(q, Ps, ins) && Furnished(q, n, Ps, m)
    ensures q.size > 0 && |q.queryStart| == |q.reqs| + 1 && Increasing(q.queryStart) && |lens| == |q.reqs|
    ensures |Ps| == q.dims && |ins| == |q.reqs| && |m.ssm| == n * q.dims
    ensures forall b :: 0 <= b < |ins| ==> |ins[b]| == q.dims
  {
  }

  /** The outputs of the request's new tokens are those of one scan of all its tokens. */
  ghost predicate Written(q: Batch, P: Params, m: Memory, b: nat, d: nat, all: seq<Token>)
    requires AllFit(P, all) && b + 1 < |q.queryStart| && b < |q.reqs| && Increasing(q.queryStart)
  {
    var i, t := q.reqs[b].computed, TokensOf(q.queryStart, b);
    var p, z := Base(q.arr, q.queryStart, b, d), Base(q.zArr, q.queryStart, b, d);
    && i + t <= |all| && p + t <= |m.delta| && m.delta[p..p + t] == Outputs(P, Rest(|P.A|), all)[i..i + t]
    && (q.hasZ ==> z + t <= |m.z| && m.z[z..z + t] == GatedOutputs(P, Rest(|P.A|), all)[i..i + t])
  }

  /** The slots that the kernel computes from the batch's metadata are the ones above. */
  lemma PlanIsStores(q: Batch, lens: seq<seq<nat>>, n: nat, cu: seq<nat>, last: seq<int>, b: nat, pos: nat)
    requires Scheduled(q, lens, n) && b < |q.reqs| && Active(q, b) && |last| == |q.reqs| && Segment(cu, last, b, lens[b], pos)
    ensures var r, t := q.reqs[b], TokensOf(q.queryStart, b);
      && t > 0 && 0 <= FirstChunk(last, b) <= last[b] + 1
      && var plan := PlanOf(q.size, cu, last, b, r.computed, t, r.row, q.nullBlock, BlockComputed(r.computed, q.size));
      && PlanFits(plan, lens[b], t, n) && Slots(plan, lens[b], t, n) == Stores(q, lens, n, b)
      && plan.row[plan.initIdx] == r.row[BlockComputed(r.computed, q.size)]
  {
    assert ScheduledAt(q, lens, n, b);
    var r, t := q.reqs[b], TokensOf(q.queryStart, b);
    PlanReady(cu, last, b, lens[b], pos);
    StoresAre(q, lens, n, b);
    PlanSlots(r.computed, t, q.size, r.row, q.nullBlock, n, cu, last, b, lens[b], pos);
    PlanLoads(q.size, cu, last, b, r.computed, t, r.row, q.nullBlock);
    hide Segment, GoodChunks, PlanFits, PlanOf, Slots, Stores, BlockComputed, BlockLast, Scheduled;
  }
}
