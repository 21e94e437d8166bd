/**
 A launch of the scan kernel without prefix caching: each sequence has one slot of the state cache,
 named by `cache_indices` or by its own index, that it starts from and that takes its last state.
 */
module ScanDirect {
  import opened Basics
  import opened Sums
  import opened ScanSpec
  import opened ScanKernel
  import opened ScanChunks
  import opened ScanProgram
  import opened ScanPrefix
  import opened ScanGrid
  import opened ScanLaunch

  /** The slots are those of `cache_indices`; without them sequence `b` has slot `b`, and there is no null block. */
  datatype Direct = Direct(
    slots: seq<nat>, nullBlock: Option<nat>, hasInit: seq<bool>, queryStart: seq<nat>, dims: nat,
    arr: Arrangement, zArr: Arrangement, hasZ: bool)

  predicate Works(q: Direct, b: nat)
    requires b < |q.slots|
  {
    q.nullBlock != Some(q.slots[b])
  }

  /** The batch as the kernel is given it, for a state cache of `n` slots. */
  ghost predicate Laid(q: Direct, n: nat) {
    && q.dims > 0 && |q.queryStart| == |q.slots| + 1 && Increasing(q.queryStart) && |q.hasInit| == |q.slots|
    && Roomy(q.arr, q.queryStart, q.dims) && Roomy(q.zArr, q.queryStart, q.dims)
    && forall b :: 0 <= b < |q.slots| && Works(q, b) ==> q.slots[b] < n
  }

  /** There are parameters for every dimension, and inputs for every sequence and dimension. */
  ghost predicate Stocked(q: Direct, Ps: seq<Params>, ins: seq<seq<Inputs>>)
    requires |q.queryStart| == |q.slots| + 1 && Increasing(q.queryStart)
  {
    && |Ps| == q.dims && |ins| == |q.slots|
    && (forall d, e :: 0 <= d < |Ps| && 0 <= e < |Ps| ==> |Ps[d].A| == |Ps[e].A|)
    && (forall b :: 0 <= b < |ins| ==> |ins[b]| == q.dims)
    && (forall b, d :: 0 <= b < |ins| && 0 <= d < |ins[b]| ==>
          WellFormed(Ps[d], ins[b][d]) && |ins[b][d].u| == TokensOf(q.queryStart, b))
  }

  /** No two sequences that work have the same slot. */
  predicate OwnSlots(q: Direct) {
    forall b, c :: 0 <= b < c < |q.slots| && Works(q, b) && Works(q, c) ==> q.slots[b] != q.slots[c]
  }

  /** The program of sequence `b` and dimension `d`: one chunk, and one cell for its last state. */
  ghost function DirectProgram(q: Direct, n: nat, Ps: seq<Params>, ins: seq<seq<Inputs>>, b: nat, d: nat): (pr: Program)
    requires Laid(q, n) && Stocked(q, Ps, ins) && b < |q.slots| && d < q.dims
  {
    if Works(q, b) then
      var cell := Cell(q.slots[b], q.dims, d);
      Program(Ps[d], ins[b][d], Layout(Base(q.arr, q.queryStart, b, d), Base(q.zArr, q.queryStart, b, d), q.hasZ),
              if q.hasInit[b] then Some(cell) else None, [TokensOf(q.queryStart, b)], [cell])
    else Program(Ps[d], Inputs([], [], []), Layout(0, 0, q.hasZ), None, [], [])
  }

  lemma DirectSeparate(q: Direct, n: nat, Ps: seq<Params>, ins: seq<seq<Inputs>>, b: nat, d: nat, c: nat, e: nat)
    requires Laid(q, n) && Stocked(q, Ps, ins) && OwnSlots(q)
    requires b < |q.slots| && c < |q.slots| && d < q.dims && e < q.dims && (b != c || d != e)
    ensures Separate(DirectProgram(q, n, Ps, ins, b, d), DirectProgram(q, n, Ps, ins, c, e))
  {
    BasesApart(q.arr, q.queryStart, q.dims, b, d, c, e);
    BasesApart(q.zArr, q.queryStart, q.dims, b, d, c, e);
    CellsDiffer(q.slots[b], d, q.slots[c], e, q.dims);
    hide Base, Roomy, Cell;
  }

  /** The grid, in the order of the sequences. */
  ghost function DirectPrograms(q: Direct, n: nat, Ps: seq<Params>, ins: seq<seq<Inputs>>): (progs: seq<Program>)
    requires Laid(q, n) && Stocked(q, Ps, ins)
    ensures |progs| == |q.slots| * q.dims
  {
    seq(|q.slots| * q.dims, i requires 0 <= i < |q.slots| * q.dims => DirectAt(q, n, Ps, ins, i))
  }

  ghost function DirectAt(q: Direct, n: nat, Ps: seq<Params>, ins: seq<seq<Inputs>>, i: nat): (pr: Program)
    requires Laid(q, n) && Stocked(q, Ps, ins) && i < |q.slots| * q.dims
  {
    IndexPair(i, q.dims, |q.slots|);
    DirectProgram(q, n, Ps, ins, BatchIndex(i, q.dims), DimIndex(i, q.dims))
  }

  lemma DirectIndex(q: Direct, n: nat, Ps: seq<Params>, ins: seq<seq<Inputs>>, b: nat, d: nat)
    requires Laid(q, n) && Stocked(q, Ps, ins) && b < |q.slots| && d < q.dims
    ensures var i := Cell(b, q.dims, d);
      i < |q.slots| * q.dims && DirectPrograms(q, n, Ps, ins)[i] == DirectProgram(q, n, Ps, ins, b, d)
  {
    hide DirectProgram;
    var i := Cell(b, q.dims, d);
    CellInside(b, d, q.dims, |q.slots|);
    IndexPair(i, q.dims, |q.slots|);
    CellsDiffer(b, d, BatchIndex(i, q.dims), DimIndex(i, q.dims), q.dims);
  }

  lemma DirectPair(q: Direct, n: nat, Ps: seq<Params>, ins: seq<seq<Inputs>>, i: nat, j: nat)
    requires Laid(q, n) && Stocked(q, Ps, ins) && OwnSlots(q)
    requires i < |q.slots| * q.dims && j < |q.slots| * q.dims && i != j
    ensures Separate(DirectAt(q, n, Ps, ins, i), DirectAt(q, n, Ps, ins, j))
  {
    hide DirectProgram, Separate, BatchIndex, DimIndex, Stocked, OwnSlots;
    PairsDiffer(i, j, q.dims, |q.slots|);
    DirectSeparate(q, n, Ps, ins, BatchIndex(i, q.dims), DimIndex(i, q.dims), BatchIndex(j, q.dims), DimIndex(j, q.dims));
  }

  /** The programs of a launch keep out of each other's way if and only if the sequences that work have slots of their own. */
  lemma DirectDisjointIff(q: Direct, n: nat, Ps: seq<Params>, ins: seq<seq<Inputs>>)
    requires Laid(q, n) && Stocked(q, Ps, ins)
    ensures Disjoint(DirectPrograms(q, n, Ps, ins)) <==> OwnSlots(q)
  {
    var progs := DirectPrograms(q, n, Ps, ins);
    if OwnSlots(q) {
      hide DirectAt, Separate;
      forall i, j | 0 <= i < |progs| && 0 <= j < |progs| && i != j ensures Separate(progs[i], progs[j]) {
        DirectPair(q, n, Ps, ins, i, j);
      }
    } else {
      var b, c :| 0 <= b < c < |q.slots| && Works(q, b) && Works(q, c) && q.slots[b] == q.slots[c];
      SharedSlot(q, n, Ps, ins, b, c);
    }
  }

  /** Two sequences with one slot: both store their last state to the same cells. */
  lemma SharedSlot(q: Direct, n: nat, Ps: seq<Params>, ins: seq<seq<Inputs>>, b: nat, c: nat)
    requires Laid(q, n) && Stocked(q, Ps, ins) && b < c < |q.slots|
    requires Works(q, b) && Works(q, c) && q.slots[b] == q.slots[c]
    ensures !Disjoint(DirectPrograms(q, n, Ps, ins))
  {
    DirectIndex(q, n, Ps, ins, b, 0);
    DirectIndex(q, n, Ps, ins, c, 0);
    CellsDiffer(b, 0, c, 0, q.dims);
    var progs, i, j := DirectPrograms(q, n, Ps, ins), Cell(b, q.dims, 0), Cell(c, q.dims, 0);
    assert progs[i].cells[0] == progs[j].cells[0] && progs[j].cells[0] in progs[i].cells;
    hide Cell, DirectPrograms, DirectProgram;
    assert !Separate(progs[i], progs[j]);
  }

  /** The buffers hold every sequence, and the cache one vector per slot and dimension. */
  ghost predicate Equipped(q: Direct, n: nat, Ps: seq<Params>, m: Memory)
    requires |q.queryStart| == |q.slots| + 1 && Increasing(q.queryStart)
  {
    && |m.ssm| == n * q.dims && (forall d :: 0 <= d < |Ps| ==> StatesFit(Ps[d], m.ssm))
    && (forall b, d :: 0 <= b < |q.slots| && 0 <= d < q.dims ==>
          Base(q.arr, q.queryStart, b, d) + TokensOf(q.queryStart, b) <= |m.delta|)
    && (q.hasZ ==> forall b, d :: 0 <= b < |q.slots| && 0 <= d < q.dims ==>
          Base(q.zArr, q.queryStart, b, d) + TokensOf(q.queryStart, b) <= |m.z|)
  }

  lemma DirectFits(q: Direct, n: nat, Ps: seq<Params>, ins: seq<seq<Inputs>>, m: Memory, b: nat, d: nat)
    requires Laid(q, n) && Stocked(q, Ps, ins) && Equipped(q, n, Ps, m) && b < |q.slots| && d < q.dims
    ensures var pr := DirectProgram(q, n, Ps, ins, b, d); Fitting(pr, m) && pr.P == Ps[d]
  {
    if Works(q, b) {
      CellInside(q.slots[b], d, q.dims, n);
      OffsetStep([TokensOf(q.queryStart, b)], 0);
      OffsetEnds([TokensOf(q.queryStart, b)]);
    }
    hide Base, Roomy, Cell, StatesFit;
    assert WellFormed(Ps[d], ins[b][d]);
  }

  /** Everything is as it should be before a launch. */
  ghost predicate Set(q: Direct, n: nat, Ps: seq<Params>, ins: seq<seq<Inputs>>, m: Memory) {
    Laid(q, n) && Stocked(q, Ps, ins) && OwnSlots(q) && Equipped(q, n, Ps, m)
  }

  /** The state that sequence `b` starts from, in dimension `d`. */
  ghost function From(q: Direct, n: nat, Ps: seq<Params>, ins: seq<seq<Inputs>>, m: Memory, b: nat, d: nat): (s: State)
    requires Set(q, n, Ps, ins, m) && b < |q.slots| && d < q.dims && Works(q, b)
    ensures |s| == |Ps[d].A|
  {
    assert StatesFit(Ps[d], m.ssm);
    if q.hasInit[b] then StateAt(m.ssm, n, q.dims, q.slots[b], d) else Rest(|Ps[d].A|)
  }

  ghost function TokensFor(q: Direct, n: nat, Ps: seq<Params>, ins: seq<seq<Inputs>>, m: Memory, b: nat, d: nat): (toks: seq<Token>)
    requires Set(q, n, Ps, ins, m) && b < |q.slots| && d < q.dims && Works(q, b)
    ensures |toks| == TokensOf(q.queryStart, b) && AllFit(Ps[d], toks)
  {
    DirectFits(q, n, Ps, ins, m, b, d);
    Tokens(DirectProgram(q, n, Ps, ins, b, d), m)
  }

  /** The outputs of sequence `b` are in place, and its slot holds its last state. */
  ghost predicate Answered(q: Direct, n: nat, Ps: seq<Params>, ins: seq<seq<Inputs>>, m0: Memory, m: Memory, b: nat, d: nat)
    requires Set(q, n, Ps, ins, m0) && b < |q.slots| && d < q.dims && Works(q, b)
  {
    var s, toks := From(q, n, Ps, ins, m0, b, d), TokensFor(q, n, Ps, ins, m0, b, d);
    var p, z := Base(q.arr, q.queryStart, b, d), Base(q.zArr, q.queryStart, b, d);
    && p + |toks| <= |m.delta| && m.delta[p..p + |toks|] == Outputs(Ps[d], s, toks)
    && (q.hasZ ==> z + |toks| <= |m.z| && m.z[z..z + |toks|] == GatedOutputs(Ps[d], s, toks))
    && |m.ssm| == n * q.dims && StateAt(m.ssm, n, q.dims, q.slots[b], d) == Fold(Ps[d], s, toks)
  }

  lemma {:induction false} DoneIsAnswered(q: Direct, n: nat, Ps: seq<Params>, ins: seq<seq<Inputs>>, m0: Memory, m: Memory, b: nat, d: nat)
    requires Set(q, n, Ps, ins, m0) && b < |q.slots| && d < q.dims && Works(q, b) && |m.ssm| == |m0.ssm|
    requires var pr := DirectProgram(q, n, Ps, ins, b, d); Fitting(pr, m0) && Fitting(pr, m) && Done(pr, m0, m)
    ensures Answered(q, n, Ps, ins, m0, m, b, d)
  {
    var pr := DirectProgram(q, n, Ps, ins, b, d);
    LastCheckpoint(pr, m0);
    DirectStart(q, n, Ps, ins, m0, b, d);
    hide Fold, Outputs, GatedOutputs, Checkpoints, TokensIn, Base, Cell, Sum, Offset, Roomy, Start, From, WellFormed, Equipped, OwnSlots;
  }

  /** With one chunk the checkpoint is the last state. */
  lemma LastCheckpoint(pr: Program, m: Memory)
    requires Fitting(pr, m) && |pr.lens| == 1
    ensures var s, toks := Start(pr, m), Tokens(pr, m);
      Checkpoints(m.ssm, pr.P, s, toks, pr.lens, pr.cells, 1)[pr.cells[0]] == Fold(pr.P, s, toks)
  {
    var s, toks := Start(pr, m), Tokens(pr, m);
    CheckpointHolds(m.ssm, pr.P, s, toks, pr.lens, pr.cells, 1, 0);
    OffsetEnds(pr.lens);
    assert toks[..|toks|] == toks;
  }

  lemma DirectStart(q: Direct, n: nat, Ps: seq<Params>, ins: seq<seq<Inputs>>, m: Memory, b: nat, d: nat)
    requires Set(q, n, Ps, ins, m) && b < |q.slots| && d < q.dims && Works(q, b)
    ensures var pr := DirectProgram(q, n, Ps, ins, b, d);
      && Fitting(pr, m) && Start(pr, m) == From(q, n, Ps, ins, m, b, d) && Tokens(pr, m) == TokensFor(q, n, Ps, ins, m, b, d)
  {
    DirectFits(q, n, Ps, ins, m, b, d);
    hide TokensIn, Base, Cell, Roomy;
  }

  /** What no sequence has asked for stays: the cells of slots that no working sequence has. */
  ghost predicate SlotKept(q: Direct, n: nat, m0: Memory, m: Memory, slot: nat, d: nat)
    requires |m.ssm| == |m0.ssm| == n * q.dims && slot < n && d < q.dims
  {
    StateAt(m.ssm, n, q.dims, slot, d) == StateAt(m0.ssm, n, q.dims, slot, d)
  }

  lemma DirectKeeps(q: Direct, n: nat, Ps: seq<Params>, ins: seq<seq<Inputs>>, m0: Memory, m: Memory, slot: nat, d: nat)
    requires Laid(q, n) && Stocked(q, Ps, ins) && |m.ssm| == |m0.ssm| == n * q.dims && slot < n && d < q.dims
    requires RestKept(DirectPrograms(q, n, Ps, ins), m0, m)
    requires forall b :: 0 <= b < |q.slots| && Works(q, b) ==> q.slots[b] != slot
    ensures SlotKept(q, n, m0, m, slot, d)
  {
    var progs := DirectPrograms(q, n, Ps, ins);
    CellInside(slot, d, q.dims, n);
    forall i | 0 <= i < |progs| ensures Cell(slot, q.dims, d) !in progs[i].cells {
      IndexPair(i, q.dims, |q.slots|);
      var b, e := BatchIndex(i, q.dims), DimIndex(i, q.dims);
      CellsDiffer(slot, d, q.slots[b], e, q.dims);
      hide Cell, BatchIndex, DimIndex;
    }
  }

  lemma DirectSane(q: Direct, n: nat, Ps: seq<Params>, ins: seq<seq<Inputs>>, m: Memory)
    requires Laid(q, n) && Stocked(q, Ps, ins) && Equipped(q, n, Ps, m)
    ensures Sane(DirectPrograms(q, n, Ps, ins), Launch(DirectPrograms(q, n, Ps, ins)), m)
  {
    hide DirectProgram, Equipped, Fitting, BatchIndex, DimIndex, Roomy;
    var progs := DirectPrograms(q, n, Ps, ins);
    forall i | 0 <= i < |progs| ensures Fitting(progs[i], m) && |progs[i].P.A| == |Ps[0].A| {
      IndexPair(i, q.dims, |q.slots|);
      DirectFits(q, n, Ps, ins, m, BatchIndex(i, q.dims), DimIndex(i, q.dims));
    }
  }

  /**
   Whatever the interleaving, a launch gives every sequence that works, in every dimension, the outputs
   of one scan from the state that its slot held (or from zeros) and leaves its last state there; the
   slots of no such sequence are as they were.
   */
  lemma DirectLaunch(q: Direct, n: nat, Ps: seq<Params>, ins: seq<seq<Inputs>>, m0: Memory, schedule: seq<nat>, m: Memory)
    requires Set(q, n, Ps, ins, m0) && Completes(DirectPrograms(q, n, Ps, ins), m0, schedule, m)
    ensures |m.ssm| == |m0.ssm| == n * q.dims && RestKept(DirectPrograms(q, n, Ps, ins), m0, m)
    ensures forall b, d :: 0 <= b < |q.slots| && 0 <= d < q.dims && q.nullBlock != Some(q.slots[b]) ==> Answered(q, n, Ps, ins, m0, m, b, d)
    ensures forall slot, d :: 0 <= slot < n && 0 <= d < q.dims && (forall b :: 0 <= b < |q.slots| && q.nullBlock != Some(q.slots[b]) ==> q.slots[b] != slot) ==>
      SlotKept(q, n, m0, m, slot, d)
  {
    var progs := DirectPrograms(q, n, Ps, ins);
    DirectDisjointIff(q, n, Ps, ins);
    EveryInterleaving(progs, m0, schedule);
    hide OnTrack, Interleave, Done, DirectPrograms, DirectProgram, Fitting, Laid, Stocked, Equipped, OwnSlots, Disjoint, Answered, SlotKept, RestKept;
    DirectLength(q, n, Ps, ins, m0);
    forall b, d | 0 <= b < |q.slots| && 0 <= d < q.dims && Works(q, b) ensures Answered(q, n, Ps, ins, m0, m, b, d) {
      DirectIndex(q, n, Ps, ins, b, d);
      InPlaceIsSafe(progs, m0, schedule, Cell(b, q.dims, d));
      DoneIsAnswered(q, n, Ps, ins, m0, m, b, d);
    }
    forall slot, d | 0 <= slot < n && 0 <= d < q.dims && (forall b :: 0 <= b < |q.slots| && Works(q, b) ==> q.slots[b] != slot)
      ensures SlotKept(q, n, m0, m, slot, d)
    {
      DirectKeeps(q, n, Ps, ins, m0, m, slot, d);
    }
  }

  /** No launch gets stuck: with enough turns for everyone, in any order, it completes. */
  lemma DirectFinishes(q: Direct, n: nat, Ps: seq<Params>, ins: seq<seq<Inputs>>, m: Memory, schedule: seq<nat>)
    requires Set(q, n, Ps, ins, m) && Fair(DirectPrograms(q, n, Ps, ins), schedule)
    ensures exists m' :: Completes(DirectPrograms(q, n, Ps, ins), m, schedule, m')
  {
    DirectSane(q, n, Ps, ins, m);
    DirectDisjointIff(q, n, Ps, ins);
    hide DirectPrograms, Set, Sane, Fair, Disjoint, Completes;
    FairCompletes(DirectPrograms(q, n, Ps, ins), m, schedule);
  }

  lemma DirectLength(q: Direct, n: nat, Ps: seq<Params>, ins: seq<seq<Inputs>>, m: Memory)
    requires Set(q, n, Ps, ins, m)
    ensures |m.ssm| == n * q.dims && |DirectPrograms(q, n, Ps, ins)| == |q.slots| * q.dims
  {
  }

  // ----- one sequence over many launches -----

  /** The slot holds the state after the first `computed` tokens. */
  ghost predicate SlotHolds(P: Params, all: seq<Token>, computed: nat, ssm: seq<State>, n: nat, dims: nat, slot: nat, d: nat)
    requires |ssm| == n * dims && slot < n && d < dims && AllFit(P, all)
  {
    computed <= |all| && (computed > 0 ==> StateAt(ssm, n, dims, slot, d) == Fold(P, Rest(|P.A|), all[..computed]))
  }

  /** A launch in which sequence `b` goes on with its next tokens. */
  ghost predicate GoesOn(q: Direct, n: nat, Ps: seq<Params>, ins: seq<seq<Inputs>>, m: Memory, b: nat, d: nat,
                         all: seq<Token>, computed: nat, slot: nat)
    requires Set(q, n, Ps, ins, m) && d < q.dims
  {
    && b < |q.slots| && Works(q, b) && q.slots[b] == slot && q.hasInit[b] == (computed > 0)
    && computed + TokensOf(q.queryStart, b) <= |all|
    && TokensFor(q, n, Ps, ins, m, b, d) == all[computed..computed + TokensOf(q.queryStart, b)]
  }

  /** Its outputs are that stretch of one scan of all its tokens, and its slot then holds the state after them. */
  lemma {:induction false} DirectContinues(q: Direct, n: nat, Ps: seq<Params>, ins: seq<seq<Inputs>>, m0: Memory, m: Memory, b: nat, d: nat,
                                           all: seq<Token>, computed: nat, slot: nat)
    requires Set(q, n, Ps, ins, m0) && d < q.dims && slot < n && AllFit(Ps[d], all)
    requires GoesOn(q, n, Ps, ins, m0, b, d, all, computed, slot) && SlotHolds(Ps[d], all, computed, m0.ssm, n, q.dims, slot, d)
    requires Answered(q, n, Ps, ins, m0, m, b, d)
    ensures var t, p, z := TokensOf(q.queryStart, b), Base(q.arr, q.queryStart, b, d), Base(q.zArr, q.queryStart, b, d);
      && |m.ssm| == n * q.dims && (t > 0 ==> SlotHolds(Ps[d], all, computed + t, m.ssm, n, q.dims, slot, d))
      && p + t <= |m.delta| && m.delta[p..p + t] == Outputs(Ps[d], Rest(|Ps[d].A|), all)[computed..computed + t]
      && (q.hasZ ==> z + t <= |m.z| && m.z[z..z + t] == GatedOutputs(Ps[d], Rest(|Ps[d].A|), all)[computed..computed + t])
  {
    hide Fold, Outputs, GatedOutputs, TokensFor, Base, Cell, Laid, Stocked, Equipped, OwnSlots, Fits;
    DirectLength(q, n, Ps, ins, m0);
    DirectSizes(q, n, Ps, ins, m0);
    var P, t, s := Ps[d], TokensOf(q.queryStart, b), From(q, n, Ps, ins, m0, b, d);
    var zero := Rest(|P.A|);
    if computed == 0 { NothingYet(P, zero, all); }
    assert s == Fold(P, zero, all[..computed]);
    CallOutputs(P, all, computed, t);
    GatedStretch(P, s, all, computed, t);
    FoldSplit(P, zero, all[..computed], all[computed..computed + t]);
    assert all[..computed] + all[computed..computed + t] == all[..computed + t];
  }

  lemma DirectSizes(q: Direct, n: nat, Ps: seq<Params>, ins: seq<seq<Inputs>>, m: Memory)
    requires Set(q, n, Ps, ins, m)
    ensures |q.queryStart| == |q.slots| + 1 && Increasing(q.queryStart) && |q.hasInit| == |q.slots| && |Ps| == q.dims
  {
  }
}
