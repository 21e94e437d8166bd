/**
 The whole launch: one program per (sequence, dimension), all running at once on the same buffers and
 the same state cache, and writing their outputs over their inputs. A schedule is any interleaving of
 single loads and stores.
 */
module ScanGrid {
  import opened Basics
  import opened Sums
  import opened ScanSpec
  import opened ScanKernel
  import opened ScanProgram

  /**
   One program: its parameters, inputs and place in the buffers; the cell of the state cache that it
   loads, if any; its chunks, and the cell that takes the state after each one.
   */
  datatype Program = Program(P: Params, ins: Inputs, lay: Layout, load: Option<nat>, lens: seq<nat>, cells: seq<nat>)

  /** What a program is about to do. */
  datatype Phase =
    | LoadState
    | LoadDelta
    | StoreOut(delta: real)
    | LoadZ(y: real)
    | StoreZ(y: real, z: real)
    | StoreState
    | Finished

  datatype Local = Local(pos: nat, chunk: nat, state: State, phase: Phase)

  /** The buffers, and one state vector per (slot, dimension). */
  datatype Memory = Memory(delta: seq<real>, z: seq<real>, ssm: seq<State>)

  ghost predicate Fitting(pr: Program, m: Memory) {
    && WellFormed(pr.P, pr.ins) && StatesFit(pr.P, m.ssm)
    && pr.lay.base + |pr.ins.u| <= |m.delta|
    && (pr.lay.hasZ ==> pr.lay.zBase + |pr.ins.u| <= |m.z|)
    && |pr.cells| == |pr.lens| && Sum(pr.lens) == |pr.ins.u|
    && (pr.load.Some? ==> pr.load.value < |m.ssm|)
    && (forall c :: 0 <= c < |pr.cells| ==> pr.cells[c] < |m.ssm|)
  }

  /** Where a program goes on after a token or a chunk. */
  function Onward(pr: Program, pos: nat, chunk: nat): (ph: Phase) {
    if chunk >= |pr.lens| then Finished
    else if pos >= Offset(pr.lens, chunk + 1) then StoreState
    else LoadDelta
  }

  /** One load or store of one program; a finished program does nothing. */
  ghost function Micro(pr: Program, l: Local, m: Memory): (r: (Local, Memory))
    requires Fitting(pr, m) && |l.state| == |pr.P.A|
    ensures |r.0.state| == |pr.P.A| && |r.1.delta| == |m.delta| && |r.1.z| == |m.z| && |r.1.ssm| == |m.ssm|
    ensures StatesFit(pr.P, r.1.ssm)
  {
    var pos, chunk := l.pos, l.chunk;
    match l.phase
    case LoadState => (Local(0, 0, Start(pr, m), Onward(pr, 0, 0)), m)
    case LoadDelta =>
      if pos < |pr.ins.u| then (l.(phase := StoreOut(m.delta[pr.lay.base + pos])), m) else (l, m)
    case StoreOut(d) =>
      if pos < |pr.ins.u| then
        var t := Token(pr.ins.u[pos], d, 0.0, pr.ins.B[pos], pr.ins.C[pos]);
        var state := Step(pr.P, l.state, t);
        var y := Emit(pr.P, state, t);
        var m' := m.(delta := m.delta[pr.lay.base + pos := y]);
        if pr.lay.hasZ then (Local(pos, chunk, state, LoadZ(y)), m')
        else (Local(pos + 1, chunk, state, Onward(pr, pos + 1, chunk)), m')
      else (l, m)
    case LoadZ(y) =>
      if pr.lay.hasZ && pos < |pr.ins.u| then (l.(phase := StoreZ(y, m.z[pr.lay.zBase + pos])), m) else (l, m)
    case StoreZ(y, z) =>
      if pr.lay.hasZ && pos < |pr.ins.u| then
        (Local(pos + 1, chunk, l.state, Onward(pr, pos + 1, chunk)),
         m.(z := m.z[pr.lay.zBase + pos := Gate(pr.P, y, z)]))
      else (l, m)
    case StoreState =>
      if chunk < |pr.lens| then
        (Local(pos, chunk + 1, l.state, Onward(pr, pos, chunk + 1)), m.(ssm := m.ssm[pr.cells[chunk] := l.state]))
      else (l, m)
    case Finished => (l, m)
  }

  /** The state that a program starts from. */
  ghost function Start(pr: Program, m: Memory): (s: State)
    requires Fitting(pr, m)
    ensures |s| == |pr.P.A|
  {
    if pr.load.Some? then m.ssm[pr.load.value] else Rest(|pr.P.A|)
  }

  function Launch(progs: seq<Program>): (locals: seq<Local>)
    ensures |locals| == |progs|
  {
    seq(|progs|, i requires 0 <= i < |progs| => Local(0, 0, Rest(|progs[i].P.A|), LoadState))
  }

  ghost predicate Sane(progs: seq<Program>, locals: seq<Local>, m: Memory) {
    && |locals| == |progs|
    && (forall i :: 0 <= i < |progs| ==> Fitting(progs[i], m) && |locals[i].state| == |progs[i].P.A|)
    && (forall i, j :: 0 <= i < |progs| && 0 <= j < |progs| ==> |progs[i].P.A| == |progs[j].P.A|)
  }

  lemma SaneStep(progs: seq<Program>, locals: seq<Local>, m: Memory, i: nat)
    requires Sane(progs, locals, m) && i < |progs|
    ensures var (l, m') := Micro(progs[i], locals[i], m); Sane(progs, locals[i := l], m')
  {
    hide Micro;
  }

  /** The programs named by the schedule take their next steps in turn. */
  ghost function Interleave(progs: seq<Program>, locals: seq<Local>, m: Memory, schedule: seq<nat>): (r: (seq<Local>, Memory))
    requires Sane(progs, locals, m) && forall k :: 0 <= k < |schedule| ==> schedule[k] < |progs|
    ensures Sane(progs, r.0, r.1)
  {
    if schedule == [] then (locals, m)
    else
      var (ls, m1) := Interleave(progs, locals, m, schedule[..|schedule| - 1]);
      var i := schedule[|schedule| - 1];
      var (l, m2) := Micro(progs[i], ls[i], m1);
      SaneStep(progs, ls, m1, i);
      (ls[i := l], m2)
  }

  /** Two programs share no cell of either buffer, and neither stores to a cell that the other loads or stores. */
  ghost predicate Separate(a: Program, b: Program) {
    && Apart(a.lay.base, |a.ins.u|, b.lay.base, |b.ins.u|)
    && Apart(a.lay.zBase, |a.ins.u|, b.lay.zBase, |b.ins.u|)
    && (forall c :: 0 <= c < |b.cells| ==> b.cells[c] !in a.cells && a.load != Some(b.cells[c]))
  }

  ghost predicate Disjoint(progs: seq<Program>) {
    forall i, j :: 0 <= i < |progs| && 0 <= j < |progs| && i != j ==> Separate(progs[i], progs[j])
  }

  ghost function Tokens(pr: Program, m: Memory): (toks: seq<Token>)
    requires Fitting(pr, m)
    ensures |toks| == |pr.ins.u| && AllFit(pr.P, toks)
  {
    TokensIn(pr.ins, pr.lay, m.delta, m.z)
  }

  // ----- where a program stands, judged against the memory before the launch -----

  /** The output of position `j` has been stored already. */
  predicate OutDone(l: Local, j: nat) {
    j < l.pos || (j == l.pos && (l.phase.LoadZ? || l.phase.StoreZ?))
  }

  /** The position belongs to the current chunk. */
  predicate InChunk(pr: Program, l: Local) {
    l.chunk < |pr.lens| && Offset(pr.lens, l.chunk) <= l.pos < Offset(pr.lens, l.chunk + 1)
  }

  ghost predicate Registers(pr: Program, l: Local, s: State, toks: seq<Token>)
    requires |s| == |pr.P.A| && AllFit(pr.P, toks)
  {
    && l.pos <= |toks| && l.chunk <= |pr.lens|
    && match l.phase
       case LoadState => l.pos == 0 && l.chunk == 0
       case LoadDelta => InChunk(pr, l) && l.pos < |toks| && l.state == Fold(pr.P, s, toks[..l.pos])
       case StoreOut(d) =>
         InChunk(pr, l) && l.pos < |toks| && l.state == Fold(pr.P, s, toks[..l.pos]) && d == toks[l.pos].delta
       case LoadZ(y) =>
         && InChunk(pr, l) && l.pos < |toks| && pr.lay.hasZ
         && l.state == Fold(pr.P, s, toks[..l.pos + 1]) && y == Outputs(pr.P, s, toks)[l.pos]
       case StoreZ(y, z) =>
         && InChunk(pr, l) && l.pos < |toks| && pr.lay.hasZ
         && l.state == Fold(pr.P, s, toks[..l.pos + 1]) && y == Outputs(pr.P, s, toks)[l.pos]
         && z == toks[l.pos].z
       case StoreState =>
         l.chunk < |pr.lens| && l.pos == Offset(pr.lens, l.chunk + 1) && l.state == Fold(pr.P, s, toks[..l.pos])
       case Finished => l.chunk == |pr.lens| && l.pos == |toks|
  }

  ghost predicate Cells(pr: Program, l: Local, s: State, toks: seq<Token>, m: Memory)
    requires Fitting(pr, m) && |toks| == |pr.ins.u| && |s| == |pr.P.A| && AllFit(pr.P, toks)
  {
    && (forall j :: 0 <= j < |toks| ==>
          m.delta[pr.lay.base + j] == if OutDone(l, j) then Outputs(pr.P, s, toks)[j] else toks[j].delta)
    && (pr.lay.hasZ ==> forall j :: 0 <= j < |toks| ==>
          m.z[pr.lay.zBase + j] == if j < l.pos then Gate(pr.P, Outputs(pr.P, s, toks)[j], toks[j].z) else toks[j].z)
  }

  /** The program's cells of the cache hold the states after the chunks done so far. */
  ghost predicate StatesAt(pr: Program, l: Local, s: State, toks: seq<Token>, m0: Memory, m: Memory)
    requires Fitting(pr, m0) && Fitting(pr, m) && |m.ssm| == |m0.ssm|
    requires |toks| == |pr.ins.u| && |s| == |pr.P.A| && AllFit(pr.P, toks) && l.chunk <= |pr.lens|
  {
    && (forall c :: 0 <= c < |pr.cells| ==>
          m.ssm[pr.cells[c]] == Checkpoints(m0.ssm, pr.P, s, toks, pr.lens, pr.cells, l.chunk)[pr.cells[c]])
    && (l.phase.LoadState? && pr.load.Some? ==> m.ssm[pr.load.value] == m0.ssm[pr.load.value])
  }

  ghost predicate OnTrack(pr: Program, l: Local, m0: Memory, m: Memory)
    requires Fitting(pr, m0) && Fitting(pr, m) && |m.ssm| == |m0.ssm|
  {
    var s, toks := Start(pr, m0), Tokens(pr, m0);
    Registers(pr, l, s, toks) && Cells(pr, l, s, toks, m) && StatesAt(pr, l, s, toks, m0, m)
  }

  // ----- a program's own step -----

  /** Going on to the next position of the chunk, or to storing the state. */
  lemma OnwardToken(pr: Program, l: Local, s: State, toks: seq<Token>, l': Local)
    requires |s| == |pr.P.A| && AllFit(pr.P, toks) && Sum(pr.lens) == |toks| && InChunk(pr, l)
    requires l'.pos == l.pos + 1 && l'.chunk == l.chunk && l'.phase == Onward(pr, l.pos + 1, l.chunk)
    requires l.pos < |toks| && l'.state == Fold(pr.P, s, toks[..l.pos + 1])
    ensures Registers(pr, l', s, toks)
  {
    hide Fold, Sum, Outputs;
    OffsetMono(pr.lens, l.chunk + 1, |pr.lens|);
    OffsetEnds(pr.lens);
  }

  /** Going on to the next chunk, or to the end. */
  lemma OnwardChunk(pr: Program, s: State, toks: seq<Token>, l': Local)
    requires |s| == |pr.P.A| && AllFit(pr.P, toks) && Sum(pr.lens) == |toks| && l'.chunk <= |pr.lens|
    requires l'.pos == Offset(pr.lens, l'.chunk) <= |toks| && l'.phase == Onward(pr, l'.pos, l'.chunk)
    requires l'.state == Fold(pr.P, s, toks[..l'.pos])
    ensures Registers(pr, l', s, toks)
  {
    hide Fold, Sum, Outputs;
    OffsetEnds(pr.lens);
    if l'.chunk < |pr.lens| {
      OffsetStep(pr.lens, l'.chunk);
      OffsetMono(pr.lens, l'.chunk + 1, |pr.lens|);
    }
  }

  lemma OwnLoadState(pr: Program, l: Local, m0: Memory, m: Memory)
    requires Fitting(pr, m0) && Fitting(pr, m) && |l.state| == |pr.P.A| && |m.ssm| == |m0.ssm| && OnTrack(pr, l, m0, m)
    requires l.phase.LoadState?
    ensures OnTrack(pr, Micro(pr, l, m).0, m0, m)
  {
    hide Outputs, Checkpoints, Fold, TokensIn;
    var s, toks := Start(pr, m0), Tokens(pr, m0);
    NothingYet(pr.P, s, toks);
    OffsetEnds(pr.lens);
    OnwardChunk(pr, s, toks, Micro(pr, l, m).0);
    hide Registers;
  }

  lemma OwnStoreState(pr: Program, l: Local, m0: Memory, m: Memory)
    requires Fitting(pr, m0) && Fitting(pr, m) && |l.state| == |pr.P.A| && |m.ssm| == |m0.ssm| && OnTrack(pr, l, m0, m)
    requires l.phase.StoreState?
    ensures var (l', m') := Micro(pr, l, m); Fitting(pr, m') && OnTrack(pr, l', m0, m')
  {
    hide Outputs, Fold, Sum, TokensIn, Gate;
    var s, toks := Start(pr, m0), Tokens(pr, m0);
    var (l', m') := Micro(pr, l, m);
    OnwardChunk(pr, s, toks, l');
    hide Registers;
    var before := Checkpoints(m0.ssm, pr.P, s, toks, pr.lens, pr.cells, l.chunk);
    var after := Checkpoints(m0.ssm, pr.P, s, toks, pr.lens, pr.cells, l.chunk + 1);
    assert after == before[pr.cells[l.chunk] := l.state];
    hide Checkpoints;
  }

  lemma OwnToken(pr: Program, l: Local, m0: Memory, m: Memory)
    requires Fitting(pr, m0) && Fitting(pr, m) && |l.state| == |pr.P.A| && |m.ssm| == |m0.ssm| && OnTrack(pr, l, m0, m)
    requires !l.phase.LoadState? && !l.phase.StoreState?
    ensures var (l', m') := Micro(pr, l, m); Fitting(pr, m') && OnTrack(pr, l', m0, m')
  {
    hide Fold, Outputs, Step, Emit, Gate, Checkpoints, Sum, Offset;
    var s, toks := Start(pr, m0), Tokens(pr, m0);
    var (l', m') := Micro(pr, l, m);
    if l.pos < |toks| && !l.phase.Finished? {
      OutputAt(pr.P, s, toks, l.pos);
      if l.phase.StoreOut? {
        GateUnused(pr.P, l.state, toks[l.pos]);
        assert toks[l.pos].(z := 0.0)
            == Token(pr.ins.u[l.pos], l.phase.delta, 0.0, pr.ins.B[l.pos], pr.ins.C[l.pos]);
      }
      if l'.pos == l.pos + 1 { OnwardToken(pr, l, s, toks, l'); }
    }
  }

  /** A program's own step keeps it on track. */
  lemma OwnStep(pr: Program, l: Local, m0: Memory, m: Memory)
    requires Fitting(pr, m0) && Fitting(pr, m) && |l.state| == |pr.P.A| && |m.ssm| == |m0.ssm| && OnTrack(pr, l, m0, m)
    ensures var (l', m') := Micro(pr, l, m); Fitting(pr, m') && OnTrack(pr, l', m0, m')
  {
    hide OnTrack;
    if l.phase.LoadState? {
      OwnLoadState(pr, l, m0, m);
    } else if l.phase.StoreState? {
      OwnStoreState(pr, l, m0, m);
    } else {
      OwnToken(pr, l, m0, m);
    }
  }

  // ----- the steps of the others -----

  predicate OwnsDelta(pr: Program, j: nat) { pr.lay.base <= j < pr.lay.base + |pr.ins.u| }

  predicate OwnsZ(pr: Program, j: nat) { pr.lay.hasZ && pr.lay.zBase <= j < pr.lay.zBase + |pr.ins.u| }

  /** A step changes nothing but cells of the program that takes it. */
  lemma MicroFrame(pr: Program, l: Local, m: Memory)
    requires Fitting(pr, m) && |l.state| == |pr.P.A|
    ensures var m' := Micro(pr, l, m).1;
      && (forall j :: 0 <= j < |m.delta| && !OwnsDelta(pr, j) ==> m'.delta[j] == m.delta[j])
      && (forall j :: 0 <= j < |m.z| && !OwnsZ(pr, j) ==> m'.z[j] == m.z[j])
      && (forall c :: 0 <= c < |m.ssm| && c !in pr.cells ==> m'.ssm[c] == m.ssm[c])
  {
    hide Step, Emit, Gate, Offset;
  }

  /** Another program's step touches none of this program's cells, nor the one it has still to load. */
  lemma OtherStep(pr: Program, l: Local, other: Program, k: Local, m0: Memory, m: Memory)
    requires Fitting(pr, m0) && Fitting(pr, m) && Fitting(other, m) && |k.state| == |other.P.A| == |pr.P.A|
    requires Separate(pr, other) && |m.ssm| == |m0.ssm| && OnTrack(pr, l, m0, m)
    ensures Fitting(pr, Micro(other, k, m).1) && OnTrack(pr, l, m0, Micro(other, k, m).1)
  {
    MicroFrame(other, k, m);
    hide Fold, Outputs, Step, Emit, Gate, Checkpoints, Micro, Registers, WellFormed, Sum;
    var m' := Micro(other, k, m).1;
    assert Fitting(pr, m');
    SameDelta(pr, other, m, m');
    SameCells(pr, other, m, m');
  }

  lemma SameDelta(pr: Program, other: Program, m: Memory, m': Memory)
    requires pr.lay.base + |pr.ins.u| <= |m.delta| == |m'.delta| && |m.z| == |m'.z|
    requires pr.lay.hasZ ==> pr.lay.zBase + |pr.ins.u| <= |m.z|
    requires forall j :: 0 <= j < |m.delta| && !OwnsDelta(other, j) ==> m'.delta[j] == m.delta[j]
    requires forall j :: 0 <= j < |m.z| && !OwnsZ(other, j) ==> m'.z[j] == m.z[j]
    requires Separate(pr, other)
    ensures forall j :: pr.lay.base <= j < pr.lay.base + |pr.ins.u| ==> m'.delta[j] == m.delta[j]
    ensures pr.lay.hasZ ==> forall j :: pr.lay.zBase <= j < pr.lay.zBase + |pr.ins.u| ==> m'.z[j] == m.z[j]
  {
  }

  lemma SameCells(pr: Program, other: Program, m: Memory, m': Memory)
    requires |m.ssm| == |m'.ssm| && forall c :: 0 <= c < |m.ssm| && c !in other.cells ==> m'.ssm[c] == m.ssm[c]
    requires Separate(pr, other) && forall c :: 0 <= c < |pr.cells| ==> pr.cells[c] < |m.ssm|
    requires pr.load.Some? ==> pr.load.value < |m.ssm|
    ensures forall c :: 0 <= c < |pr.cells| ==> m'.ssm[pr.cells[c]] == m.ssm[pr.cells[c]]
    ensures pr.load.Some? ==> m'.ssm[pr.load.value] == m.ssm[pr.load.value]
  {
  }

  // ----- every interleaving -----

  ghost predicate AllOnTrack(progs: seq<Program>, locals: seq<Local>, m0: Memory, m: Memory)
    requires Sane(progs, Launch(progs), m0) && Sane(progs, locals, m)
  {
    |m.ssm| == |m0.ssm| && forall i :: 0 <= i < |progs| ==> OnTrack(progs[i], locals[i], m0, m)
  }

  /** What belongs to no program is as it was. */
  ghost predicate RestKept(progs: seq<Program>, m0: Memory, m: Memory) {
    && |m.delta| == |m0.delta| && |m.z| == |m0.z| && |m.ssm| == |m0.ssm|
    && (forall j :: 0 <= j < |m.delta| && (forall i :: 0 <= i < |progs| ==> !OwnsDelta(progs[i], j)) ==> m.delta[j] == m0.delta[j])
    && (forall j :: 0 <= j < |m.z| && (forall i :: 0 <= i < |progs| ==> !OwnsZ(progs[i], j)) ==> m.z[j] == m0.z[j])
    && (forall c :: 0 <= c < |m.ssm| && (forall i :: 0 <= i < |progs| ==> c !in progs[i].cells) ==> m.ssm[c] == m0.ssm[c])
  }

  /** In every interleaving every program stays on track, and nothing else changes. */
  lemma {:induction false} EveryInterleaving(progs: seq<Program>, m0: Memory, schedule: seq<nat>)
    requires Sane(progs, Launch(progs), m0) && Disjoint(progs)
    requires forall k :: 0 <= k < |schedule| ==> schedule[k] < |progs|
    ensures var (ls, m) := Interleave(progs, Launch(progs), m0, schedule); AllOnTrack(progs, ls, m0, m) && RestKept(progs, m0, m)
  {
    hide OnTrack, Micro, RestKept;
    if schedule == [] {
      forall i | 0 <= i < |progs| ensures OnTrack(progs[i], Launch(progs)[i], m0, m0) {
        AtStart(progs[i], m0);
      }
      NothingDone(progs, m0);
    } else {
      EveryInterleaving(progs, m0, schedule[..|schedule| - 1]);
      var (ls, m) := Interleave(progs, Launch(progs), m0, schedule[..|schedule| - 1]);
      var i := schedule[|schedule| - 1];
      OneStep(progs, ls, m0, m, i);
      RestStep(progs, ls[i], m0, m, i);
    }
  }

  lemma AtStart(pr: Program, m0: Memory)
    requires Fitting(pr, m0)
    ensures OnTrack(pr, Local(0, 0, Rest(|pr.P.A|), LoadState), m0, m0)
  {
    hide Outputs;
  }

  lemma NothingDone(progs: seq<Program>, m: Memory)
    ensures RestKept(progs, m, m)
  {
  }

  lemma OneStep(progs: seq<Program>, ls: seq<Local>, m0: Memory, m: Memory, i: nat)
    requires Sane(progs, Launch(progs), m0) && Sane(progs, ls, m) && Disjoint(progs) && i < |progs|
    requires AllOnTrack(progs, ls, m0, m)
    ensures var (l, m') := Micro(progs[i], ls[i], m);
      Sane(progs, ls[i := l], m') && AllOnTrack(progs, ls[i := l], m0, m')
  {
    hide OnTrack, Micro, Fitting, Separate;
    SaneStep(progs, ls, m, i);
    var (l, m') := Micro(progs[i], ls[i], m);
    forall j | 0 <= j < |progs| ensures OnTrack(progs[j], ls[i := l][j], m0, m') {
      if j == i {
        OwnStep(progs[i], ls[i], m0, m);
      } else {
        OtherStep(progs[j], ls[j], progs[i], ls[i], m0, m);
      }
    }
  }

  lemma RestStep(progs: seq<Program>, l: Local, m0: Memory, m: Memory, i: nat)
    requires i < |progs| && Fitting(progs[i], m) && |l.state| == |progs[i].P.A| && RestKept(progs, m0, m)
    ensures RestKept(progs, m0, Micro(progs[i], l, m).1)
  {
    MicroFrame(progs[i], l, m);
    hide Micro, OwnsDelta, OwnsZ, Fitting;
  }

  // ----- what a finished program has left -----

  /** A finished program has left its outputs, its gated outputs, and the state after each of its chunks. */
  ghost predicate Done(pr: Program, m0: Memory, m: Memory)
    requires Fitting(pr, m0) && Fitting(pr, m) && |m.ssm| == |m0.ssm|
  {
    var s, toks := Start(pr, m0), Tokens(pr, m0);
    && m.delta[pr.lay.base..pr.lay.base + |toks|] == Outputs(pr.P, s, toks)
    && (pr.lay.hasZ ==> m.z[pr.lay.zBase..pr.lay.zBase + |toks|] == GatedOutputs(pr.P, s, toks))
    && forall c :: 0 <= c < |pr.cells| ==>
         m.ssm[pr.cells[c]] == Checkpoints(m0.ssm, pr.P, s, toks, pr.lens, pr.cells, |pr.lens|)[pr.cells[c]]
  }

  lemma FinishedIsDone(pr: Program, l: Local, m0: Memory, m: Memory)
    requires Fitting(pr, m0) && Fitting(pr, m) && |m.ssm| == |m0.ssm| && OnTrack(pr, l, m0, m) && l.phase.Finished?
    ensures Done(pr, m0, m)
  {
    hide Outputs, Fold, Gate, Checkpoints;
    var s, toks := Start(pr, m0), Tokens(pr, m0);
    assert m.delta[pr.lay.base..pr.lay.base + |toks|] == Outputs(pr.P, s, toks);
    if pr.lay.hasZ {
      assert m.z[pr.lay.zBase..pr.lay.zBase + |toks|] == GatedOutputs(pr.P, s, toks);
    }
  }

  /**
   The in-place launch is correct: whatever the interleaving, a finished program has left exactly the
   outputs of its scan over the inputs and from the state as they were before the launch, and the
   states after its chunks.
   */
  lemma InPlaceIsSafe(progs: seq<Program>, m0: Memory, schedule: seq<nat>, i: nat)
    requires Sane(progs, Launch(progs), m0) && Disjoint(progs) && i < |progs|
    requires forall k :: 0 <= k < |schedule| ==> schedule[k] < |progs|
    requires Interleave(progs, Launch(progs), m0, schedule).0[i].phase.Finished?
    ensures var m := Interleave(progs, Launch(progs), m0, schedule).1;
      |m.ssm| == |m0.ssm| && Done(progs[i], m0, m)
  {
    hide OnTrack, Interleave, Done;
    EveryInterleaving(progs, m0, schedule);
    var (ls, m) := Interleave(progs, Launch(progs), m0, schedule);
    FinishedIsDone(progs[i], ls[i], m0, m);
  }

  // ----- every program finishes -----

  function Turns(schedule: seq<nat>, i: nat): (n: nat) {
    if schedule == [] then 0 else Turns(schedule[..|schedule| - 1], i) + if schedule[|schedule| - 1] == i then 1 else 0
  }

  /** The steps that a program has left. */
  function Left(pr: Program, l: Local): (n: int) {
    match l.phase
    case LoadState => 4 * |pr.ins.u| + |pr.lens| + 1
    case LoadDelta => 4 * (|pr.ins.u| - l.pos) + |pr.lens| - l.chunk
    case StoreOut(_) => 4 * (|pr.ins.u| - l.pos) + |pr.lens| - l.chunk - 1
    case LoadZ(_) => 4 * (|pr.ins.u| - l.pos) + |pr.lens| - l.chunk - 2
    case StoreZ(_, _) => 4 * (|pr.ins.u| - l.pos) + |pr.lens| - l.chunk - 3
    case StoreState => 4 * (|pr.ins.u| - l.pos) + |pr.lens| - l.chunk
    case Finished => 0
  }

  lemma StepGoesOn(pr: Program, l: Local, m0: Memory, m: Memory)
    requires Fitting(pr, m0) && Fitting(pr, m) && |l.state| == |pr.P.A| && |m.ssm| == |m0.ssm| && OnTrack(pr, l, m0, m)
    ensures Left(pr, l) >= 0 && (Left(pr, l) == 0 ==> l.phase.Finished?)
    ensures !l.phase.Finished? ==> Left(pr, Micro(pr, l, m).0) < Left(pr, l)
  {
    hide Fold, Outputs, Step, Emit, Gate, Checkpoints, Cells, StatesAt;
  }

  lemma {:induction false} TurnsLeft(progs: seq<Program>, m0: Memory, schedule: seq<nat>, i: nat)
    requires Sane(progs, Launch(progs), m0) && Disjoint(progs) && i < |progs|
    requires forall k :: 0 <= k < |schedule| ==> schedule[k] < |progs|
    ensures var l := Interleave(progs, Launch(progs), m0, schedule).0[i];
      l.phase.Finished? || Left(progs[i], l) + Turns(schedule, i) <= 4 * |progs[i].ins.u| + |progs[i].lens| + 1
  {
    hide OnTrack, Micro, Fitting, Left;
    if schedule == [] {
      LeftAtStart(progs[i]);
    } else {
      var front := schedule[..|schedule| - 1];
      TurnsLeft(progs, m0, front, i);
      EveryInterleaving(progs, m0, front);
      var (ls, m) := Interleave(progs, Launch(progs), m0, front);
      if schedule[|schedule| - 1] == i {
        StepGoesOn(progs[i], ls[i], m0, m);
        FinishedStays(progs[i], ls[i], m);
      }
    }
  }

  lemma LeftAtStart(pr: Program)
    ensures Left(pr, Local(0, 0, Rest(|pr.P.A|), LoadState)) == 4 * |pr.ins.u| + |pr.lens| + 1
  {
  }

  lemma FinishedStays(pr: Program, l: Local, m: Memory)
    requires Fitting(pr, m) && |l.state| == |pr.P.A|
    ensures l.phase.Finished? ==> Micro(pr, l, m).0.phase.Finished?
  {
    hide Step, Emit, Gate;
  }

  /** A program that gets enough turns finishes, whatever the others do in between. */
  lemma EveryProgramFinishes(progs: seq<Program>, m0: Memory, schedule: seq<nat>, i: nat)
    requires Sane(progs, Launch(progs), m0) && Disjoint(progs) && i < |progs|
    requires forall k :: 0 <= k < |schedule| ==> schedule[k] < |progs|
    requires Turns(schedule, i) > 4 * |progs[i].ins.u| + |progs[i].lens|
    ensures Interleave(progs, Launch(progs), m0, schedule).0[i].phase.Finished?
  {
    hide OnTrack, Fitting, Left;
    TurnsLeft(progs, m0, schedule, i);
    EveryInterleaving(progs, m0, schedule);
    var (ls, m) := Interleave(progs, Launch(progs), m0, schedule);
    StepGoesOn(progs[i], ls[i], m0, m);
  }
}
