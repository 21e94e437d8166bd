/**
 The whole program of the scan kernel, with and without prefix caching, and what the stored states
 are good for.
 */
module ScanProgram {
  import opened Basics
  import opened Sums
  import opened ScanSpec
  import opened ScanKernel
  import opened ScanChunks

  ghost predicate StatesFit(P: Params, states: seq<State>) {
    forall i :: 0 <= i < |states| ==> |states[i]| == |P.A|
  }

  /** The slot that takes the state after chunk `c`. */
  function SlotOf(row: seq<nat>, blockFirst: nat, blockLast: nat, size: nat, lens: seq<nat>, c: nat): (slot: nat)
    requires size > 0 && c < |lens| && blockLast < |row|
    requires c < |lens| - 1 ==> 0 <= BlockDone(blockFirst, size, lens, c) < |row|
  {
    if c == |lens| - 1 then row[blockLast] else row[BlockDone(blockFirst, size, lens, c)]
  }

  /** The states after the first `n` chunks have been stored, each at its slot. */
  ghost function Checkpoints(states: seq<State>, P: Params, s: State, toks: seq<Token>, lens: seq<nat>, slots: seq<nat>, n: nat)
    : (r: seq<State>)
    requires |s| == |P.A| && AllFit(P, toks) && n <= |lens| == |slots| && Sum(lens) == |toks|
    requires forall c :: 0 <= c < |slots| ==> slots[c] < |states|
    ensures |r| == |states|
  {
    if n == 0 then states
    else
      OffsetMono(lens, n, |lens|);
      OffsetEnds(lens);
      Checkpoints(states, P, s, toks, lens, slots, n - 1)[slots[n - 1] := Fold(P, s, toks[..Offset(lens, n)])]
  }

  /** A checkpoint that no later chunk overwrites holds the fold through its chunk's last token. */
  lemma {:induction false} CheckpointHolds(states: seq<State>, P: Params, s: State, toks: seq<Token>, lens: seq<nat>,
                                           slots: seq<nat>, n: nat, c: nat)
    requires |s| == |P.A| && AllFit(P, toks) && c < n <= |lens| == |slots| && Sum(lens) == |toks|
    requires forall c :: 0 <= c < |slots| ==> slots[c] < |states|
    requires forall d :: c < d < n ==> slots[d] != slots[c]
    ensures Offset(lens, c + 1) <= |toks|
    ensures Checkpoints(states, P, s, toks, lens, slots, n)[slots[c]] == Fold(P, s, toks[..Offset(lens, c + 1)])
  {
    OffsetMono(lens, c + 1, |lens|);
    OffsetEnds(lens);
    if c < n - 1 {
      CheckpointHolds(states, P, s, toks, lens, slots, n - 1, c);
    }
  }

  lemma {:induction false} CheckpointsFit(states: seq<State>, P: Params, s: State, toks: seq<Token>, lens: seq<nat>,
                                          slots: seq<nat>, n: nat)
    requires |s| == |P.A| && AllFit(P, toks) && n <= |lens| == |slots| && Sum(lens) == |toks|
    requires forall c :: 0 <= c < |slots| ==> slots[c] < |states|
    requires StatesFit(P, states)
    ensures StatesFit(P, Checkpoints(states, P, s, toks, lens, slots, n))
  {
    if n > 0 {
      CheckpointsFit(states, P, s, toks, lens, slots, n - 1);
    }
  }

  /** Slots that belong to nobody's chunk keep their state. */
  lemma {:induction false} OtherSlots(states: seq<State>, P: Params, s: State, toks: seq<Token>, lens: seq<nat>,
                                      slots: seq<nat>, n: nat, slot: nat)
    requires |s| == |P.A| && AllFit(P, toks) && n <= |lens| == |slots| && Sum(lens) == |toks|
    requires forall c :: 0 <= c < |slots| ==> slots[c] < |states|
    requires slot < |states| && slot !in slots
    ensures Checkpoints(states, P, s, toks, lens, slots, n)[slot] == states[slot]
  {
    if n > 0 {
      OtherSlots(states, P, s, toks, lens, slots, n - 1, slot);
    }
  }

  /**
   Prefix caching is sound: resuming after chunk `c` from its checkpoint yields, for the rest of the
   sequence, the outputs and the final state of one uninterrupted scan.
   */
  lemma ResumeFromCheckpoint(states: seq<State>, P: Params, s: State, toks: seq<Token>, lens: seq<nat>, slots: seq<nat>, c: nat)
    requires |s| == |P.A| && AllFit(P, toks) && c < |lens| == |slots| && Sum(lens) == |toks|
    requires forall c :: 0 <= c < |slots| ==> slots[c] < |states|
    requires forall d :: c < d < |slots| ==> slots[d] != slots[c]
    ensures var k := Offset(lens, c + 1);
      && k <= |toks|
      && var resumed := Checkpoints(states, P, s, toks, lens, slots, |lens|)[slots[c]];
         && |resumed| == |P.A|
         && Outputs(P, resumed, toks[k..]) == Outputs(P, s, toks)[k..]
         && Fold(P, resumed, toks[k..]) == Fold(P, s, toks)
  {
    hide Fold, Outputs, Checkpoints;
    CheckpointHolds(states, P, s, toks, lens, slots, |lens|, c);
    var k := Offset(lens, c + 1);
    var xs, ys := toks[..k], toks[k..];
    assert xs + ys == toks;
    FoldSplit(P, s, xs, ys);
    OutputsSplit(P, s, xs, ys);
    assert |Outputs(P, s, xs)| == k;
    assert (Outputs(P, s, xs) + Outputs(P, Fold(P, s, xs), ys))[k..] == Outputs(P, Fold(P, s, xs), ys);
  }

  lemma TokensReady(P: Params, ins: Inputs, lay: Layout, delta: seq<real>, z: seq<real>)
    requires WellFormed(P, ins)
    requires lay.base + |ins.u| <= |delta| && (lay.hasZ ==> lay.zBase + |ins.u| <= |z|)
    ensures var toks := TokensIn(ins, lay, delta, z);
      TokensOver(ins, toks) && AllFit(P, toks) && Pending(toks, lay, delta, z, 0)
  {
  }

  /** Without prefix caching: one pass, and the final state goes back to the slot it came from. */
  method ScanPlain(P: Params, ins: Inputs, lay: Layout, delta: array<real>, out: array<real>,
                   z: array<real>, outZ: array<real>, states: array<State>,
                   slot: nat, nullBlock: Option<nat>, hasInit: bool)
    requires WellFormed(P, ins) && Buffers(ins, lay, delta, out, z, outZ)
    requires slot < states.Length && StatesFit(P, states[..])
    modifies out, if lay.hasZ then {outZ} else {}, states
    ensures nullBlock == Some(slot) ==>
              out[..] == old(out[..]) && outZ[..] == old(outZ[..]) && states[..] == old(states[..])
    ensures nullBlock != Some(slot) ==>
              var s := if hasInit then old(states[slot]) else Rest(|P.A|);
              var toks := TokensIn(ins, lay, old(delta[..]), old(z[..]));
              && AllFit(P, toks)
              && Progress(P, s, toks, lay, old(out[..]), out[..], 0, |toks|)
              && (lay.hasZ ==> GatedProgress(P, s, toks, lay, old(outZ[..]), outZ[..], 0, |toks|))
              && states[..] == old(states[..])[slot := Fold(P, s, toks)]
  {
    hide Fold, Outputs, Progress, GatedProgress, Pending, TokensOver, TokensIn, Gate, Fits;
    if nullBlock == Some(slot) {
      return;
    }
    var state := if hasInit then states[slot] else Rest(|P.A|);
    ghost var s, toks := state, TokensIn(ins, lay, delta[..], z[..]);
    TokensReady(P, ins, lay, delta[..], z[..]);
    hide Buffers, WellFormed;
    NothingYet(P, s, toks);
    state := ScanTokens(P, ins, lay, delta, out, z, outZ, 0, |ins.u|, state, s, toks);
    assert toks[..|ins.u|] == toks;
    states[slot] := state;
  }

  lemma NothingYet(P: Params, s: State, toks: seq<Token>)
    requires |s| == |P.A| && AllFit(P, toks)
    ensures Fold(P, s, toks[..0]) == s
  {
  }

  /** What the kernel is told about the chunks of its sequence and their cache slots. */
  datatype CachePlan = CachePlan(
    row: seq<nat>, nullBlock: nat, initIdx: nat, blockFirst: nat, blockLast: nat,
    size: nat, cu: seq<nat>, firstChunk: nat, chunks: nat)

  ghost predicate PlanFits(plan: CachePlan, lens: seq<nat>, total: nat, slots: nat) {
    && plan.size > 0 && plan.initIdx < |plan.row| && plan.blockLast < |plan.row|
    && |lens| == plan.chunks > 0 && Sum(lens) == total
    && plan.firstChunk + plan.chunks < |plan.cu|
    && (forall k :: 0 <= k <= |lens| ==> plan.cu[plan.firstChunk + k] == plan.cu[plan.firstChunk] + Offset(lens, k))
    && (forall c :: 0 <= c < |lens| - 1 ==> 0 <= BlockDone(plan.blockFirst, plan.size, lens, c) < |plan.row|)
    && (forall i :: 0 <= i < |plan.row| ==> plan.row[i] < slots)
  }

  ghost function Slots(plan: CachePlan, lens: seq<nat>, total: nat, n: nat): (slots: seq<nat>)
    requires PlanFits(plan, lens, total, n)
    ensures |slots| == |lens|
    ensures forall c :: 0 <= c < |slots| ==> slots[c] < n
  {
    seq(|lens|, c requires 0 <= c < |lens| => SlotOf(plan.row, plan.blockFirst, plan.blockLast, plan.size, lens, c))
  }

  /**
   With prefix caching: chunk after chunk, storing the state after each one. Outputs are those of
   one unchunked scan, and the slots hold the states at the chunk ends.
   */
  method ScanCached(P: Params, ins: Inputs, lay: Layout, delta: array<real>, out: array<real>,
                    z: array<real>, outZ: array<real>, states: array<State>,
                    plan: CachePlan, hasInit: bool, ghost lens: seq<nat>)
    requires WellFormed(P, ins) && Buffers(ins, lay, delta, out, z, outZ)
    requires PlanFits(plan, lens, |ins.u|, states.Length) && StatesFit(P, states[..])
    modifies out, if lay.hasZ then {outZ} else {}, states
    ensures plan.row[plan.initIdx] == plan.nullBlock ==>
              out[..] == old(out[..]) && outZ[..] == old(outZ[..]) && states[..] == old(states[..])
    ensures plan.row[plan.initIdx] != plan.nullBlock ==>
              var s := if hasInit then old(states[plan.row[plan.initIdx]]) else Rest(|P.A|);
              var toks := TokensIn(ins, lay, old(delta[..]), old(z[..]));
              && AllFit(P, toks)
              && Progress(P, s, toks, lay, old(out[..]), out[..], 0, |toks|)
              && (lay.hasZ ==> GatedProgress(P, s, toks, lay, old(outZ[..]), outZ[..], 0, |toks|))
              && states[..] == Checkpoints(old(states[..]), P, s, toks, lens,
                                           Slots(plan, lens, |toks|, states.Length), |lens|)
  {
    var slot := plan.row[plan.initIdx];
    if slot == plan.nullBlock {
      return;
    }
    hide Fold, Outputs, Gate, Pending, Buffers, WellFormed, TokensOver, Sum, Progress, GatedProgress, Checkpoints, PlanFits;
    var state := if hasInit then states[slot] else Rest(|P.A|);
    ghost var s, toks := state, TokensIn(ins, lay, delta[..], z[..]);
    TokensReady(P, ins, lay, delta[..], z[..]);
    ChunksStart(P, s, toks, lay, out[..], outZ[..], states[..], plan, lens);
    var position := Position(plan, lens, |toks|, states.Length);
    var done := 0;
    for chunk := 0 to plan.chunks
      invariant Chunked(P, s, toks, lay, old(out[..]), out[..], old(outZ[..]), outZ[..], old(states[..]), states[..], plan, lens, chunk)
      invariant ChunkRegisters(P, s, toks, plan, lens, chunk, done, state, position)
      invariant Pending(toks, lay, delta[..], z[..], done)
    {
      state, position, done := ScanChunk(P, ins, lay, delta, out, z, outZ, states, plan, lens, chunk, state, position, done,
                                         s, toks, old(out[..]), old(outZ[..]), old(states[..]));
    }
    ChunksEnd(P, s, toks, lay, old(out[..]), out[..], old(outZ[..]), outZ[..], old(states[..]), states[..], plan, lens);
  }

  /** The memory after the first `chunk` chunks. */
  ghost predicate Chunked(P: Params, s: State, toks: seq<Token>, lay: Layout, out0: seq<real>, out1: seq<real>,
                          outZ0: seq<real>, outZ1: seq<real>, states0: seq<State>, states1: seq<State>,
                          plan: CachePlan, lens: seq<nat>, chunk: nat)
  {
    && |s| == |P.A| && AllFit(P, toks) && PlanFits(plan, lens, |toks|, |states0|) && chunk <= |lens|
    && lay.base + |toks| <= |out0| && (lay.hasZ ==> lay.zBase + |toks| <= |outZ0|)
    && Offset(lens, chunk) <= |toks|
    && Progress(P, s, toks, lay, out0, out1, 0, Offset(lens, chunk))
    && (lay.hasZ ==> GatedProgress(P, s, toks, lay, outZ0, outZ1, 0, Offset(lens, chunk)))
    && states1 == Checkpoints(states0, P, s, toks, lens, Slots(plan, lens, |toks|, |states0|), chunk)
  }

  ghost predicate ChunkRegisters(P: Params, s: State, toks: seq<Token>, plan: CachePlan, lens: seq<nat>, chunk: nat,
                                 done: nat, state: State, position: int)
  {
    && |s| == |P.A| && AllFit(P, toks) && |lens| > 0 && chunk <= |lens|
    && done == Offset(lens, chunk) <= |toks| && state == Fold(P, s, toks[..done])
    && position == StartPosition(plan.blockFirst, plan.size, lens) + done
  }

  lemma ChunksStart(P: Params, s: State, toks: seq<Token>, lay: Layout, out: seq<real>, outZ: seq<real>,
                    states: seq<State>, plan: CachePlan, lens: seq<nat>)
    requires |s| == |P.A| && AllFit(P, toks) && PlanFits(plan, lens, |toks|, |states|)
    requires lay.base + |toks| <= |out| && (lay.hasZ ==> lay.zBase + |toks| <= |outZ|)
    ensures Chunked(P, s, toks, lay, out, out, outZ, outZ, states, states, plan, lens, 0)
    ensures Fold(P, s, toks[..0]) == s && Offset(lens, 0) == 0 && |lens| == plan.chunks > 0
  {
    OffsetEnds(lens);
  }

  lemma ChunksEnd(P: Params, s: State, toks: seq<Token>, lay: Layout, out0: seq<real>, out1: seq<real>,
                  outZ0: seq<real>, outZ1: seq<real>, states0: seq<State>, states1: seq<State>,
                  plan: CachePlan, lens: seq<nat>)
    requires PlanFits(plan, lens, |toks|, |states0|)
    requires Chunked(P, s, toks, lay, out0, out1, outZ0, outZ1, states0, states1, plan, lens, plan.chunks)
    ensures Progress(P, s, toks, lay, out0, out1, 0, |toks|)
    ensures lay.hasZ ==> GatedProgress(P, s, toks, lay, outZ0, outZ1, 0, |toks|)
    ensures states1 == Checkpoints(states0, P, s, toks, lens, Slots(plan, lens, |toks|, |states0|), |lens|)
  {
    OffsetEnds(lens);
  }

  lemma ChunkLength(plan: CachePlan, lens: seq<nat>, total: nat, slots: nat, chunk: nat)
    requires PlanFits(plan, lens, total, slots) && chunk < plan.chunks
    ensures |lens| == plan.chunks && plan.firstChunk + chunk + 1 < |plan.cu|
    ensures plan.cu[plan.firstChunk + chunk + 1] == plan.cu[plan.firstChunk + chunk] + lens[chunk]
    ensures Offset(lens, chunk + 1) == Offset(lens, chunk) + lens[chunk] <= total
  {
    OffsetStep(lens, chunk);
    OffsetMono(lens, chunk + 1, |lens|);
    OffsetEnds(lens);
  }

  /** One round of the chunk loop. */
  method ScanChunk(P: Params, ins: Inputs, lay: Layout, delta: array<real>, out: array<real>,
                   z: array<real>, outZ: array<real>, states: array<State>, plan: CachePlan, ghost lens: seq<nat>,
                   chunk: nat, state0: State, position0: int, done0: nat, ghost s: State, ghost toks: seq<Token>,
                   ghost outs: seq<real>, ghost outZs: seq<real>, ghost states0: seq<State>)
    returns (state: State, position: int, done: nat)
    requires WellFormed(P, ins) && TokensOver(ins, toks) && Buffers(ins, lay, delta, out, z, outZ)
    requires chunk < plan.chunks && |states0| == states.Length && PlanFits(plan, lens, |toks|, states.Length)
    requires Chunked(P, s, toks, lay, outs, out[..], outZs, outZ[..], states0, states[..], plan, lens, chunk)
    requires ChunkRegisters(P, s, toks, plan, lens, chunk, done0, state0, position0)
    requires Pending(toks, lay, delta[..], z[..], done0)
    modifies out, if lay.hasZ then {outZ} else {}, states
    ensures Chunked(P, s, toks, lay, outs, out[..], outZs, outZ[..], states0, states[..], plan, lens, chunk + 1)
    ensures ChunkRegisters(P, s, toks, plan, lens, chunk + 1, done, state, position)
    ensures Pending(toks, lay, delta[..], z[..], done)
  {
    hide Fold, Outputs, Gate, Pending, WellFormed, TokensOver, Sum, PlanFits, StartPosition, Progress, GatedProgress;
    ChunkLength(plan, lens, |toks|, states.Length, chunk);
    var count := plan.cu[plan.firstChunk + chunk + 1] - plan.cu[plan.firstChunk + chunk];
    ghost var midOut, midOutZ, midStates := out[..], outZ[..], states[..];
    state := ScanTokens(P, ins, lay, delta, out, z, outZ, done0, count, state0, s, toks);
    ProgressJoin(P, s, toks, lay, outs, midOut, out[..], done0, done0 + count);
    if lay.hasZ {
      GatedJoin(P, s, toks, lay, outZs, midOutZ, outZ[..], done0, done0 + count);
    }
    done := done0 + count;
    var target := Target(plan, lens, |toks|, states.Length, chunk, position0, count);
    states[target] := state;
    assert states[..] == midStates[target := state];
    position := position0 + count;
  }

  method Position(plan: CachePlan, ghost lens: seq<nat>, ghost total: nat, ghost n: nat) returns (position: int)
    requires PlanFits(plan, lens, total, n)
    ensures position == StartPosition(plan.blockFirst, plan.size, lens)
  {
    OffsetStep(lens, 0);
    OffsetEnds(lens);
    var firstTokens := plan.cu[plan.firstChunk + 1] - plan.cu[plan.firstChunk];
    var startOffset := 0;
    if plan.chunks > 1 && firstTokens < plan.size {
      startOffset := plan.size - firstTokens;
    }
    position := plan.blockFirst * plan.size + startOffset;
  }

  method Target(plan: CachePlan, ghost lens: seq<nat>, ghost total: nat, ghost n: nat, chunk: nat, position: int, count: nat)
    returns (slot: nat)
    requires PlanFits(plan, lens, total, n) && chunk < plan.chunks
    requires position + count == StartPosition(plan.blockFirst, plan.size, lens) + Offset(lens, chunk + 1)
    ensures slot == Slots(plan, lens, total, n)[chunk]
  {
    if chunk == plan.chunks - 1 {
      slot := plan.row[plan.blockLast];
    } else {
      assert (position + count - 1) / plan.size == BlockDone(plan.blockFirst, plan.size, lens, chunk);
      slot := plan.row[(position + count - 1) / plan.size];
    }
  }

  lemma ProgressJoin(P: Params, s: State, toks: seq<Token>, lay: Layout, before: seq<real>, mid: seq<real>, after: seq<real>, m: nat, n: nat)
    requires |s| == |P.A| && AllFit(P, toks) && m <= n <= |toks| && lay.base + |toks| <= |before|
    requires Progress(P, s, toks, lay, before, mid, 0, m) && Progress(P, s, toks, lay, mid, after, m, n)
    ensures Progress(P, s, toks, lay, before, after, 0, n)
  {
    hide Outputs;
    forall i | 0 <= i < n ensures after[lay.base + i] == Outputs(P, s, toks)[i] {
      if i < m { assert mid[lay.base + i] == Outputs(P, s, toks)[i]; }
    }
  }

  lemma GatedJoin(P: Params, s: State, toks: seq<Token>, lay: Layout, before: seq<real>, mid: seq<real>, after: seq<real>, m: nat, n: nat)
    requires |s| == |P.A| && AllFit(P, toks) && m <= n <= |toks| && lay.zBase + |toks| <= |before|
    requires GatedProgress(P, s, toks, lay, before, mid, 0, m) && GatedProgress(P, s, toks, lay, mid, after, m, n)
    ensures GatedProgress(P, s, toks, lay, before, after, 0, n)
  {
    hide Outputs, Gate;
    forall i | 0 <= i < n ensures after[lay.zBase + i] == Gate(P, Outputs(P, s, toks)[i], toks[i].z) {
      if i < m { assert mid[lay.zBase + i] == Gate(P, Outputs(P, s, toks)[i], toks[i].z); }
    }
  }

  /**
   The metadata of a batch gives every program a plan that fits, and chunk `c` of a request stores
   its state in the slot of block `block_idx_first + c`, the last chunk included.
   */
  lemma MetadataFits(size: nat, cu: seq<nat>, last: seq<int>, b: nat, lens: seq<nat>, pos: nat, computed: nat, tokens: nat,
                     row: seq<nat>, nullBlock: nat, initIdx: nat, slots: nat)
    requires size > 0 && tokens > 0 && b < |last|
    requires Segment(cu, last, b, lens, pos) && GoodChunks(lens, computed, tokens, size)
    requires initIdx < |row| && BlockLast(computed, tokens, size) < |row|
    requires forall i :: 0 <= i < |row| ==> row[i] < slots
    ensures var plan := PlanOf(size, cu, last, b, computed, tokens, row, nullBlock, initIdx);
      && PlanFits(plan, lens, tokens, slots)
      && forall c :: 0 <= c < |lens| ==>
           computed / size + c < |row| && Slots(plan, lens, tokens, slots)[c] == row[computed / size + c]
  {
    var plan := PlanOf(size, cu, last, b, computed, tokens, row, nullBlock, initIdx);
    BlockFirstIs(computed, size);
    LastBlock(lens, computed, tokens, size);
    forall c | 0 <= c < |lens| - 1
      ensures BlockDone(plan.blockFirst, size, lens, c) == computed / size + c < |row|
    {
      StoredBlock(lens, computed, tokens, size, c);
    }
    OffsetEnds(lens);
    hide GoodChunks, BlockDone, Sum, Offset;
    assert PlanFits(plan, lens, tokens, slots);
  }

  /** What the attention backend passes for request `b` of the batch. */
  function PlanOf(size: nat, cu: seq<nat>, last: seq<int>, b: nat, computed: nat, tokens: nat,
                  row: seq<nat>, nullBlock: nat, initIdx: nat): (plan: CachePlan)
    requires size > 0 && b < |last| && 0 <= FirstChunk(last, b) <= last[b] + 1 && tokens > 0
  {
    BlockFirstIs(computed, size);
    CachePlan(row, nullBlock, initIdx, BlockFirst(computed, size), BlockLast(computed, tokens, size),
              size, cu, FirstChunk(last, b), last[b] - FirstChunk(last, b) + 1)
  }
}
