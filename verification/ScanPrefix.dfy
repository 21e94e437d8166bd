/**
 Prefix caching over whole runs: whatever prefill calls a request is served by, the slot of every
 completed block holds the state after exactly that block's tokens.
 */
module ScanPrefix {
  import opened Sums
  import opened ScanSpec
  import opened ScanKernel
  import opened ScanChunks
  import opened ScanProgram

  /** `block_idx_last_computed_token`, clamped at zero. */
  function BlockComputed(computed: nat, size: nat): (i: nat)
    requires size > 0
  {
    if computed == 0 then 0 else (computed + size - 1) / size - 1
  }

  ghost predicate DistinctRow(row: seq<nat>, slots: nat) {
    && (forall i :: 0 <= i < |row| ==> row[i] < slots)
    && (forall i, j :: 0 <= i < j < |row| ==> row[i] != row[j])
  }

  /**
   After `computed` tokens of the sequence `all`: each completed block's slot holds the state after
   that block, and the slot of the last computed token's block holds the current state.
   */
  ghost predicate CacheHolds(P: Params, all: seq<Token>, computed: nat, size: nat, row: seq<nat>, states: seq<State>) {
    && size > 0 && AllFit(P, all) && computed <= |all| && DistinctRow(row, |states|)
    && (forall k: nat :: (k + 1) * size <= computed ==> BlockState(P, all, size, row, states, k))
    && (computed > 0 ==>
          && BlockComputed(computed, size) < |row|
          && states[row[BlockComputed(computed, size)]] == Fold(P, Rest(|P.A|), all[..computed]))
  }

  ghost predicate BlockState(P: Params, all: seq<Token>, size: nat, row: seq<nat>, states: seq<State>, k: nat)
    requires AllFit(P, all) && (k + 1) * size <= |all| && DistinctRow(row, |states|)
  {
    k < |row| && states[row[k]] == Fold(P, Rest(|P.A|), all[..(k + 1) * size])
  }

  /** What the kernel loads: the slot of the last computed token's block, or nothing for a new request. */
  function Loaded(n: nat, computed: nat, size: nat, row: seq<nat>, states: seq<State>): (s: State)
    requires size > 0
  {
    var i := BlockComputed(computed, size);
    if computed > 0 && i < |row| && row[i] < |states| then states[row[i]] else Rest(n)
  }

  /** The state that a call loads is the state after the tokens computed so far. */
  lemma StartState(P: Params, all: seq<Token>, computed: nat, size: nat, row: seq<nat>, states: seq<State>)
    requires CacheHolds(P, all, computed, size, row, states)
    ensures Loaded(|P.A|, computed, size, row, states) == Fold(P, Rest(|P.A|), all[..computed])
  {
    hide BlockState;
  }

  /** The slots that a call writes are those of the blocks from the first scheduled token's on. */
  ghost predicate CallSlots(slots: seq<nat>, lens: seq<nat>, row: seq<nat>, first: nat, n: nat) {
    && |slots| == |lens| && first + |lens| <= |row|
    && forall c :: 0 <= c < |lens| ==> slots[c] == row[first + c] && slots[c] < n
  }

  lemma StateAtChunk(P: Params, all: seq<Token>, computed: nat, tokens: nat, k: nat)
    requires AllFit(P, all) && computed + tokens <= |all| && k <= tokens
    ensures var s := Fold(P, Rest(|P.A|), all[..computed]);
      var toks := all[computed..computed + tokens];
      AllFit(P, toks) && Fold(P, s, toks[..k]) == Fold(P, Rest(|P.A|), all[..computed + k])
  {
    var toks := all[computed..computed + tokens];
    assert all[..computed + k] == all[..computed] + toks[..k];
    FoldSplit(P, Rest(|P.A|), all[..computed], toks[..k]);
  }

  lemma LaterSlots(lens: seq<nat>, slots: seq<nat>, row: seq<nat>, q: nat, n: nat, c: nat)
    requires CallSlots(slots, lens, row, q, n) && DistinctRow(row, n) && c < |lens|
    ensures |slots| == |lens|
    ensures forall d :: 0 <= d < |slots| ==> slots[d] < n
    ensures forall d :: c < d < |slots| ==> slots[d] != slots[c]
  {
  }

  /** The slot of the call's block `c` afterwards. */
  lemma ChunkSlot(P: Params, all: seq<Token>, computed: nat, tokens: nat, row: seq<nat>, states: seq<State>,
                  lens: seq<nat>, slots: seq<nat>, q: nat, c: nat)
    requires AllFit(P, all) && computed + tokens <= |all| && DistinctRow(row, |states|)
    requires Sum(lens) == tokens && CallSlots(slots, lens, row, q, |states|) && c < |lens|
    ensures var s := Fold(P, Rest(|P.A|), all[..computed]);
      var toks := all[computed..computed + tokens];
      && AllFit(P, toks) && Offset(lens, c + 1) <= tokens
      && Checkpoints(states, P, s, toks, lens, slots, |lens|)[slots[c]]
         == Fold(P, Rest(|P.A|), all[..computed + Offset(lens, c + 1)])
  {
    hide Fold, Checkpoints, Offset, Sum, CallSlots, DistinctRow, Fits;
    var s := Fold(P, Rest(|P.A|), all[..computed]);
    var toks := all[computed..computed + tokens];
    LaterSlots(lens, slots, row, q, |states|, c);
    CheckpointHolds(states, P, s, toks, lens, slots, |lens|, c);
    StateAtChunk(P, all, computed, tokens, Offset(lens, c + 1));
  }

  /** One call extends what the cache holds by its tokens. */
  lemma CallKeepsCache(P: Params, all: seq<Token>, computed: nat, tokens: nat, size: nat, row: seq<nat>,
                       states: seq<State>, lens: seq<nat>, slots: seq<nat>, states': seq<State>)
    requires CacheHolds(P, all, computed, size, row, states) && tokens > 0 && computed + tokens <= |all|
    requires GoodChunks(lens, computed, tokens, size) && CallSlots(slots, lens, row, computed / size, |states|)
    requires states' == Checkpoints(states, P, Fold(P, Rest(|P.A|), all[..computed]),
                                    all[computed..computed + tokens], lens, slots, |lens|)
    ensures CacheHolds(P, all, computed + tokens, size, row, states')
  {
    hide Fold, Checkpoints, GoodChunks, CallSlots;
    forall k: nat | (k + 1) * size <= computed + tokens
      ensures BlockState(P, all, size, row, states', k)
    {
      BlockAfter(P, all, computed, tokens, size, row, states, lens, slots, states', k);
    }
    CurrentAfter(P, all, computed, tokens, size, row, states, lens, slots, states');
  }

  lemma CurrentAfter(P: Params, all: seq<Token>, computed: nat, tokens: nat, size: nat, row: seq<nat>,
                     states: seq<State>, lens: seq<nat>, slots: seq<nat>, states': seq<State>)
    requires size > 0 && AllFit(P, all) && DistinctRow(row, |states|) && tokens > 0 && computed + tokens <= |all|
    requires GoodChunks(lens, computed, tokens, size) && CallSlots(slots, lens, row, computed / size, |states|)
    requires states' == Checkpoints(states, P, Fold(P, Rest(|P.A|), all[..computed]),
                                    all[computed..computed + tokens], lens, slots, |lens|)
    ensures BlockComputed(computed + tokens, size) < |row|
    ensures states'[row[BlockComputed(computed + tokens, size)]] == Fold(P, Rest(|P.A|), all[..computed + tokens])
  {
    hide Fold, Checkpoints, Offset, Sum, DistinctRow, GoodChunks, BlockComputed;
    IndexOfLast(lens, computed, tokens, size);
    var q := computed / size;
    LastSlot(P, all, computed, tokens, row, states, lens, slots, q);
  }

  lemma IndexOfLast(lens: seq<nat>, computed: nat, tokens: nat, size: nat)
    requires size > 0 && tokens > 0 && GoodChunks(lens, computed, tokens, size)
    ensures lens != [] && Sum(lens) == tokens
    ensures BlockComputed(computed + tokens, size) == computed / size + |lens| - 1
  {
    LastBlock(lens, computed, tokens, size);
  }

  lemma LastSlot(P: Params, all: seq<Token>, computed: nat, tokens: nat, row: seq<nat>, states: seq<State>,
                 lens: seq<nat>, slots: seq<nat>, q: nat)
    requires AllFit(P, all) && computed + tokens <= |all| && DistinctRow(row, |states|)
    requires Sum(lens) == tokens && CallSlots(slots, lens, row, q, |states|) && lens != []
    ensures var s := Fold(P, Rest(|P.A|), all[..computed]);
      var toks := all[computed..computed + tokens];
      && AllFit(P, toks)
      && Checkpoints(states, P, s, toks, lens, slots, |lens|)[row[q + |lens| - 1]]
         == Fold(P, Rest(|P.A|), all[..computed + tokens])
  {
    hide Fold, Checkpoints, Offset, Sum, DistinctRow, Fits;
    ChunkSlot(P, all, computed, tokens, row, states, lens, slots, q, |lens| - 1);
    OffsetEnds(lens);
  }

  lemma BlockAfter(P: Params, all: seq<Token>, computed: nat, tokens: nat, size: nat, row: seq<nat>,
                   states: seq<State>, lens: seq<nat>, slots: seq<nat>, states': seq<State>, k: nat)
    requires CacheHolds(P, all, computed, size, row, states) && tokens > 0 && computed + tokens <= |all|
    requires GoodChunks(lens, computed, tokens, size) && CallSlots(slots, lens, row, computed / size, |states|)
    requires states' == Checkpoints(states, P, Fold(P, Rest(|P.A|), all[..computed]),
                                    all[computed..computed + tokens], lens, slots, |lens|)
    requires (k + 1) * size <= computed + tokens
    ensures BlockState(P, all, size, row, states', k)
  {
    hide Fold, Checkpoints, Offset, Sum, GoodChunks, DistinctRow, Fits;
    var q := computed / size;
    if k < q {
      OlderBlock(P, all, computed, tokens, size, row, states, lens, slots, states', k);
    } else {
      BlockIsChunk(lens, computed, tokens, size, k);
      GoodSum(lens, computed, tokens, size);
      NewerBlock(P, all, computed, tokens, size, row, states, lens, slots, q, states', k);
    }
  }

  lemma NewerBlock(P: Params, all: seq<Token>, computed: nat, tokens: nat, size: nat, row: seq<nat>,
                   states: seq<State>, lens: seq<nat>, slots: seq<nat>, q: nat, states': seq<State>, k: nat)
    requires AllFit(P, all) && computed + tokens <= |all| && DistinctRow(row, |states|)
    requires Sum(lens) == tokens && CallSlots(slots, lens, row, q, |states|) && 0 <= k - q < |lens|
    requires states' == Checkpoints(states, P, Fold(P, Rest(|P.A|), all[..computed]),
                                    all[computed..computed + tokens], lens, slots, |lens|)
    requires computed + Offset(lens, k - q + 1) == (k + 1) * size <= |all| && |states'| == |states|
    ensures BlockState(P, all, size, row, states', k)
  {
    hide Fold, Checkpoints, Offset, Sum, Fits;
    ChunkSlot(P, all, computed, tokens, row, states, lens, slots, q, k - q);
  }

  lemma OlderBlock(P: Params, all: seq<Token>, computed: nat, tokens: nat, size: nat, row: seq<nat>,
                   states: seq<State>, lens: seq<nat>, slots: seq<nat>, states': seq<State>, k: nat)
    requires CacheHolds(P, all, computed, size, row, states) && tokens > 0 && computed + tokens <= |all|
    requires GoodChunks(lens, computed, tokens, size) && CallSlots(slots, lens, row, computed / size, |states|)
    requires states' == Checkpoints(states, P, Fold(P, Rest(|P.A|), all[..computed]),
                                    all[computed..computed + tokens], lens, slots, |lens|)
    requires k < computed / size
    ensures (k + 1) * size <= computed && BlockState(P, all, size, row, states', k)
  {
    hide Fold, Checkpoints, Offset, Sum, GoodChunks;
    var q := computed / size;
    DivMul(computed, size);
    MulMono(size, k + 1, q);
    GoodSum(lens, computed, tokens, size);
    assert BlockState(P, all, size, row, states, k);
    OlderSlot(lens, slots, row, q, k, |states|);
    OtherSlots(states, P, Fold(P, Rest(|P.A|), all[..computed]), all[computed..computed + tokens], lens, slots, |lens|, row[k]);
  }

  lemma OlderSlot(lens: seq<nat>, slots: seq<nat>, row: seq<nat>, q: nat, k: nat, n: nat)
    requires CallSlots(slots, lens, row, q, n) && DistinctRow(row, n) && k < q
    ensures k < |row| && row[k] !in slots
  {
  }

  /** A block that the call completes is completed by one of its chunks. */
  lemma BlockIsChunk(lens: seq<nat>, computed: nat, tokens: nat, size: nat, k: nat)
    requires size > 0 && tokens > 0 && GoodChunks(lens, computed, tokens, size)
    requires computed / size <= k && (k + 1) * size <= computed + tokens
    ensures k - computed / size < |lens|
    ensures computed + Offset(lens, k - computed / size + 1) == (k + 1) * size
  {
    hide Offset, Sum;
    var q, n := computed / size, |lens|;
    LastBlock(lens, computed, tokens, size);
    WithinLast(computed + tokens, q + n, k, size);
    if k - q < n - 1 {
      ChunkEnds(lens, computed, tokens, size, k - q);
    } else {
      OffsetEnds(lens);
      LastIsFull(computed + tokens, q + n, size);
    }
  }

  lemma WithinLast(x: nat, m: nat, k: nat, size: nat)
    requires size > 0 && (x + size - 1) / size == m && (k + 1) * size <= x
    ensures k + 1 <= m
  {
    DivMul(x + size - 1, size);
    assert (m + 1) * size == m * size + size;
    if k + 1 > m {
      MulMono(size, m + 1, k + 1);
    }
  }

  lemma LastIsFull(x: nat, m: nat, size: nat)
    requires size > 0 && (x + size - 1) / size == m && m * size <= x
    ensures x == m * size
  {
    DivMul(x + size - 1, size);
  }

  /** One prefill call of a request: its chunks and the slots it stores to. */
  datatype Call = Call(lens: seq<nat>, slots: seq<nat>)

  /** `states'` is what the call leaves in the cache, starting from what it loads after `computed` tokens of `all`. */
  ghost predicate Serves(P: Params, all: seq<Token>, computed: nat, size: nat, row: seq<nat>,
                         states: seq<State>, call: Call, states': seq<State>)
    requires AllFit(P, all)
  {
    var tokens := Sum(call.lens);
    && size > 0 && tokens > 0 && computed + tokens <= |all| && DistinctRow(row, |states|)
    && GoodChunks(call.lens, computed, tokens, size) && CallSlots(call.slots, call.lens, row, computed / size, |states|)
    && var s := Loaded(|P.A|, computed, size, row, states);
    && |s| == |P.A|
    && states' == Checkpoints(states, P, s, all[computed..computed + tokens], call.lens, call.slots, |call.lens|)
  }

  function Total(calls: seq<Call>): (n: nat)
  {
    if calls == [] then 0 else Total(calls[..|calls| - 1]) + Sum(calls[|calls| - 1].lens)
  }

  /** Call after call, each on the cache that the one before it left. */
  ghost predicate IsRun(P: Params, all: seq<Token>, size: nat, row: seq<nat>, calls: seq<Call>, trace: seq<seq<State>>) {
    && size > 0 && AllFit(P, all) && |trace| == |calls| + 1 && DistinctRow(row, |trace[0]|)
    && forall i :: 0 <= i < |calls| ==> Serves(P, all, Total(calls[..i]), size, row, trace[i], calls[i], trace[i + 1])
  }

  /** In every run of prefill calls, the cache holds after each call what it promises. */
  lemma {:induction false} EveryRun(P: Params, all: seq<Token>, size: nat, row: seq<nat>, calls: seq<Call>,
                                    trace: seq<seq<State>>, k: nat)
    requires IsRun(P, all, size, row, calls, trace) && k <= |calls|
    ensures CacheHolds(P, all, Total(calls[..k]), size, row, trace[k])
  {
    hide Serves, CacheHolds, AllFit, DistinctRow, Total;
    if k == 0 {
      NoCalls(calls);
      NothingCached(P, all, size, row, trace[0]);
    } else {
      EveryRun(P, all, size, row, calls, trace, k - 1);
      TotalStep(calls, k - 1);
      CallServed(P, all, Total(calls[..k - 1]), size, row, trace[k - 1], calls[k - 1], trace[k]);
    }
  }

  lemma NoCalls(calls: seq<Call>)
    ensures Total(calls[..0]) == 0
  {
  }

  lemma TotalStep(calls: seq<Call>, k: nat)
    requires k < |calls|
    ensures Total(calls[..k + 1]) == Total(calls[..k]) + Sum(calls[k].lens)
  {
    assert calls[..k + 1][..k] == calls[..k];
  }

  lemma NothingCached(P: Params, all: seq<Token>, size: nat, row: seq<nat>, states: seq<State>)
    requires size > 0 && AllFit(P, all) && DistinctRow(row, |states|)
    ensures CacheHolds(P, all, 0, size, row, states)
  {
    forall k: nat ensures (k + 1) * size <= 0 ==> BlockState(P, all, size, row, states, k) {
      MulMono(size, 1, k + 1);
    }
  }

  lemma CallServed(P: Params, all: seq<Token>, computed: nat, size: nat, row: seq<nat>, states: seq<State>, call: Call, states': seq<State>)
    requires CacheHolds(P, all, computed, size, row, states)
    requires Serves(P, all, computed, size, row, states, call, states')
    ensures CacheHolds(P, all, computed + Sum(call.lens), size, row, states')
  {
    StartState(P, all, computed, size, row, states);
    hide CacheHolds, BlockComputed, Checkpoints;
    CallKeepsCache(P, all, computed, Sum(call.lens), size, row, states, call.lens, call.slots, states');
  }

  /** The outputs of a call are the stretch of one uninterrupted scan that its tokens take up. */
  lemma CallOutputs(P: Params, all: seq<Token>, computed: nat, tokens: nat)
    requires AllFit(P, all) && computed + tokens <= |all|
    ensures var s := Fold(P, Rest(|P.A|), all[..computed]);
      var toks := all[computed..computed + tokens];
      AllFit(P, toks) && Outputs(P, s, toks) == Outputs(P, Rest(|P.A|), all)[computed..computed + tokens]
  {
    hide Fold, Outputs;
    var xs, ys := all[..computed], all[computed..computed + tokens];
    OutputsSplit(P, Rest(|P.A|), xs, ys);
    assert xs + ys == all[..computed + tokens];
    OutputsPrefix(P, Rest(|P.A|), all, computed + tokens);
  }

  // ----- a call, from the metadata to the kernel -----

  /** The block of the last computed token is not behind that of the last scheduled one. */
  lemma ComputedBeforeLast(computed: nat, tokens: nat, size: nat)
    requires size > 0 && tokens > 0
    ensures 0 <= BlockComputed(computed, size) <= BlockLast(computed, tokens, size)
  {
    var x, y := computed + size - 1, computed + tokens + size - 1;
    DivMono(x, y, size);
    QuotientAtLeastOne(y, size);
  }

  lemma QuotientAtLeastOne(y: nat, size: nat)
    requires 0 < size <= y
    ensures y / size >= 1
  {
  }

  lemma PlanSlots(computed: nat, tokens: nat, size: nat, row: seq<nat>, nullBlock: nat, n: nat,
                  cu: seq<nat>, last: seq<int>, b: nat, lens: seq<nat>, pos: nat)
    requires size > 0 && tokens > 0 && b < |last| && forall i :: 0 <= i < |row| ==> row[i] < n
    requires Segment(cu, last, b, lens, pos) && GoodChunks(lens, computed, tokens, size)
    requires BlockLast(computed, tokens, size) < |row| && BlockComputed(computed, size) < |row|
    ensures var plan := PlanOf(size, cu, last, b, computed, tokens, row, nullBlock, BlockComputed(computed, size));
      PlanFits(plan, lens, tokens, n) && CallSlots(Slots(plan, lens, tokens, n), lens, row, computed / size, n)
  {
    hide PlanFits, Segment, PlanOf, BlockComputed, Slots, GoodChunks, BlockLast;
    PlanReady(cu, last, b, lens, pos);
    LensNotEmpty(lens, computed, tokens, size);
    MetadataFits(size, cu, last, b, lens, pos, computed, tokens, row, nullBlock, BlockComputed(computed, size), n);
    var plan := PlanOf(size, cu, last, b, computed, tokens, row, nullBlock, BlockComputed(computed, size));
    assert Slots(plan, lens, tokens, n)[|lens| - 1] < n;
  }

  lemma LensNotEmpty(lens: seq<nat>, computed: nat, tokens: nat, size: nat)
    requires size > 0 && tokens > 0 && GoodChunks(lens, computed, tokens, size)
    ensures |lens| > 0
  {
  }

  /** The plan of request `b` loads the last computed token's block and stores to the blocks that follow. */
  lemma PlanServes(P: Params, all: seq<Token>, computed: nat, tokens: nat, size: nat, row: seq<nat>, nullBlock: nat,
                   states: seq<State>, cu: seq<nat>, last: seq<int>, b: nat, lens: seq<nat>, pos: nat, states': seq<State>)
    requires CacheHolds(P, all, computed, size, row, states) && tokens > 0 && computed + tokens <= |all| && b < |last|
    requires Segment(cu, last, b, lens, pos) && GoodChunks(lens, computed, tokens, size)
    requires BlockLast(computed, tokens, size) < |row| && BlockComputed(computed, size) < |row|
    requires var plan := PlanOf(size, cu, last, b, computed, tokens, row, nullBlock, BlockComputed(computed, size));
      PlanFits(plan, lens, tokens, |states|)
      && Loaded(|P.A|, computed, size, row, states) == Fold(P, Rest(|P.A|), all[..computed])
      && states' == Checkpoints(states, P, Loaded(|P.A|, computed, size, row, states), all[computed..computed + tokens],
                                lens, Slots(plan, lens, tokens, |states|), |lens|)
    ensures CacheHolds(P, all, computed + tokens, size, row, states')
  {
    hide Checkpoints, Segment, PlanOf, BlockComputed, BlockLast, Slots, PlanFits, CacheHolds, GoodChunks, Fold, Fits, Loaded;
    HoldsParts(P, all, computed, size, row, states);
    PlanReady(cu, last, b, lens, pos);
    var plan := PlanOf(size, cu, last, b, computed, tokens, row, nullBlock, BlockComputed(computed, size));
    var slots := Slots(plan, lens, tokens, |states|);
    PlanSlots(computed, tokens, size, row, nullBlock, |states|, cu, last, b, lens, pos);
    hide CallSlots;
    CallKeepsCache(P, all, computed, tokens, size, row, states, lens, slots, states');
  }

  /** The outputs in the buffers after a call are a stretch of one uninterrupted scan. */
  lemma OutputsOfCall(P: Params, all: seq<Token>, computed: nat, tokens: nat, lay: Layout,
                      out0: seq<real>, out: seq<real>, outZ0: seq<real>, outZ: seq<real>)
    requires AllFit(P, all) && computed + tokens <= |all| && lay.base + tokens <= |out0|
    requires lay.hasZ ==> lay.zBase + tokens <= |outZ0|
    requires var s := Fold(P, Rest(|P.A|), all[..computed]);
      var toks := all[computed..computed + tokens];
      && AllFit(P, toks) && Progress(P, s, toks, lay, out0, out, 0, tokens)
      && (lay.hasZ ==> GatedProgress(P, s, toks, lay, outZ0, outZ, 0, tokens))
    ensures |out| == |out0| && out[lay.base..lay.base + tokens] == Outputs(P, Rest(|P.A|), all)[computed..computed + tokens]
    ensures lay.hasZ ==>
      |outZ| == |outZ0| && outZ[lay.zBase..lay.zBase + tokens] == GatedOutputs(P, Rest(|P.A|), all)[computed..computed + tokens]
  {
    hide Fold, Outputs, Gate, Progress, GatedProgress, GatedOutputs, Fits;
    CallOutputs(P, all, computed, tokens);
    var s := Fold(P, Rest(|P.A|), all[..computed]);
    var toks := all[computed..computed + tokens];
    WholeProgress(P, s, toks, lay, out0, out);
    if lay.hasZ {
      WholeGated(P, s, toks, lay, outZ0, outZ);
      GatedStretch(P, s, all, computed, tokens);
    }
  }

  lemma WholeProgress(P: Params, s: State, toks: seq<Token>, lay: Layout, out0: seq<real>, out: seq<real>)
    requires |s| == |P.A| && AllFit(P, toks) && lay.base + |toks| <= |out0| && Progress(P, s, toks, lay, out0, out, 0, |toks|)
    ensures |out| == |out0| && out[lay.base..lay.base + |toks|] == Outputs(P, s, toks)
  {
    hide Outputs;
  }

  lemma WholeGated(P: Params, s: State, toks: seq<Token>, lay: Layout, out0: seq<real>, out: seq<real>)
    requires |s| == |P.A| && AllFit(P, toks) && lay.zBase + |toks| <= |out0| && GatedProgress(P, s, toks, lay, out0, out, 0, |toks|)
    ensures |out| == |out0| && out[lay.zBase..lay.zBase + |toks|] == GatedOutputs(P, s, toks)
  {
    hide Outputs, Gate;
  }

  lemma {:induction false} GatedStretch(P: Params, s: State, all: seq<Token>, computed: nat, tokens: nat)
    requires AllFit(P, all) && computed + tokens <= |all| && |s| == |P.A|
    requires AllFit(P, all[computed..computed + tokens])
    requires Outputs(P, s, all[computed..computed + tokens]) == Outputs(P, Rest(|P.A|), all)[computed..computed + tokens]
    ensures GatedOutputs(P, s, all[computed..computed + tokens]) == GatedOutputs(P, Rest(|P.A|), all)[computed..computed + tokens]
  {
    hide Outputs, Gates, Fits;
    GatesSlice(P, Outputs(P, Rest(|P.A|), all), all, computed, computed + tokens);
  }

  /**
   One prefill call of request `b` of a batch: the chunks come from the batch's metadata, the initial
   state from the slot that the metadata names. Afterwards the cache holds what it promises for the
   longer prefix, and the buffers hold that stretch of one uninterrupted scan.
   */
  method ServeCall(P: Params, ins: Inputs, lay: Layout, delta: array<real>, out: array<real>,
                   z: array<real>, outZ: array<real>, states: array<State>,
                   size: nat, computed: seq<nat>, queryStart: seq<nat>, b: nat, row: seq<nat>, nullBlock: nat,
                   ghost all: seq<Token>)
    requires WellFormed(P, ins) && Buffers(ins, lay, delta, out, z, outZ) && StatesFit(P, states[..])
    requires size > 0 && |queryStart| == |computed| + 1 && Increasing(queryStart) && b < |computed|
    requires |ins.u| == queryStart[b + 1] - queryStart[b] > 0 && BlockLast(computed[b], |ins.u|, size) < |row|
    requires CacheHolds(P, all, computed[b], size, row, states[..]) && computed[b] + |ins.u| <= |all|
    requires TokensIn(ins, lay, delta[..], z[..]) == all[computed[b]..computed[b] + |ins.u|]
    modifies out, if lay.hasZ then {outZ} else {}, states
    ensures BlockComputed(computed[b], size) < |row| && StatesFit(P, states[..])
    ensures row[BlockComputed(computed[b], size)] == nullBlock ==>
              out[..] == old(out[..]) && outZ[..] == old(outZ[..]) && states[..] == old(states[..])
    ensures row[BlockComputed(computed[b], size)] != nullBlock ==>
              && CacheHolds(P, all, computed[b] + |ins.u|, size, row, states[..])
              && out[lay.base..lay.base + |ins.u|] == Outputs(P, Rest(|P.A|), all)[computed[b]..computed[b] + |ins.u|]
              && (lay.hasZ ==> outZ[lay.zBase..lay.zBase + |ins.u|]
                               == GatedOutputs(P, Rest(|P.A|), all)[computed[b]..computed[b] + |ins.u|])
  {
    hide CacheHolds, Segment, GoodChunks, PlanFits, Checkpoints, BlockLast, BlockComputed, Progress, GatedProgress;
    hide Outputs, Fold, PlanOf, TokensIn;
    var cu, seqIdx, last;
    ghost var lens;
    cu, seqIdx, last, lens := ComputeChunks(size, computed, queryStart);
    var n, tokens := computed[b], |ins.u|;
    ghost var states0 := states[..];
    ComputedBeforeLast(n, tokens, size);
    HoldsParts(P, all, n, size, row, states0);
    ghost var pos := queryStart[b] - queryStart[0];
    assert Segment(cu, last, b, lens[b], pos);
    PlanReady(cu, last, b, lens[b], pos);
    var plan := PlanOf(size, cu, last, b, n, tokens, row, nullBlock, BlockComputed(n, size));
    MetadataFits(size, cu, last, b, lens[b], pos, n, tokens, row, nullBlock, BlockComputed(n, size), states.Length);
    StartState(P, all, n, size, row, states0);
    PlanLoads(size, cu, last, b, n, tokens, row, nullBlock);
    ScanCached(P, ins, lay, delta, out, z, outZ, states, plan, n > 0, lens[b]);
    if row[BlockComputed(n, size)] != nullBlock {
      GoodSum(lens[b], n, tokens, size);
      CheckpointsFit(states0, P, Loaded(|P.A|, n, size, row, states0), all[n..n + tokens], lens[b],
                     Slots(plan, lens[b], tokens, states.Length), |lens[b]|);
      PlanServes(P, all, n, tokens, size, row, nullBlock, states0, cu, last, b, lens[b], pos, states[..]);
      OutputsOfCall(P, all, n, tokens, lay, old(out[..]), out[..], old(outZ[..]), outZ[..]);
    }
  }

  lemma HoldsParts(P: Params, all: seq<Token>, computed: nat, size: nat, row: seq<nat>, states: seq<State>)
    requires CacheHolds(P, all, computed, size, row, states)
    ensures size > 0 && AllFit(P, all) && computed <= |all|
    ensures forall i :: 0 <= i < |row| ==> row[i] < |states|
  {
  }

  lemma PlanReady(cu: seq<nat>, last: seq<int>, b: nat, lens: seq<nat>, pos: nat)
    requires b < |last| && Segment(cu, last, b, lens, pos)
    ensures 0 <= FirstChunk(last, b) <= last[b] + 1
  {
  }

  lemma PlanLoads(size: nat, cu: seq<nat>, last: seq<int>, b: nat, computed: nat, tokens: nat, row: seq<nat>, nullBlock: nat)
    requires size > 0 && b < |last| && 0 <= FirstChunk(last, b) <= last[b] + 1 && tokens > 0
    ensures var plan := PlanOf(size, cu, last, b, computed, tokens, row, nullBlock, BlockComputed(computed, size));
      plan.row == row && plan.nullBlock == nullBlock && plan.initIdx == BlockComputed(computed, size)
  {
  }

  // ----- a whole prompt, cut into calls in any way -----

  /** The inputs of a stretch of tokens. */
  function InputsOf(toks: seq<Token>): (ins: Inputs)
    ensures |ins.u| == |ins.B| == |ins.C| == |toks|
  {
    Inputs(seq(|toks|, i requires 0 <= i < |toks| => toks[i].u),
           seq(|toks|, i requires 0 <= i < |toks| => toks[i].B),
           seq(|toks|, i requires 0 <= i < |toks| => toks[i].C))
  }

  lemma InputsBack(P: Params, toks: seq<Token>, delta: seq<real>, z: seq<real>)
    requires AllFit(P, toks) && |delta| == |z| == |toks|
    requires forall i :: 0 <= i < |toks| ==> delta[i] == toks[i].delta && z[i] == toks[i].z
    ensures WellFormed(P, InputsOf(toks)) && TokensIn(InputsOf(toks), Layout(0, 0, true), delta, z) == toks
  {
  }

  lemma RowReaches(computed: nat, tokens: nat, total: nat, size: nat, n: nat)
    requires size > 0 && tokens > 0 && computed + tokens <= total <= n * size
    ensures BlockLast(computed, tokens, size) < n
  {
    var x := computed + tokens + size - 1;
    DivMul(x, size);
    NextBlock(n, size);
    if x / size > n {
      MulMono(size, n + 1, x / size);
    }
  }

  /**
   A prompt served by any sequence of calls, each writing its outputs over its inputs: together the
   outputs are those of one scan of the whole prompt, and the cache holds the state after every block.
   */
  method Prefill(P: Params, all: seq<Token>, states: array<State>, size: nat, row: seq<nat>, nullBlock: nat, parts: seq<nat>)
    returns (ys: seq<real>, gs: seq<real>)
    requires size > 0 && AllFit(P, all) && StatesFit(P, states[..]) && DistinctRow(row, states.Length)
    requires nullBlock !in row && |all| <= |row| * size
    requires Sum(parts) == |all| && forall i :: 0 <= i < |parts| ==> parts[i] > 0
    modifies states
    ensures ys == Outputs(P, Rest(|P.A|), all) && gs == GatedOutputs(P, Rest(|P.A|), all)
    ensures CacheHolds(P, all, |all|, size, row, states[..])
  {
    hide CacheHolds, Outputs, GatedOutputs, TokensIn, BlockLast, DistinctRow, Sum, BlockComputed;
    ys, gs := [], [];
    var computed: nat := 0;
    NothingCached(P, all, size, row, states[..]);
    OffsetEnds(parts);
    for k := 0 to |parts|
      invariant computed == Offset(parts, k) <= |all| && StatesFit(P, states[..])
      invariant CacheHolds(P, all, computed, size, row, states[..])
      invariant ys == Outputs(P, Rest(|P.A|), all)[..computed]
      invariant gs == GatedOutputs(P, Rest(|P.A|), all)[..computed]
    {
      OffsetStep(parts, k);
      OffsetMono(parts, k + 1, |parts|);
      var n := parts[k];
      var y, g := ServePart(P, all, states, size, row, nullBlock, computed, n);
      ys, gs := ys + y, gs + g;
      computed := computed + n;
    }
  }

  /** One call on fresh buffers. */
  method ServePart(P: Params, all: seq<Token>, states: array<State>, size: nat, row: seq<nat>, nullBlock: nat, computed: nat, n: nat)
    returns (y: seq<real>, g: seq<real>)
    requires size > 0 && StatesFit(P, states[..]) && n > 0 && computed + n <= |all| <= |row| * size && nullBlock !in row
    requires AllFit(P, all) && CacheHolds(P, all, computed, size, row, states[..])
    modifies states
    ensures y == Outputs(P, Rest(|P.A|), all)[computed..computed + n]
    ensures g == GatedOutputs(P, Rest(|P.A|), all)[computed..computed + n]
    ensures StatesFit(P, states[..]) && CacheHolds(P, all, computed + n, size, row, states[..])
  {
    hide CacheHolds, Outputs, TokensIn, BlockLast, BlockComputed;
    RowReaches(computed, n, |all|, size, |row|);
    ghost var states0 := states[..];
    var toks := all[computed..computed + n];
    var delta, z := new real[n], new real[n];
    forall i | 0 <= i < n { delta[i] := toks[i].delta; }
    forall i | 0 <= i < n { z[i] := toks[i].z; }
    InputsBack(P, toks, delta[..], z[..]);
    assert states[..] == states0;
    ServeCall(P, InputsOf(toks), Layout(0, 0, true), delta, delta, z, z, states, size, [computed], [0, n], 0, row, nullBlock, all);
    y, g := delta[0..n], z[0..n];
  }

  // ----- prompts that share a prefix -----

  /**
   A cache hit: a request that starts with the same `k` blocks as one whose blocks are computed may
   take over their slots, and the cache holds what it promises for those tokens of the new request.
   */
  lemma PrefixHit(P: Params, all: seq<Token>, computed: nat, row: seq<nat>, other: seq<Token>, row': seq<nat>,
                  size: nat, states: seq<State>, k: nat)
    requires CacheHolds(P, all, computed, size, row, states) && k * size <= computed
    requires AllFit(P, other) && DistinctRow(row', |states|) && k <= |row'| && k * size <= |other|
    requires other[..k * size] == all[..k * size] && k <= |row| && row'[..k] == row[..k]
    ensures CacheHolds(P, other, k * size, size, row', states)
  {
    hide Fold;
    forall j: nat | (j + 1) * size <= k * size ensures BlockState(P, other, size, row', states, j) {
      SharedBlock(P, all, computed, row, other, row', size, states, k, j);
    }
    if k * size > 0 {
      LastOfBlocks(k, size);
      SharedBlock(P, all, computed, row, other, row', size, states, k, k - 1);
      assert BlockState(P, other, size, row', states, k - 1);
    }
  }

  lemma LastOfBlocks(k: nat, size: nat)
    requires size > 0 && k * size > 0
    ensures k > 0 && BlockComputed(k * size, size) == k - 1
  {
    QuotientIs(k * size + size - 1, k, size);
  }

  lemma SharedBlock(P: Params, all: seq<Token>, computed: nat, row: seq<nat>, other: seq<Token>, row': seq<nat>,
                    size: nat, states: seq<State>, k: nat, j: nat)
    requires CacheHolds(P, all, computed, size, row, states) && k * size <= computed
    requires AllFit(P, other) && DistinctRow(row', |states|) && k <= |row'| && k * size <= |other|
    requires other[..k * size] == all[..k * size] && k <= |row| && row'[..k] == row[..k] && (j + 1) * size <= k * size
    ensures BlockState(P, other, size, row', states, j)
  {
    hide Fold;
    NextBlock(k, size);
    if j >= k { MulMono(size, k + 1, j + 1); }
    assert BlockState(P, all, size, row, states, j);
    assert row'[j] == row'[..k][j] == row[j];
    var n := (j + 1) * size;
    assert other[..n] == other[..k * size][..n] == all[..n];
  }
}
