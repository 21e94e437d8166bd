/**
 One program of the selective scan kernel: the token loop, the chunk loop with its checkpoints,
 and the output written over an input.

 `out` may be the very array `delta`, and `outZ` the very array `z`: the contracts speak of the
 contents on entry, so they say the same for separate output buffers and for the in-place call.
 */
module ScanKernel {
  import opened ScanSpec

  /** The read-only inputs of the sequence, position by position. */
  datatype Inputs = Inputs(u: seq<real>, B: seq<seq<real>>, C: seq<seq<real>>)

  predicate WellFormed(P: Params, ins: Inputs) {
    && |ins.B| == |ins.u| && |ins.C| == |ins.u|
    && (forall i :: 0 <= i < |ins.u| ==> |ins.B[i]| == |P.A| && |ins.C[i]| == |P.A|)
  }

  /** Where the sequence lies in the buffers. */
  datatype Layout = Layout(base: nat, zBase: nat, hasZ: bool)

  /** The tokens that the buffers hold. */
  function TokensIn(ins: Inputs, lay: Layout, delta: seq<real>, z: seq<real>): (toks: seq<Token>)
    requires |ins.B| == |ins.u| && |ins.C| == |ins.u|
    requires lay.base + |ins.u| <= |delta| && (lay.hasZ ==> lay.zBase + |ins.u| <= |z|)
    ensures |toks| == |ins.u|
  {
    seq(|ins.u|, i requires 0 <= i < |ins.u| =>
      Token(ins.u[i], delta[lay.base + i], if lay.hasZ then z[lay.zBase + i] else 0.0, ins.B[i], ins.C[i]))
  }

  /** The buffers are large enough, and outputs overlap inputs only in the intended way. */
  ghost predicate Buffers(ins: Inputs, lay: Layout, delta: array<real>, out: array<real>, z: array<real>, outZ: array<real>) {
    && delta.Length == out.Length && lay.base + |ins.u| <= delta.Length
    && (lay.hasZ ==>
          && z.Length == outZ.Length && lay.zBase + |ins.u| <= z.Length
          && out != z && out != outZ && delta != outZ)
  }

  /** The outputs of positions `lo` up to `hi` are in place, and nothing else has changed. */
  ghost predicate Progress(P: Params, s: State, toks: seq<Token>, lay: Layout, before: seq<real>, after: seq<real>, lo: nat, hi: nat)
    requires |s| == |P.A| && AllFit(P, toks) && hi <= |toks| && lay.base + |toks| <= |before|
  {
    && |after| == |before|
    && (forall i :: lo <= i < hi ==> after[lay.base + i] == Outputs(P, s, toks)[i])
    && (forall j :: 0 <= j < |before| && !(lay.base + lo <= j < lay.base + hi) ==> after[j] == before[j])
  }

  ghost predicate GatedProgress(P: Params, s: State, toks: seq<Token>, lay: Layout, before: seq<real>, after: seq<real>, lo: nat, hi: nat)
    requires |s| == |P.A| && AllFit(P, toks) && hi <= |toks| && lay.zBase + |toks| <= |before|
  {
    && |after| == |before|
    && (forall i :: lo <= i < hi ==> after[lay.zBase + i] == Gate(P, Outputs(P, s, toks)[i], toks[i].z))
    && (forall j :: 0 <= j < |before| && !(lay.zBase + lo <= j < lay.zBase + hi) ==> after[j] == before[j])
  }

  /** Positions from `lo` on still hold the input. */
  ghost predicate Pending(toks: seq<Token>, lay: Layout, delta: seq<real>, z: seq<real>, lo: nat)
    requires lay.base + |toks| <= |delta| && (lay.hasZ ==> lay.zBase + |toks| <= |z|)
  {
    forall i :: lo <= i < |toks| ==>
      delta[lay.base + i] == toks[i].delta && (lay.hasZ ==> z[lay.zBase + i] == toks[i].z)
  }

  ghost predicate TokensOver(ins: Inputs, toks: seq<Token>) {
    && |toks| == |ins.u| == |ins.B| == |ins.C|
    && forall i :: 0 <= i < |toks| ==> toks[i].u == ins.u[i] && toks[i].B == ins.B[i] && toks[i].C == ins.C[i]
  }

  /** The gate input takes no part in the recurrence, so it can be read after the output is stored. */
  lemma GateUnused(P: Params, s: State, t: Token)
    requires |s| == |P.A| && Fits(P, t)
    ensures Step(P, s, t) == Step(P, s, t.(z := 0.0))
    ensures Emit(P, Step(P, s, t), t) == Emit(P, Step(P, s, t), t.(z := 0.0))
  {
    hide StepElement, Gain, Dot;
  }

  /** One round of the inner loop. */
  method ScanToken(P: Params, ins: Inputs, lay: Layout, delta: array<real>, out: array<real>,
                   z: array<real>, outZ: array<real>, pos: nat, state0: State,
                   ghost s: State, ghost toks: seq<Token>) returns (state: State)
    requires WellFormed(P, ins) && TokensOver(ins, toks) && |s| == |P.A|
    requires Buffers(ins, lay, delta, out, z, outZ) && pos < |toks|
    requires AllFit(P, toks) && state0 == Fold(P, s, toks[..pos])
    requires Pending(toks, lay, delta[..], z[..], pos)
    modifies out, if lay.hasZ then {outZ} else {}
    ensures state == Fold(P, s, toks[..pos + 1])
    ensures out[..] == old(out[..])[lay.base + pos := Outputs(P, s, toks)[pos]]
    ensures lay.hasZ ==> outZ[..] == old(outZ[..])[lay.zBase + pos := Gate(P, Outputs(P, s, toks)[pos], toks[pos].z)]
  {
    hide Fold, Outputs, Emit, Step, Gate;
    OutputAt(P, s, toks, pos);
    var token := Token(ins.u[pos], delta[lay.base + pos], 0.0, ins.B[pos], ins.C[pos]);
    assert delta[..][lay.base + pos] == toks[pos].delta;
    assert token == toks[pos].(z := 0.0);
    GateUnused(P, state0, toks[pos]);
    state := Step(P, state0, token);
    var y := Emit(P, state, token);
    out[lay.base + pos] := y;
    if lay.hasZ {
      assert z[..][lay.zBase + pos] == toks[pos].z;
      outZ[lay.zBase + pos] := Gate(P, y, z[lay.zBase + pos]);
    }
  }

  lemma NoProgress(P: Params, s: State, toks: seq<Token>, lay: Layout, out: seq<real>, outZ: seq<real>, lo: nat)
    requires |s| == |P.A| && AllFit(P, toks) && lo <= |toks| && lay.base + |toks| <= |out|
    requires lay.hasZ ==> lay.zBase + |toks| <= |outZ|
    ensures Progress(P, s, toks, lay, out, out, lo, lo)
    ensures lay.hasZ ==> GatedProgress(P, s, toks, lay, outZ, outZ, lo, lo)
  {
  }

  lemma MoreProgress(P: Params, s: State, toks: seq<Token>, lay: Layout, before: seq<real>, after: seq<real>, lo: nat, i: nat)
    requires |s| == |P.A| && AllFit(P, toks) && lo <= i < |toks| && lay.base + |toks| <= |before|
    requires Progress(P, s, toks, lay, before, after, lo, i)
    ensures Progress(P, s, toks, lay, before, after[lay.base + i := Outputs(P, s, toks)[i]], lo, i + 1)
  {
    hide Outputs;
  }

  lemma MoreGated(P: Params, s: State, toks: seq<Token>, lay: Layout, before: seq<real>, after: seq<real>, lo: nat, i: nat)
    requires |s| == |P.A| && AllFit(P, toks) && lo <= i < |toks| && lay.zBase + |toks| <= |before|
    requires GatedProgress(P, s, toks, lay, before, after, lo, i)
    ensures GatedProgress(P, s, toks, lay, before,
                          after[lay.zBase + i := Gate(P, Outputs(P, s, toks)[i], toks[i].z)], lo, i + 1)
  {
    hide Outputs, Gate;
  }

  /** What a store at position `i` leaves alone: the inputs of later positions. */
  lemma StillPending(toks: seq<Token>, lay: Layout, delta: seq<real>, z: seq<real>, delta': seq<real>, z': seq<real>, i: nat)
    requires lay.base + |toks| <= |delta| == |delta'| && (lay.hasZ ==> lay.zBase + |toks| <= |z| == |z'|)
    requires Pending(toks, lay, delta, z, i) && i < |toks|
    requires forall j :: 0 <= j < |delta| && j != lay.base + i ==> delta'[j] == delta[j]
    requires lay.hasZ ==> forall j :: 0 <= j < |z| && j != lay.zBase + i ==> z'[j] == z[j]
    ensures Pending(toks, lay, delta', z', i + 1)
  {
  }

  /** The inner loop: `count` tokens from position `start`. */
  method ScanTokens(P: Params, ins: Inputs, lay: Layout, delta: array<real>, out: array<real>,
                    z: array<real>, outZ: array<real>, start: nat, count: nat, state0: State,
                    ghost s: State, ghost toks: seq<Token>) returns (state: State)
    requires WellFormed(P, ins) && TokensOver(ins, toks) && |s| == |P.A|
    requires Buffers(ins, lay, delta, out, z, outZ) && start + count <= |toks|
    requires AllFit(P, toks) && state0 == Fold(P, s, toks[..start])
    requires Pending(toks, lay, delta[..], z[..], start)
    modifies out, if lay.hasZ then {outZ} else {}
    ensures state == Fold(P, s, toks[..start + count])
    ensures Progress(P, s, toks, lay, old(out[..]), out[..], start, start + count)
    ensures lay.hasZ ==> GatedProgress(P, s, toks, lay, old(outZ[..]), outZ[..], start, start + count)
    ensures Pending(toks, lay, delta[..], z[..], start + count)
  {
    hide Fold, Outputs, Gate, Progress, GatedProgress, Pending;
    NoProgress(P, s, toks, lay, out[..], outZ[..], start);
    state := state0;
    var i := start;
    while i < start + count
      invariant start <= i <= start + count && state == Fold(P, s, toks[..i])
      invariant Progress(P, s, toks, lay, old(out[..]), out[..], start, i)
      invariant lay.hasZ ==> GatedProgress(P, s, toks, lay, old(outZ[..]), outZ[..], start, i)
      invariant Pending(toks, lay, delta[..], z[..], i)
    {
      ghost var outs, outZs, deltas, zs := out[..], outZ[..], delta[..], z[..];
      state := ScanToken(P, ins, lay, delta, out, z, outZ, i, state, s, toks);
      assert delta[..] == if out == delta then out[..] else deltas;
      assert lay.hasZ ==> z[..] == if outZ == z then outZ[..] else zs;
      MoreProgress(P, s, toks, lay, old(out[..]), outs, start, i);
      if lay.hasZ { MoreGated(P, s, toks, lay, old(outZ[..]), outZs, start, i); }
      StillPending(toks, lay, deltas, zs, delta[..], z[..], i);
      i := i + 1;
    }
  }
}
