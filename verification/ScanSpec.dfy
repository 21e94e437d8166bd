/**
 The selective state-space recurrence over exact reals. The exponential and the logarithm are
 parameters; the exponential is only known to be positive.
 */
module ScanSpec {
  import opened Basics

  type Positive = r: real | r > 0.0 witness 1.0

  /** The inputs that belong to one feature dimension; `A` has one entry per state element. */
  datatype Params = Params(
    exp: real -> Positive,
    log: real -> real,
    A: seq<real>,
    D: Option<real>,
    bias: Option<real>,
    useSoftplus: bool)

  /** The inputs at one position. */
  datatype Token = Token(u: real, delta: real, z: real, B: seq<real>, C: seq<real>)

  type State = seq<real>

  predicate Fits(P: Params, t: Token) {
    |t.B| == |P.A| && |t.C| == |P.A|
  }

  predicate AllFit(P: Params, toks: seq<Token>) {
    forall i :: 0 <= i < |toks| ==> Fits(P, toks[i])
  }

  function Softplus(P: Params, x: real): (y: real) {
    if x <= 20.0 then P.log(P.exp(x) + 1.0) else x
  }

  /** The step size after bias and softplus. */
  function Gain(P: Params, delta: real): (d: real) {
    var d := if P.bias.Some? then delta + P.bias.value else delta;
    if P.useSoftplus then Softplus(P, d) else d
  }

  /** One state element: decay by `exp(d * a)`, then the new input. */
  function StepElement(P: Params, d: real, a: real, x: real, u: real, b: real): (x': real) {
    P.exp(d * a) * x + d * u * b
  }

  function Step(P: Params, s: State, t: Token): (s': State)
    requires |s| == |P.A| && Fits(P, t)
    ensures |s'| == |s|
    ensures forall k :: 0 <= k < |s| ==> s'[k] == StepElement(P, Gain(P, t.delta), P.A[k], s[k], t.u, t.B[k])
  {
    seq(|s|, k requires 0 <= k < |s| => StepElement(P, Gain(P, t.delta), P.A[k], s[k], t.u, t.B[k]))
  }

  function Dot(a: seq<real>, b: seq<real>): (r: real)
    requires |a| == |b|
  {
    if a == [] then 0.0 else Dot(a[..|a| - 1], b[..|b| - 1]) + a[|a| - 1] * b[|b| - 1]
  }

  /** The output of one position, from the state after it. */
  function Emit(P: Params, s: State, t: Token): (y: real)
    requires |s| == |P.A| && Fits(P, t)
  {
    Dot(s, t.C) + if P.D.Some? then P.D.value * t.u else 0.0
  }

  function Gate(P: Params, y: real, z: real): (r: real) {
    y * z / (1.0 + P.exp(-z))
  }

  /** The zero state. */
  function Rest(n: nat): (s: State) {
    seq(n, _ => 0.0)
  }

  /** The state after a whole sequence. */
  function Fold(P: Params, s: State, toks: seq<Token>): (s': State)
    requires |s| == |P.A| && AllFit(P, toks)
    ensures |s'| == |s|
  {
    if toks == [] then s
    else Step(P, Fold(P, s, toks[..|toks| - 1]), toks[|toks| - 1])
  }

  /** One scan of the whole sequence: the output of each position. */
  function Outputs(P: Params, s: State, toks: seq<Token>): (ys: seq<real>)
    requires |s| == |P.A| && AllFit(P, toks)
    ensures |ys| == |toks|
  {
    if toks == [] then []
    else
      var before := toks[..|toks| - 1];
      Outputs(P, s, before) + [Emit(P, Fold(P, s, toks), toks[|toks| - 1])]
  }

  function GatedOutputs(P: Params, s: State, toks: seq<Token>): (ys: seq<real>)
    requires |s| == |P.A| && AllFit(P, toks)
    ensures |ys| == |toks|
  {
    Gates(P, Outputs(P, s, toks), toks)
  }

  /** Output by output, the gate applied. */
  function Gates(P: Params, ys: seq<real>, toks: seq<Token>): (gs: seq<real>)
    requires |ys| == |toks|
    ensures |gs| == |ys|
  {
    seq(|ys|, i requires 0 <= i < |ys| => Gate(P, ys[i], toks[i].z))
  }

  lemma GatesSlice(P: Params, ys: seq<real>, toks: seq<Token>, i: nat, j: nat)
    requires |ys| == |toks| && i <= j <= |ys|
    ensures Gates(P, ys[i..j], toks[i..j]) == Gates(P, ys, toks)[i..j]
  {
    hide Gate;
  }

  lemma {:induction false} OutputsPrefix(P: Params, s: State, toks: seq<Token>, n: nat)
    requires |s| == |P.A| && AllFit(P, toks) && n <= |toks|
    ensures Outputs(P, s, toks[..n]) == Outputs(P, s, toks)[..n]
  {
    hide Fold, Emit;
    if n == |toks| {
      assert toks[..n] == toks;
    } else {
      var before := toks[..|toks| - 1];
      OutputsPrefix(P, s, before, n);
      assert before[..n] == toks[..n];
    }
  }

  /** Position by position: the output at `n` comes from the state after the first `n + 1` tokens. */
  lemma OutputAt(P: Params, s: State, toks: seq<Token>, n: nat)
    requires |s| == |P.A| && AllFit(P, toks) && n < |toks|
    ensures Fold(P, s, toks[..n + 1]) == Step(P, Fold(P, s, toks[..n]), toks[n])
    ensures Outputs(P, s, toks)[n] == Emit(P, Fold(P, s, toks[..n + 1]), toks[n])
  {
    hide Emit, Step;
    assert toks[..n + 1][..n] == toks[..n];
    OutputsPrefix(P, s, toks, n + 1);
  }

  /** Splitting anywhere and carrying the state over gives the state of one scan. */
  lemma {:induction false} FoldSplit(P: Params, s: State, xs: seq<Token>, ys: seq<Token>)
    requires |s| == |P.A| && AllFit(P, xs) && AllFit(P, ys)
    ensures AllFit(P, xs + ys)
    ensures Fold(P, Fold(P, s, xs), ys) == Fold(P, s, xs + ys)
  {
    if ys == [] {
      assert xs + ys == xs;
    } else {
      var y := ys[..|ys| - 1];
      FoldSplit(P, s, xs, y);
      assert (xs + ys)[..|xs + ys| - 1] == xs + y;
    }
  }

  /** ... and the outputs of one scan. */
  lemma {:induction false} OutputsSplit(P: Params, s: State, xs: seq<Token>, ys: seq<Token>)
    requires |s| == |P.A| && AllFit(P, xs) && AllFit(P, ys)
    ensures AllFit(P, xs + ys)
    ensures Outputs(P, s, xs) + Outputs(P, Fold(P, s, xs), ys) == Outputs(P, s, xs + ys)
  {
    hide Fold, Emit, Step, Outputs;
    FoldSplit(P, s, xs, ys);
    if ys == [] {
      assert xs + ys == xs;
      OutputsEmpty(P, Fold(P, s, xs));
    } else {
      var y, all, mid := ys[..|ys| - 1], xs + ys, Fold(P, s, xs);
      OutputsSplit(P, s, xs, y);
      assert all[..|all| - 1] == xs + y;
      OutputsLast(P, mid, ys);
      OutputsLast(P, s, all);
      calc {
        Outputs(P, s, xs) + Outputs(P, mid, ys);
        Outputs(P, s, xs) + (Outputs(P, mid, y) + [Emit(P, Fold(P, mid, ys), ys[|ys| - 1])]);
        (Outputs(P, s, xs) + Outputs(P, mid, y)) + [Emit(P, Fold(P, mid, ys), ys[|ys| - 1])];
        Outputs(P, s, xs + y) + [Emit(P, Fold(P, s, all), all[|all| - 1])];
        Outputs(P, s, all);
      }
    }
  }

  lemma OutputsEmpty(P: Params, s: State)
    requires |s| == |P.A|
    ensures Outputs(P, s, []) == []
  {
  }

  lemma OutputsLast(P: Params, s: State, toks: seq<Token>)
    requires |s| == |P.A| && AllFit(P, toks) && toks != []
    ensures Outputs(P, s, toks) == Outputs(P, s, toks[..|toks| - 1]) + [Emit(P, Fold(P, s, toks), toks[|toks| - 1])]
  {
  }

  function Flatten<T>(parts: seq<seq<T>>): (all: seq<T>)
  {
    if parts == [] then [] else Flatten(parts[..|parts| - 1]) + parts[|parts| - 1]
  }

  lemma {:induction false} FlattenFits(P: Params, parts: seq<seq<Token>>)
    requires forall i :: 0 <= i < |parts| ==> AllFit(P, parts[i])
    ensures AllFit(P, Flatten(parts))
  {
    if parts != [] {
      FlattenFits(P, parts[..|parts| - 1]);
    }
  }

  /** Scanning part after part, each from the state that the part before it left. */
  function OutputsByParts(P: Params, s: State, parts: seq<seq<Token>>): (r: (State, seq<real>))
    requires |s| == |P.A| && forall i :: 0 <= i < |parts| ==> AllFit(P, parts[i])
    ensures |r.0| == |s|
  {
    if parts == [] then (s, [])
    else
      var (s', ys) := OutputsByParts(P, s, parts[..|parts| - 1]);
      var last := parts[|parts| - 1];
      (Fold(P, s', last), ys + Outputs(P, s', last))
  }

  /** However a sequence is cut into parts, the outputs and the final state are those of one scan. */
  lemma {:induction false} AnySchedule(P: Params, s: State, parts: seq<seq<Token>>)
    requires |s| == |P.A| && forall i :: 0 <= i < |parts| ==> AllFit(P, parts[i])
    ensures AllFit(P, Flatten(parts))
    ensures OutputsByParts(P, s, parts) == (Fold(P, s, Flatten(parts)), Outputs(P, s, Flatten(parts)))
  {
    FlattenFits(P, parts);
    if parts != [] {
      var before, last := parts[..|parts| - 1], parts[|parts| - 1];
      AnySchedule(P, s, before);
      FoldSplit(P, s, Flatten(before), last);
      OutputsSplit(P, s, Flatten(before), last);
    }
  }
}
