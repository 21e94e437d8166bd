/**
 What the recurrence computes, without stepping: every past input, weighted by the decays since.
 */
module ScanClosed {
  import opened Basics
  import opened ScanSpec

  function Product(xs: seq<real>): (p: real) {
    if xs == [] then 1.0 else Product(xs[..|xs| - 1]) * xs[|xs| - 1]
  }

  function Total(xs: seq<real>): (t: real) {
    if xs == [] then 0.0 else Total(xs[..|xs| - 1]) + xs[|xs| - 1]
  }

  /** What a position with step size `g` leaves of a state element with entry `a`. */
  function Decay(P: Params, a: real, g: real): (d: real) {
    P.exp(g * a)
  }

  /** The decays from position `from` on. */
  function Decays(P: Params, a: real, toks: seq<Token>, from: nat): (ds: seq<real>)
    requires from <= |toks|
    ensures |ds| == |toks| - from && forall j :: 0 <= j < |ds| ==> ds[j] == Decay(P, a, Gain(P, toks[from + j].delta))
  {
    seq(|toks| - from, j requires 0 <= j < |toks| - from => Decay(P, a, Gain(P, toks[from + j].delta)))
  }

  /** What a position with step size `g` puts into a state element. */
  function Input(g: real, u: real, b: real): (x: real) {
    g * u * b
  }

  /** What is left of it at the end of the sequence. */
  function Share(P: Params, toks: seq<Token>, k: nat, i: nat): (x: real)
    requires AllFit(P, toks) && k < |P.A| && i < |toks|
  {
    Input(Gain(P, toks[i].delta), toks[i].u, toks[i].B[k]) * Product(Decays(P, P.A[k], toks, i + 1))
  }

  function Shares(P: Params, toks: seq<Token>, k: nat): (xs: seq<real>)
    requires AllFit(P, toks) && k < |P.A|
    ensures |xs| == |toks| && forall i :: 0 <= i < |xs| ==> xs[i] == Share(P, toks, k, i)
  {
    seq(|toks|, i requires 0 <= i < |toks| => Share(P, toks, k, i))
  }

  /** State element `k` after the sequence: the initial one and every input, each decayed since. */
  function ClosedState(P: Params, s: State, toks: seq<Token>, k: nat): (x: real)
    requires |s| == |P.A| && AllFit(P, toks) && k < |P.A|
  {
    s[k] * Product(Decays(P, P.A[k], toks, 0)) + Total(Shares(P, toks, k))
  }

  /** Scaling every summand scales the sum. */
  lemma {:induction false} TotalScaled(xs: seq<real>, ys: seq<real>, e: real)
    requires |xs| == |ys| && forall i :: 0 <= i < |xs| ==> ys[i] == xs[i] * e
    ensures Total(ys) == Total(xs) * e
  {
    if xs != [] {
      TotalScaled(xs[..|xs| - 1], ys[..|ys| - 1], e);
    }
  }

  /** One more position decays everything before it once more. */
  lemma DecaysMore(P: Params, a: real, toks: seq<Token>, from: nat)
    requires from < |toks|
    ensures Product(Decays(P, a, toks, from))
         == Product(Decays(P, a, toks[..|toks| - 1], from)) * Decay(P, a, Gain(P, toks[|toks| - 1].delta))
  {
    hide Decay, Decays;
    var ds := Decays(P, a, toks, from);
    assert ds[..|ds| - 1] == Decays(P, a, toks[..|toks| - 1], from);
  }

  lemma ShareMore(P: Params, toks: seq<Token>, k: nat, i: nat)
    requires AllFit(P, toks) && k < |P.A| && i < |toks| - 1
    ensures Share(P, toks, k, i) == Share(P, toks[..|toks| - 1], k, i) * Decay(P, P.A[k], Gain(P, toks[|toks| - 1].delta))
  {
    hide Decay, Decays, Product, Input;
    DecaysMore(P, P.A[k], toks, i + 1);
    Regroup(Input(Gain(P, toks[i].delta), toks[i].u, toks[i].B[k]), Product(Decays(P, P.A[k], toks[..|toks| - 1], i + 1)), Decay(P, P.A[k], Gain(P, toks[|toks| - 1].delta)));
  }

  lemma LastShare(P: Params, toks: seq<Token>, k: nat)
    requires AllFit(P, toks) && k < |P.A| && toks != []
    ensures var t := toks[|toks| - 1]; Share(P, toks, k, |toks| - 1) == Input(Gain(P, t.delta), t.u, t.B[k])
  {
    hide Input;
    assert Decays(P, P.A[k], toks, |toks|) == [];
  }

  /** The contributions after one more position. */
  lemma SharesMore(P: Params, toks: seq<Token>, k: nat)
    requires AllFit(P, toks) && k < |P.A| && toks != []
    ensures var t := toks[|toks| - 1];
      Total(Shares(P, toks, k)) == Total(Shares(P, toks[..|toks| - 1], k)) * Decay(P, P.A[k], Gain(P, t.delta)) + Input(Gain(P, t.delta), t.u, t.B[k])
  {
    hide Decay, Share, Input, Shares;
    var n := |toks| - 1;
    var xs, ys := Shares(P, toks[..n], k), Shares(P, toks, k)[..n];
    forall i | 0 <= i < n ensures ys[i] == xs[i] * Decay(P, P.A[k], Gain(P, toks[n].delta)) {
      ShareMore(P, toks, k, i);
    }
    TotalScaled(xs, ys, Decay(P, P.A[k], Gain(P, toks[n].delta)));
    LastShare(P, toks, k);
  }

  lemma Regroup(x: real, y: real, e: real)
    ensures x * (y * e) == x * y * e
  {
  }

  /** The state after a sequence, element by element, in closed form. */
  lemma {:induction false} FoldIsClosed(P: Params, s: State, toks: seq<Token>, k: nat)
    requires |s| == |P.A| && AllFit(P, toks) && k < |P.A|
    ensures Fold(P, s, toks)[k] == ClosedState(P, s, toks, k)
  {
    hide Decays, Shares, StepElement, Decay, Input, Gain;
    if toks == [] {
      assert Decays(P, P.A[k], toks, 0) == [] && Shares(P, toks, k) == [];
    } else {
      var front, t := toks[..|toks| - 1], toks[|toks| - 1];
      FoldIsClosed(P, s, front, k);
      DecaysMore(P, P.A[k], toks, 0);
      SharesMore(P, toks, k);
      OneStep(P, Gain(P, t.delta), P.A[k], Fold(P, s, front)[k], t.u, t.B[k]);
      hide Product, Total;
      Distribute(s[k], Product(Decays(P, P.A[k], front, 0)), Total(Shares(P, front, k)), Decay(P, P.A[k], Gain(P, t.delta)));
    }
  }

  lemma OneStep(P: Params, g: real, a: real, x: real, u: real, b: real)
    ensures StepElement(P, g, a, x, u, b) == Decay(P, a, g) * x + Input(g, u, b)
  {
  }

  lemma Distribute(x: real, y: real, z: real, e: real)
    ensures e * (x * y + z) == x * (y * e) + z * e
  {
  }

  /** The terms of the output of position `n`, one per state element. */
  function Terms(P: Params, s: State, toks: seq<Token>, n: nat): (ts: seq<real>)
    requires |s| == |P.A| && AllFit(P, toks) && n < |toks|
    ensures |ts| == |s| && forall k :: 0 <= k < |ts| ==> ts[k] == toks[n].C[k] * ClosedState(P, s, toks[..n + 1], k)
  {
    seq(|P.A|, k requires 0 <= k < |P.A| => toks[n].C[k] * ClosedState(P, s, toks[..n + 1], k))
  }

  /** What position `n` puts out: its row of `C` applied to the state, and the skip term. */
  function ClosedOutput(P: Params, s: State, toks: seq<Token>, n: nat): (y: real)
    requires |s| == |P.A| && AllFit(P, toks) && n < |toks|
  {
    Total(Terms(P, s, toks, n)) + (match P.D case None => 0.0 case Some(d) => d * toks[n].u)
  }

  lemma {:induction false} DotIsTotal(a: seq<real>, b: seq<real>, terms: seq<real>)
    requires |a| == |b| == |terms| && forall k :: 0 <= k < |a| ==> terms[k] == b[k] * a[k]
    ensures Dot(a, b) == Total(terms)
  {
    if a != [] {
      DotIsTotal(a[..|a| - 1], b[..|b| - 1], terms[..|terms| - 1]);
    }
  }

  /** The outputs of a scan in closed form. */
  lemma OutputIsClosed(P: Params, s: State, toks: seq<Token>, n: nat)
    requires |s| == |P.A| && AllFit(P, toks) && n < |toks|
    ensures Outputs(P, s, toks)[n] == ClosedOutput(P, s, toks, n)
  {
    hide *;
    OutputAt(P, s, toks, n);
    StateIsTerms(P, s, toks, n);
    SkipTerm(P, Fold(P, s, toks[..n + 1]), toks[n]);
    DotIsTotal(Fold(P, s, toks[..n + 1]), toks[n].C, Terms(P, s, toks, n));
    OutputTerms(P, s, toks, n);
  }

  lemma StateIsTerms(P: Params, s: State, toks: seq<Token>, n: nat)
    requires |s| == |P.A| && AllFit(P, toks) && n < |toks|
    ensures AllFit(P, toks[..n + 1]) && Fits(P, toks[n]) && |toks[n].C| == |s|
    ensures var a, terms := Fold(P, s, toks[..n + 1]), Terms(P, s, toks, n);
      forall k :: 0 <= k < |terms| ==> terms[k] == toks[n].C[k] * a[k]
  {
    hide ClosedState, Fold, Terms;
    forall k | 0 <= k < |P.A| ensures Terms(P, s, toks, n)[k] == toks[n].C[k] * Fold(P, s, toks[..n + 1])[k] {
      FoldIsClosed(P, s, toks[..n + 1], k);
    }
  }

  function Skip(P: Params, t: Token): (y: real) {
    match P.D case None => 0.0 case Some(d) => d * t.u
  }

  lemma SkipTerm(P: Params, s: State, t: Token)
    requires |s| == |P.A| && Fits(P, t)
    ensures Emit(P, s, t) == Dot(s, t.C) + Skip(P, t)
  {
    hide Dot;
  }

  lemma OutputTerms(P: Params, s: State, toks: seq<Token>, n: nat)
    requires |s| == |P.A| && AllFit(P, toks) && n < |toks|
    ensures ClosedOutput(P, s, toks, n) == Total(Terms(P, s, toks, n)) + Skip(P, toks[n])
  {
    hide Total, Terms;
  }

  /** The same from the zero state: only the inputs are left. */
  function ZeroTerms(P: Params, toks: seq<Token>, n: nat): (ts: seq<real>)
    requires AllFit(P, toks) && n < |toks|
    ensures |ts| == |P.A| && forall k :: 0 <= k < |ts| ==> ts[k] == toks[n].C[k] * Total(Shares(P, toks[..n + 1], k))
  {
    seq(|P.A|, k requires 0 <= k < |P.A| => toks[n].C[k] * Total(Shares(P, toks[..n + 1], k)))
  }

  function ZeroOutput(P: Params, toks: seq<Token>, n: nat): (y: real)
    requires AllFit(P, toks) && n < |toks|
  {
    Total(ZeroTerms(P, toks, n)) + (match P.D case None => 0.0 case Some(d) => d * toks[n].u)
  }

  lemma FromRest(P: Params, toks: seq<Token>, k: nat)
    requires AllFit(P, toks) && k < |P.A|
    ensures ClosedState(P, Rest(|P.A|), toks, k) == Total(Shares(P, toks, k))
  {
    hide Decays, Product, Total, Shares;
    assert 0.0 * Product(Decays(P, P.A[k], toks, 0)) == 0.0;
  }

  /** The outputs of a scan from the zero state. */
  lemma OutputFromRest(P: Params, toks: seq<Token>, n: nat)
    requires AllFit(P, toks) && n < |toks|
    ensures Outputs(P, Rest(|P.A|), toks)[n] == ZeroOutput(P, toks, n)
  {
    hide *;
    TermsFromRest(P, toks, n);
    OutputIsClosed(P, Rest(|P.A|), toks, n);
    OutputTerms(P, Rest(|P.A|), toks, n);
    ZeroOutputTerms(P, toks, n);
  }

  lemma TermsFromRest(P: Params, toks: seq<Token>, n: nat)
    requires AllFit(P, toks) && n < |toks|
    ensures |Rest(|P.A|)| == |P.A| && Terms(P, Rest(|P.A|), toks, n) == ZeroTerms(P, toks, n)
  {
    hide Total, Terms, ZeroTerms, ClosedState, Shares;
    forall k | 0 <= k < |P.A| ensures Terms(P, Rest(|P.A|), toks, n)[k] == ZeroTerms(P, toks, n)[k] {
      FromRest(P, toks[..n + 1], k);
    }
  }

  lemma ZeroOutputTerms(P: Params, toks: seq<Token>, n: nat)
    requires AllFit(P, toks) && n < |toks|
    ensures ZeroOutput(P, toks, n) == Total(ZeroTerms(P, toks, n)) + Skip(P, toks[n])
  {
    hide Total, ZeroTerms;
  }

  // ----- the step size and the gate -----

  /** `log` undoes `exp` here. */
  ghost predicate Inverse(P: Params, y: real) { y > 0.0 ==> P.exp(P.log(y)) == y }

  /** The step size is the shifted input, or with softplus the number whose exponential is one more than the input's. */
  lemma GainIs(P: Params, delta: real)
    ensures var x := delta + (match P.bias case None => 0.0 case Some(b) => b);
      && (!P.useSoftplus || x > 20.0 ==> Gain(P, delta) == x)
      && (P.useSoftplus && x <= 20.0 && Inverse(P, 1.0 + P.exp(x)) ==> P.exp(Gain(P, delta)) == 1.0 + P.exp(x))
  {
  }

  /** With `exp(-z)` the reciprocal of `exp(z)`: the gate takes the share `e^z / (e^z + 1)`, and what is left is the gate of `-z`. */
  lemma GateIs(P: Params, y: real, z: real)
    requires P.exp(z) * P.exp(-z) == 1.0
    ensures Gate(P, y, z) * (P.exp(z) + 1.0) == y * z * P.exp(z)
    ensures Gate(P, y, z) - Gate(P, y, -z) == y * z
  {
    var e, f, x := P.exp(z), P.exp(-z), y * z;
    assert -(-z) == z;
    Reciprocals(e, f, x);
    assert y * -z == -x;
  }

  lemma Reciprocals(e: real, f: real, x: real)
    requires e > 0.0 && f > 0.0 && e * f == 1.0
    ensures x / (1.0 + f) * (e + 1.0) == x * e
    ensures x / (1.0 + f) - -x / (1.0 + e) == x
  {
    var g := x / (1.0 + f);
    assert g * (1.0 + f) == x;
    assert g * (1.0 + f) * e == g * e + g * (f * e);
    assert g * (e + 1.0) == x * e;
    var h := -x / (1.0 + e);
    assert h * (1.0 + e) == -x;
    assert (g - h) * (1.0 + e) == x * (1.0 + e);
    Cancel(g - h, x, 1.0 + e);
  }

  lemma Cancel(a: real, b: real, c: real)
    requires c > 0.0 && a * c == b * c
    ensures a == b
  {
  }

  lemma GatedAt(P: Params, s: State, toks: seq<Token>, n: nat)
    requires |s| == |P.A| && AllFit(P, toks) && n < |toks|
    ensures GatedOutputs(P, s, toks)[n] == Gate(P, Outputs(P, s, toks)[n], toks[n].z)
  {
    hide Outputs, Gate;
  }

  /** The gated outputs of a scan from the zero state. */
  lemma GatedFromRest(P: Params, toks: seq<Token>, n: nat)
    requires AllFit(P, toks) && n < |toks| && P.exp(toks[n].z) * P.exp(-toks[n].z) == 1.0
    ensures GatedOutputs(P, Rest(|P.A|), toks)[n] * (P.exp(toks[n].z) + 1.0) == ZeroOutput(P, toks, n) * toks[n].z * P.exp(toks[n].z)
  {
    hide ZeroOutput, Outputs, Gate, GatedOutputs;
    OutputFromRest(P, toks, n);
    GatedAt(P, Rest(|P.A|), toks, n);
    GateIs(P, Outputs(P, Rest(|P.A|), toks)[n], toks[n].z);
  }
}
