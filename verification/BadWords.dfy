/**
 The logits processor that keeps bad words out of a generation. Logits are exact reals or minus
 infinity.
 */
module BadWords {
  import opened Basics

  datatype Logit = NegInf | Finite(value: real)

  function Add(a: Logit, b: Logit): (c: Logit)
    ensures c.NegInf? <==> a.NegInf? || b.NegInf?
    ensures c.Finite? ==> c.value == a.value + b.value
  {
    if a.NegInf? || b.NegInf? then NegInf else Finite(a.value + b.value)
  }

  /** The index into a tensor of length `n` that broadcasting uses for element `t`. */
  function Wrap(t: nat, n: nat): (i: nat)
    ensures i == t || (n == 1 && i == 0)
  {
    if n == 1 then 0 else t
  }

  /** Tensor addition: equal lengths, or one of them broadcast from length one. */
  function Plus(a: seq<Logit>, b: seq<Logit>): (c: Option<seq<Logit>>)
    ensures c.None? <==> |a| != |b| && |a| != 1 && |b| != 1
    ensures c.Some? ==> |c.value| == if |a| == 1 then |b| else |a|
    ensures c.Some? ==> forall t :: 0 <= t < |c.value| ==> c.value[t] == Add(a[Wrap(t, |a|)], b[Wrap(t, |b|)])
  {
    if |a| != |b| && |a| != 1 && |b| != 1 then None
    else
      var n := if |a| == 1 then |b| else |a|;
      Some(seq(n, t requires 0 <= t < n => Add(a[Wrap(t, |a|)], b[Wrap(t, |b|)])))
  }

  // ----- the meaning -----

  /** Generating `t` after `past` completes the bad word `w`. */
  predicate Completes(w: seq<int>, past: seq<int>, t: int) {
    0 < |w| <= |past| + 1 && (past + [t])[|past| + 1 - |w|..] == w
  }

  /** Generating `t` after `past` completes some bad word. */
  predicate Forbidden(words: seq<seq<int>>, past: seq<int>, t: int) {
    exists w :: w in words && Completes(w, past, t)
  }

  predicate OccursAt(w: seq<int>, out: seq<int>, k: nat) {
    k + |w| <= |out| && out[k..k + |w|] == w
  }

  /** No non-empty bad word is anywhere in `out`. */
  ghost predicate Clean(words: seq<seq<int>>, out: seq<int>) {
    forall w, k | w in words && w != [] && 0 <= k <= |out| :: !OccursAt(w, out, k)
  }

  /** A bad word in `out + [t]` is either in `out` or ends with `t`. */
  lemma OccursInLonger(w: seq<int>, out: seq<int>, t: int, k: nat)
    requires w != []
    ensures OccursAt(w, out + [t], k) <==> OccursAt(w, out, k) || (Completes(w, out, t) && k == |out| + 1 - |w|)
  {
    var all := out + [t];
    if k + |w| <= |out| {
      assert all[k..k + |w|] == out[k..k + |w|];
    } else if k + |w| == |out| + 1 {
      assert all[k..k + |w|] == all[k..];
    }
  }

  lemma CleanStep(words: seq<seq<int>>, out: seq<int>, t: int)
    ensures Clean(words, out + [t]) <==> Clean(words, out) && !Forbidden(words, out, t)
  {
    forall w, k: nat | w in words && w != []
      ensures OccursAt(w, out + [t], k) <==> OccursAt(w, out, k) || (Completes(w, out, t) && k == |out| + 1 - |w|)
    {
      OccursInLonger(w, out, t, k);
    }
    if Forbidden(words, out, t) {
      var w :| w in words && Completes(w, out, t);
      assert OccursAt(w, out + [t], |out| + 1 - |w|);
    }
  }

  /** A generation is clean exactly when none of its tokens was forbidden at the time. */
  lemma {:induction false} CleanGeneration(words: seq<seq<int>>, out: seq<int>)
    ensures Clean(words, out) <==> forall k :: 0 <= k < |out| ==> !Forbidden(words, out[..k], out[k])
  {
    hide Clean, Forbidden;
    if out == [] {
      NothingIsClean(words);
    } else {
      var n := |out| - 1;
      assert out == out[..n] + [out[n]];
      CleanGeneration(words, out[..n]);
      CleanStep(words, out[..n], out[n]);
      assert forall k :: 0 <= k < n ==> out[..n][..k] == out[..k] && out[..n][k] == out[k];
    }
  }

  lemma NothingIsClean(words: seq<seq<int>>)
    ensures Clean(words, [])
  {
  }

  // ----- the check of the token ids -----

  function InvalidIn(w: seq<int>, vocab: nat): (ids: seq<int>)
    ensures ids == [] <==> forall i :: 0 <= i < |w| ==> 0 <= w[i] < vocab
  {
    if w == [] then []
    else
      var n := |w| - 1;
      assert w == w[..n] + [w[n]];
      InvalidIn(w[..n], vocab) + if w[n] < 0 || w[n] >= vocab then [w[n]] else []
  }

  function Invalid(words: seq<seq<int>>, vocab: nat): (ids: seq<int>)
    ensures ids == [] <==> forall i :: 0 <= i < |words| ==> InvalidIn(words[i], vocab) == []
  {
    if words == [] then []
    else
      var n := |words| - 1;
      assert words == words[..n] + [words[n]];
      Invalid(words[..n], vocab) + InvalidIn(words[n], vocab)
  }

  predicate InVocabulary(words: seq<seq<int>>, vocab: nat) {
    forall i, j :: 0 <= i < |words| && 0 <= j < |words[i]| ==> 0 <= words[i][j] < vocab
  }

  lemma InvalidIsOutside(words: seq<seq<int>>, vocab: nat)
    ensures Invalid(words, vocab) == [] <==> InVocabulary(words, vocab)
  {
    if Invalid(words, vocab) == [] {
      assert forall i :: 0 <= i < |words| ==> InvalidIn(words[i], vocab) == [];
    }
  }

  /** The ids are listed as often as they occur, and nothing else is. */
  lemma {:induction false} InvalidInCounts(w: seq<int>, vocab: nat, x: int)
    ensures multiset(InvalidIn(w, vocab))[x] == if 0 <= x < vocab then 0 else multiset(w)[x]
  {
    if w != [] {
      var n := |w| - 1;
      InvalidInCounts(w[..n], vocab, x);
      assert w == w[..n] + [w[n]];
    }
  }

  function Occurrences(words: seq<seq<int>>, x: int): (n: nat) {
    if words == [] then 0 else Occurrences(words[..|words| - 1], x) + multiset(words[|words| - 1])[x]
  }

  lemma {:induction false} InvalidCounts(words: seq<seq<int>>, vocab: nat, x: int)
    ensures multiset(Invalid(words, vocab))[x] == if 0 <= x < vocab then 0 else Occurrences(words, x)
  {
    if words != [] {
      var n := |words| - 1;
      InvalidCounts(words[..n], vocab, x);
      InvalidInCounts(words[n], vocab, x);
    }
  }

  // ----- the processor -----

  /** `bias` bans the tokens in `banned` and is neutral elsewhere. */
  ghost predicate Bans(bias: seq<Logit>, banned: iset<int>) {
    forall t :: 0 <= t < |bias| ==> bias[t] == if t in banned then NegInf else Finite(0.0)
  }

  /** The words of one token among the first `n`. */
  ghost function Single(words: seq<seq<int>>, n: nat): (s: iset<int>)
    requires n <= |words|
  {
    iset t: int | [t] in words[..n]
  }

  lemma SingleStep(words: seq<seq<int>>, i: nat)
    requires i < |words|
    ensures Single(words, i + 1) == Single(words, i) + if |words[i]| == 1 then iset{words[i][0]} else iset{}
  {
    assert words[..i + 1] == words[..i] + [words[i]];
    assert |words[i]| == 1 ==> words[i] == [words[i][0]];
  }

  lemma NoSingle(words: seq<seq<int>>)
    ensures Single(words, 0) == iset{}
  {
  }

  lemma WordsInside(words: seq<seq<int>>, vocab: nat)
    requires InVocabulary(words, vocab)
    ensures forall i :: 0 <= i < |words| && |words[i]| > 0 ==> 0 <= words[i][0] < vocab
  {
  }

  /** The tokens that complete a longer word among the first `n`. */
  ghost function Longer(words: seq<seq<int>>, n: nat, past: seq<int>): (s: iset<int>)
    requires n <= |words|
  {
    iset t: int | EndsLonger(words, n, past, t)
  }

  ghost predicate EndsLonger(words: seq<seq<int>>, n: nat, past: seq<int>, t: int)
    requires n <= |words|
  {
    exists i :: 0 <= i < n && |words[i]| > 1 && Completes(words[i], past, t)
  }

  lemma ForbiddenIsEither(words: seq<seq<int>>, past: seq<int>, t: int)
    ensures Forbidden(words, past, t) <==> t in Single(words, |words|) || t in Longer(words, |words|, past)
  {
    assert words[..|words|] == words;
    if Forbidden(words, past, t) {
      var w :| w in words && Completes(w, past, t);
      var i :| 0 <= i < |words| && words[i] == w;
      if |w| == 1 { assert w == [t]; }
    }
    if [t] in words { assert (past + [t])[|past|..] == [t]; assert Completes([t], past, t); }
  }

  /** The comparison of the last tokens with the word's prefix. */
  lemma PrefixMatch(w: seq<int>, past: seq<int>)
    requires 1 < |w| <= |past| + 1
    ensures forall t :: Completes(w, past, t) <==> past[|past| - (|w| - 1)..] == w[..|w| - 1] && t == w[|w| - 1]
  {
    var n := |w| - 1;
    forall t ensures Completes(w, past, t) <==> past[|past| - n..] == w[..n] && t == w[n] {
      assert (past + [t])[|past| - n..] == past[|past| - n..] + [t];
      assert w == w[..n] + [w[n]];
    }
  }

  /** The loop over the longer words reaches one that is empty or whose last token has no logit. */
  ghost predicate Trips(words: seq<seq<int>>, n: nat, past: seq<int>, vocab: nat)
    requires n <= |words|
  {
    exists i :: 0 <= i < n && TripsAt(words[i], past, vocab)
  }

  predicate TripsAt(w: seq<int>, past: seq<int>, vocab: nat) {
    w == [] || (1 < |w| <= |past| + 1 && w[|w| - 1] >= vocab)
  }

  lemma TripsStep(words: seq<seq<int>>, i: nat, past: seq<int>, vocab: nat)
    requires i < |words|
    ensures Trips(words, i + 1, past, vocab) <==> Trips(words, i, past, vocab) || TripsAt(words[i], past, vocab)
    ensures Trips(words, i + 1, past, vocab) ==> Trips(words, |words|, past, vocab)
  {
  }

  lemma NoneLonger(words: seq<seq<int>>, past: seq<int>, vocab: nat)
    ensures Longer(words, 0, past) == iset{} && !Trips(words, 0, past, vocab)
  {
  }

  /** What the comparison of one word with the last tokens adds. */
  lemma LongerStep(words: seq<seq<int>>, i: nat, past: seq<int>)
    requires i < |words|
    ensures var w := words[i];
      Longer(words, i + 1, past) == Longer(words, i, past)
        + if 1 < |w| <= |past| + 1 && past[|past| - (|w| - 1)..] == w[..|w| - 1] then iset{w[|w| - 1]} else iset{}
  {
    var w := words[i];
    if 1 < |w| <= |past| + 1 { PrefixMatch(w, past); }
    hide Completes;
    forall t ensures EndsLonger(words, i + 1, past, t) <==> EndsLonger(words, i, past, t) || (|w| > 1 && Completes(w, past, t)) {
    }
    assert |w| > |past| + 1 ==> forall t :: !Completes(w, past, t) by { TooLong(w, past); }
  }

  lemma TooLong(w: seq<int>, past: seq<int>)
    ensures |w| > |past| + 1 ==> forall t :: !Completes(w, past, t)
  {
  }

  lemma TripsOnEmpty(words: seq<seq<int>>, past: seq<int>, vocab: nat)
    requires InVocabulary(words, vocab)
    ensures Trips(words, |words|, past, vocab) <==> [] in words
  {
  }

  /** The two additions, element by element. */
  lemma Biased(words: seq<seq<int>>, past: seq<int>, logits: seq<Logit>, one: seq<Logit>, many: seq<Logit>)
    requires Bans(one, Single(words, |words|)) && Bans(many, Longer(words, |words|, past)) && |many| == |logits|
    requires Plus(logits, one).Some?
    ensures var r := Plus(Plus(logits, one).value, many);
      && r.Some? && |r.value| == (if |logits| == 1 then |one| else |logits|)
      && (forall t :: 0 <= t < |r.value| ==>
            r.value[t] == if Wrap(t, |one|) in Single(words, |words|) || Wrap(t, |logits|) in Longer(words, |words|, past)
                          then NegInf else logits[Wrap(t, |logits|)])
      && (|one| == |logits| ==> forall t :: 0 <= t < |logits| ==>
            r.value[t] == if Forbidden(words, past, t) then NegInf else logits[t])
  {
    hide Single, Longer, Forbidden;
    forall t | 0 <= t < |logits|
      ensures Forbidden(words, past, t) <==> t in Single(words, |words|) || t in Longer(words, |words|, past)
    {
      ForbiddenIsEither(words, past, t);
    }
  }

  datatype Outcome =
    | ValueError(ids: seq<int>) | IndexError | ShapeError
    | Scores(logits: seq<Logit>)

  /** The vocabulary size that a call goes by: the cached one, or its own. */
  function Vocabulary(bias: Option<seq<Logit>>, logits: seq<Logit>): (n: nat) {
    if bias.Some? then |bias.value| else |logits|
  }

  class NoBadWords {
    const words: seq<seq<int>>
    var bias: Option<seq<Logit>>

    constructor (words: seq<seq<int>>)
      ensures this.words == words && bias == None
    {
      this.words := words;
      bias := None;
    }

    /** The cached bias, once there is one, is that of the words of one token. */
    ghost predicate Valid()
      reads this
    {
      bias.Some? ==> InVocabulary(words, |bias.value|) && Bans(bias.value, Single(words, |words|))
    }

    method CheckTokenIds(vocab: nat) returns (invalid: seq<int>)
      ensures invalid == Invalid(words, vocab)
    {
      invalid := [];
      for i := 0 to |words|
        invariant invalid == Invalid(words[..i], vocab)
      {
        invalid := CheckWord(words[i], vocab, invalid);
        assert words[..i + 1][..i] == words[..i];
      }
      assert words[..|words|] == words;
    }

    /** The inner loop: the ids of one word are checked. */
    static method CheckWord(w: seq<int>, vocab: nat, before: seq<int>) returns (invalid: seq<int>)
      ensures invalid == before + InvalidIn(w, vocab)
    {
      invalid := before;
      for j := 0 to |w|
        invariant invalid == before + InvalidIn(w[..j], vocab)
      {
        assert w[..j + 1][..j] == w[..j];
        if w[j] < 0 || w[j] >= vocab { invalid := invalid + [w[j]]; }
      }
      assert w[..|w|] == w;
    }

    method InitWordBias(vocab: nat) returns (invalid: seq<int>)
      requires Valid() && bias.None?
      modifies this
      ensures Valid() && invalid == Invalid(words, vocab)
      ensures bias.Some? <==> InVocabulary(words, vocab)
      ensures bias.Some? ==> |bias.value| == vocab
    {
      hide InVocabulary, Single, Invalid, Bans;
      invalid := CheckTokenIds(vocab);
      InvalidIsOutside(words, vocab);
      if invalid != [] { return; }
      var b := SingleBias(vocab);
      bias := Some(b);
    }

    /** The bias of the words of one token. */
    method SingleBias(vocab: nat) returns (b: seq<Logit>)
      requires InVocabulary(words, vocab)
      ensures |b| == vocab && Bans(b, Single(words, |words|))
    {
      hide InVocabulary, Single;
      WordsInside(words, vocab);
      NoSingle(words);
      b := seq(vocab, _ => Finite(0.0));
      for i := 0 to |words|
        invariant |b| == vocab && Bans(b, Single(words, i))
      {
        SingleStep(words, i);
        if |words[i]| == 1 {
          b := b[words[i][0] := NegInf];
        }
      }
    }

    /** The bias of the words that the next token could complete. */
    method LastTokenBias(past: seq<int>, vocab: nat, ghost known: nat) returns (r: Option<seq<Logit>>)
      requires InVocabulary(words, known)
      ensures r.None? <==> Trips(words, |words|, past, vocab)
      ensures r.Some? ==> |r.value| == vocab && Bans(r.value, Longer(words, |words|, past))
    {
      hide Longer, Trips, Completes;
      NoneLonger(words, past, vocab);
      var b := seq(vocab, _ => Finite(0.0));
      for i := 0 to |words|
        invariant |b| == vocab && Bans(b, Longer(words, i, past)) && !Trips(words, i, past, vocab)
      {
        var w := words[i];
        LongerStep(words, i, past);
        TripsStep(words, i, past, vocab);
        if |w| == 1 || |w| > |past| + 1 { continue; }
        if |w| == 0 || w[|w| - 1] >= vocab { return None; }
        var n := |w| - 1;
        var isMatch := past[|past| - n..] == w[..n];
        b := b[w[n] := Add(b[w[n]], if isMatch then NegInf else Finite(0.0))];
      }
      return Some(b);
    }

    /**
     One call. An empty bad word makes every call fail; otherwise a logit becomes minus infinity if
     its token would complete a bad word, and is unchanged if it would not. With logits of another
     length than the cached bias the call fails, unless one of the two has length one and is broadcast.
     */
    method Call(past: seq<int>, logits: seq<Logit>) returns (r: Outcome)
      requires Valid()
      modifies this
      ensures Valid() && (old(bias).Some? ==> bias == old(bias))
      ensures bias.Some? <==> InVocabulary(words, Vocabulary(old(bias), logits))
      ensures bias.Some? ==> |bias.value| == Vocabulary(old(bias), logits)
      ensures r.ValueError? <==> !InVocabulary(words, Vocabulary(old(bias), logits))
      ensures r.ValueError? ==> r.ids == Invalid(words, |logits|)
      ensures r.IndexError? <==> bias.Some? && Trips(words, |words|, past, |logits|)
      ensures r.ShapeError? <==>
                bias.Some? && !r.IndexError? && |logits| != |bias.value| && |logits| != 1 && |bias.value| != 1
      ensures r.Scores? ==> |r.logits| == if |logits| == 1 then |bias.value| else |logits|
      ensures r.Scores? ==> forall t :: 0 <= t < |r.logits| ==>
        r.logits[t] == if Wrap(t, |bias.value|) in Single(words, |words|) || Wrap(t, |logits|) in Longer(words, |words|, past)
                       then NegInf else logits[Wrap(t, |logits|)]
      ensures bias.Some? && |logits| == |bias.value| ==> (r.IndexError? <==> [] in words)
      ensures r.Scores? && |logits| == |bias.value| ==> forall t :: 0 <= t < |logits| ==>
        r.logits[t] == if Forbidden(words, past, t) then NegInf else logits[t]
    {
      if bias.None? {
        var invalid := InitWordBias(|logits|);
        if bias.None? { return ValueError(invalid); }
      }
      TripsOnEmpty(words, past, |bias.value|);
      hide Trips, InVocabulary, Single, Longer, Bans, Add, Plus, Forbidden, Invalid;
      var last := LastTokenBias(past, |logits|, |bias.value|);
      if last.None? { return IndexError; }
      var sum := Plus(logits, bias.value);
      if sum.None? { return ShapeError; }
      sum := Plus(sum.value, last.value);
      Biased(words, past, logits, bias.value, last.value);
      return Scores(sum.value);
    }
  }

  /**
   A generation: at each step the model's logits are processed and the pick is appended if its
   processed logit is above minus infinity. `stopped` says that a pick was refused or a call failed.
   */
  method Generate(p: NoBadWords, vocab: nat, model: seq<seq<Logit>>, picks: seq<nat>) returns (out: seq<int>, stopped: bool)
    requires p.Valid() && (p.bias.Some? ==> |p.bias.value| == vocab)
    requires |picks| == |model| && forall i :: 0 <= i < |model| ==> |model[i]| == vocab && picks[i] < vocab
    modifies p
    ensures p.Valid() && Clean(p.words, out) && |out| <= |picks| && out == picks[..|out|]
    ensures stopped <==> |out| < |picks|
    ensures stopped ==>
      || !InVocabulary(p.words, vocab) || [] in p.words
      || model[|out|][picks[|out|]].NegInf? || !Clean(p.words, out + [picks[|out|]])
  {
    hide Clean, Forbidden, InVocabulary;
    out, stopped := [], false;
    NothingIsClean(p.words);
    for i := 0 to |model|
      invariant p.Valid() && (p.bias.Some? ==> |p.bias.value| == vocab)
      invariant |out| == i && out == picks[..i] && Clean(p.words, out)
    {
      var r := p.Call(out, model[i]);
      if !r.Scores? { return out, true; }
      var t := picks[i];
      CleanStep(p.words, out, t);
      if r.logits[t].NegInf? { return out, true; }
      out := out + [t];
    }
  }
}
