/** Running sums of sequences, and a few facts about division. */
module Sums {

  function Sum(sizes: seq<nat>): (total: nat)
  {
    if sizes == [] then 0 else Sum(sizes[..|sizes| - 1]) + sizes[|sizes| - 1]
  }

  /** Where chunk `i` starts, relative to the base address. */
  function Offset(sizes: seq<nat>, i: nat): (o: nat)
    requires i <= |sizes|
  {
    Sum(sizes[..i])
  }

  lemma OffsetStep(sizes: seq<nat>, i: nat)
    requires i < |sizes|
    ensures Offset(sizes, i + 1) == Offset(sizes, i) + sizes[i]
  {
    assert sizes[..i + 1][..i] == sizes[..i];
  }

  lemma {:induction false} OffsetMono(sizes: seq<nat>, i: nat, j: nat)
    requires i <= j <= |sizes|
    ensures Offset(sizes, i) <= Offset(sizes, j)
    decreases j
  {
    if i < j {
      OffsetMono(sizes, i, j - 1);
      OffsetStep(sizes, j - 1);
    }
  }

  lemma OffsetEnds(sizes: seq<nat>)
    ensures Offset(sizes, 0) == 0 && Offset(sizes, |sizes|) == Sum(sizes)
  {
    assert sizes[..|sizes|] == sizes;
  }

  lemma DivMul(x: nat, g: nat)
    requires g > 0
    ensures 0 <= x / g * g <= x < x / g * g + g
  {
    assert x == g * (x / g) + x % g;
    assert g * (x / g) == x / g * g;
  }

  lemma MultipleOf(k: int, g: nat)
    requires g > 0
    ensures k * g % g == 0
  {
    var q, r := k * g / g, k * g % g;
    assert k * g == g * q + r;
    assert g * (k - q) == r;
    Beyond(g, k - q);
  }

  /** A multiple of `g` other than zero is at least `g` away from it. */
  lemma Beyond(g: nat, d: int)
    ensures d >= 1 ==> g * d >= g
    ensures d <= -1 ==> g * d <= 0 - g
  {
    if d >= 1 { MulMono(g, 1, d); } else if d <= -1 { MulMono(g, d, -1); }
  }

  lemma MulMono(g: nat, a: int, b: int)
    requires a <= b
    ensures g * a <= g * b
  {
    assert g * (b - a) >= 0;
  }

  lemma QuotientIs(x: nat, q: nat, size: nat)
    requires size > 0 && q * size <= x < q * size + size
    ensures x / size == q
  {
    DivMul(x, size);
    var p := x / size;
    assert p * size + size == (p + 1) * size && q * size + size == (q + 1) * size;
    if p < q {
      MulMono(size, p + 1, q);
    } else if q < p {
      MulMono(size, q + 1, p);
    }
  }

  /** Quotients follow the order of what is divided. */
  lemma DivMono(x: nat, y: nat, size: nat)
    requires size > 0 && x <= y
    ensures x / size <= y / size
  {
    DivMul(x, size);
    DivMul(y, size);
    ProductOrder(x / size, y / size, size, x, y);
  }

  lemma ProductOrder(p: nat, q: nat, size: nat, x: nat, y: nat)
    requires p * size <= x <= y < q * size + size
    ensures p <= q
  {
    assert (q + 1) * size == q * size + size;
    if p > q { MulMono(size, q + 1, p); }
  }

  /** A set of numbers below `n` has `n` members exactly when it has all of them. */
  lemma {:induction false} FullBelow(n: nat, r: set<nat>)
    requires forall i :: i in r ==> i < n
    ensures |r| <= n && (|r| == n <==> forall i :: 0 <= i < n ==> i in r)
  {
    if n == 0 {
      assert r == {};
    } else {
      var rest := r - {n - 1};
      FullBelow(n - 1, rest);
      assert n - 1 in r ==> |r| == |rest| + 1 && r == rest + {n - 1};
      assert n - 1 !in r ==> r == rest;
      assert (forall i :: 0 <= i < n ==> i in r) <==> n - 1 in r && (forall i :: 0 <= i < n - 1 ==> i in rest);
    }
  }
}
