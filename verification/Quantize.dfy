/**
 Per-token quantization to 8-bit integers, over exact reals and for any rounding to nearest.
 */
module Quantize {

  const FLOOR: real := 0.00001

  function Pow2(n: nat): (p: nat)
    ensures p >= 1
  {
    if n == 0 then 1 else 2 * Pow2(n - 1)
  }

  function Abs(x: real): (y: real) {
    if x < 0.0 then -x else x
  }

  /** The rounding rule is off by at most one half; which way ties go is left open. */
  ghost predicate RoundsToNearest(round: real -> int) {
    forall x: real :: Abs(round(x) as real - x) <= 0.5
  }

  function Minimum(row: seq<real>): (m: real)
    requires row != []
    ensures m in row && forall i :: 0 <= i < |row| ==> m <= row[i]
  {
    if |row| == 1 then row[0]
    else
      var m := Minimum(row[..|row| - 1]);
      if row[|row| - 1] < m then row[|row| - 1] else m
  }

  function Maximum(row: seq<real>): (m: real)
    requires row != []
    ensures m in row && forall i :: 0 <= i < |row| ==> row[i] <= m
  {
    if |row| == 1 then row[0]
    else
      var m := Maximum(row[..|row| - 1]);
      if row[|row| - 1] > m then row[|row| - 1] else m
  }

  function Larger(a: real, b: real): (c: real) {
    if a < b then b else a
  }

  function QMin(symmetric: bool, bits: nat): (q: int)
    requires bits >= 1
  {
    if symmetric then 0 - Pow2(bits - 1) else 0
  }

  function QMax(symmetric: bool, bits: nat): (q: int)
    requires bits >= 1
  {
    if symmetric then Pow2(bits - 1) - 1 else Pow2(bits) - 1
  }

  lemma QMaxPositive(symmetric: bool, bits: nat)
    requires bits >= 2
    ensures QMax(symmetric, bits) >= 1
  {
    assert Pow2(bits) == 2 * Pow2(bits - 1) && Pow2(bits - 1) == 2 * Pow2(bits - 2);
  }

  function Scale(row: seq<real>, symmetric: bool, bits: nat): (s: real)
    requires row != [] && bits >= 2
    ensures s >= FLOOR
  {
    QMaxPositive(symmetric, bits);
    var lo, hi := Minimum(row), Maximum(row);
    var width := if symmetric then Larger(Abs(lo), Abs(hi)) else hi - lo;
    Larger(width / QMax(symmetric, bits) as real, FLOOR)
  }

  function ZeroPoint(round: real -> int, row: seq<real>, symmetric: bool, bits: nat): (z: int)
    requires row != [] && bits >= 2
  {
    if symmetric then 0 else -round(Minimum(row) / Scale(row, symmetric, bits))
  }

  function Clamp(x: int, lo: int, hi: int): (y: int)
    requires lo <= hi
    ensures lo <= y <= hi
  {
    if x < lo then lo else if x > hi then hi else x
  }

  function QuantizeAt(round: real -> int, row: seq<real>, symmetric: bool, bits: nat, i: nat): (q: int)
    requires i < |row| && bits >= 2
    ensures QMin(symmetric, bits) <= q <= QMax(symmetric, bits)
  {
    QMaxPositive(symmetric, bits);
    var z := ZeroPoint(round, row, symmetric, bits);
    Clamp(round(row[i] / Scale(row, symmetric, bits) + z as real), QMin(symmetric, bits), QMax(symmetric, bits))
  }

  function Dequantize(q: int, z: int, scale: real): (x: real) {
    (q - z) as real * scale
  }

  lemma DivideBounds(x: real, n: real, scale: real)
    requires n > 0.0 && scale > 0.0 && x / n <= scale
    ensures x / scale <= n
  {
    assert x == x / n * n;
    assert x <= scale * n;
    Compare(x / scale, n, scale);
  }

  /** Comparing after multiplying by a positive number. */
  lemma Compare(a: real, b: real, scale: real)
    requires scale > 0.0 && a * scale <= b * scale
    ensures a <= b
  {
  }

  lemma ScaledError(v: real, x: real, scale: real, q: int, z: int)
    requires scale > 0.0 && v == x / scale + z as real && Abs(q as real - v) <= 0.5
    ensures Abs(Dequantize(q, z, scale) - x) <= scale / 2.0
  {
    var e := q as real - v;
    assert x / scale * scale == x;
    assert (q - z) as real == x / scale + e;
    assert Dequantize(q, z, scale) == x + e * scale;
    assert -0.5 * scale <= e * scale <= 0.5 * scale;
  }

  /** In symmetric mode every element lands inside the range, so clamping changes nothing. */
  lemma SymmetricNeverClamps(round: real -> int, row: seq<real>, bits: nat, i: nat)
    requires RoundsToNearest(round) && i < |row| && bits >= 2
    ensures QuantizeAt(round, row, true, bits, i) == round(row[i] / Scale(row, true, bits) + 0.0)
  {
    QMaxPositive(true, bits);
    var s, n := Scale(row, true, bits), QMax(true, bits) as real;
    var top := Larger(Abs(Minimum(row)), Abs(Maximum(row)));
    assert -top <= row[i] <= top;
    DivideMono(row[i], top, n, s);
    DivideMono(-row[i], top, n, s);
    DivideSplit(0.0, row[i], s);
    var v := row[i] / s + 0.0;
    assert Abs(round(v) as real - v) <= 0.5;
    hide Pow2, Minimum, Maximum;
  }

  /** So the values are symmetric: the least one of the type does not occur. */
  lemma SymmetricRange(round: real -> int, row: seq<real>, bits: nat, i: nat)
    requires RoundsToNearest(round) && i < |row| && bits >= 2
    ensures 1 - Pow2(bits - 1) <= QuantizeAt(round, row, true, bits, i) <= Pow2(bits - 1) - 1
  {
    QMaxPositive(true, bits);
    SymmetricNeverClamps(round, row, bits, i);
    var s, n := Scale(row, true, bits), QMax(true, bits) as real;
    var top := Larger(Abs(Minimum(row)), Abs(Maximum(row)));
    assert -top <= row[i] <= top;
    DivideMono(row[i], top, n, s);
    DivideMono(-row[i], top, n, s);
    DivideSplit(0.0, row[i], s);
    NearRound(round, row[i] / s + 0.0);
    hide Pow2, Minimum, Maximum, Scale, QuantizeAt;
  }

  lemma DivideMono(x: real, top: real, n: real, s: real)
    requires x <= top && n > 0.0 && s > 0.0 && top / n <= s
    ensures x / s <= n
  {
    DivideBounds(top, n, s);
    Compare(x / s, top / s, s);
  }

  /** In both modes a dequantized element is within half a scale step of the original. */
  lemma WithinHalfStep(round: real -> int, row: seq<real>, symmetric: bool, bits: nat, i: nat)
    requires RoundsToNearest(round) && i < |row| && bits >= 2
    ensures var scale := Scale(row, symmetric, bits);
      Abs(Dequantize(QuantizeAt(round, row, symmetric, bits, i), ZeroPoint(round, row, symmetric, bits), scale) - row[i])
      <= scale / 2.0
  {
    var s, z := Scale(row, symmetric, bits), ZeroPoint(round, row, symmetric, bits);
    var v := row[i] / s + z as real;
    var q := QuantizeAt(round, row, symmetric, bits, i);
    assert Abs(round(v) as real - v) <= 0.5;
    if symmetric {
      SymmetricNeverClamps(round, row, bits, i);
    } else {
      ClampedIsNear(round, row, bits, i);
    }
    ScaledError(v, row[i], s, q, z);
  }

  /** The quotient of the row's extent by the number of steps: the greatest magnitude, or the distance of the extremes. */
  ghost function Finest(row: seq<real>, symmetric: bool, bits: nat): (step: real)
    requires row != [] && bits >= 2
  {
    var lo, hi := Minimum(row), Maximum(row);
    PowersGrow(bits);
    if symmetric then (if -lo < hi then hi else -lo) / (Pow2(bits - 1) as real - 1.0)
    else (hi - lo) / (Pow2(bits) as real - 1.0)
  }

  lemma PowersGrow(bits: nat)
    requires bits >= 2
    ensures Pow2(bits) == 2 * Pow2(bits - 1) && Pow2(bits - 1) >= 2
  {
    assert Pow2(bits - 1) == 2 * Pow2(bits - 2);
  }

  /** The greatest magnitude is one of the extremes, whichever lies further out. */
  lemma Magnitude(lo: real, hi: real)
    requires lo <= hi
    ensures Larger(Abs(lo), Abs(hi)) == if -lo < hi then hi else -lo
  {
  }

  /** The scale is the finest step that covers the row, or the floor. */
  lemma ScaleIsFinest(row: seq<real>, symmetric: bool, bits: nat)
    requires row != [] && bits >= 2
    ensures Scale(row, symmetric, bits) == Finest(row, symmetric, bits) || Scale(row, symmetric, bits) == 0.00001
    ensures Finest(row, symmetric, bits) >= 0.00001 ==> Scale(row, symmetric, bits) == Finest(row, symmetric, bits)
  {
    PowersGrow(bits);
    Magnitude(Minimum(row), Maximum(row));
    hide Minimum, Maximum, Pow2, Abs;
  }

  /**
   In both modes a dequantized element is off by at most half a step, where a step is the row's extent over
   `2^bits - 1` (symmetric: its greatest magnitude over `2^(bits - 1) - 1`), or by half of the floor.
   */
  lemma ErrorBound(round: real -> int, row: seq<real>, symmetric: bool, bits: nat, i: nat)
    requires RoundsToNearest(round) && i < |row| && bits >= 2
    ensures var e := Dequantize(QuantizeAt(round, row, symmetric, bits, i), ZeroPoint(round, row, symmetric, bits), Scale(row, symmetric, bits)) - row[i];
      var step := Finest(row, symmetric, bits);
      -step <= 2.0 * e <= step || -0.00001 <= 2.0 * e <= 0.00001
  {
    WithinHalfStep(round, row, symmetric, bits, i);
    ScaleIsFinest(row, symmetric, bits);
    hide Scale, Finest, QuantizeAt, ZeroPoint, Dequantize;
  }

  /** With 8 bits there are 255 steps, 127 to each side in symmetric mode. */
  lemma EightBits(row: seq<real>)
    requires row != []
    ensures Finest(row, false, 8) == (Maximum(row) - Minimum(row)) / 255.0
    ensures Maximum(row) >= -Minimum(row) ==> Finest(row, true, 8) == Maximum(row) / 127.0
    ensures -Minimum(row) >= Maximum(row) ==> Finest(row, true, 8) == -Minimum(row) / 127.0
  {
    assert Pow2(4) == 16 && Pow2(7) == 128 && Pow2(8) == 256;
  }

  lemma Quotient(x: real, n: real, s: real)
    requires n > 0.0 && s > 0.0 && s == x / n
    ensures x / s == n && -x / s == -n
  {
    assert x == s * n;
    assert -x == s * -n;
    Cancelled(n, s);
    Cancelled(-n, s);
  }

  lemma Cancelled(n: real, s: real)
    requires s > 0.0
    ensures s * n / s == n
  {
  }

  lemma RoundsWhole(round: real -> int, v: real, k: int)
    requires RoundsToNearest(round) && v == k as real
    ensures round(v) == k
  {
    assert Abs(round(v) as real - v) <= 0.5;
  }

  /** The symmetric range is used to its ends: an element of greatest magnitude gets the greatest value with its sign. */
  lemma RangeIsUsed(round: real -> int, row: seq<real>, bits: nat, i: nat)
    requires RoundsToNearest(round) && i < |row| && bits >= 2 && Finest(row, true, bits) >= 0.00001
    ensures row[i] == Maximum(row) && Maximum(row) > -Minimum(row) ==> QuantizeAt(round, row, true, bits, i) == Pow2(bits - 1) - 1
    ensures row[i] == Minimum(row) && Maximum(row) <= -Minimum(row) ==> QuantizeAt(round, row, true, bits, i) == 1 - Pow2(bits - 1)
  {
    PowersGrow(bits);
    ScaleIsFinest(row, true, bits);
    SymmetricNeverClamps(round, row, bits, i);
    var s, n, lo, hi := Scale(row, true, bits), Pow2(bits - 1) - 1, Minimum(row), Maximum(row);
    assert n as real == Pow2(bits - 1) as real - 1.0;
    assert s == (if -lo < hi then hi else -lo) / n as real;
    Quotient(if -lo < hi then hi else -lo, n as real, s);
    hide *;
    if row[i] == hi && -lo < hi {
      RoundsWhole(round, row[i] / s + 0.0, n);
    } else if row[i] == lo && hi <= -lo {
      assert lo == -(-lo);
      RoundsWhole(round, row[i] / s + 0.0, -n);
    }
  }

  /** So is the asymmetric one, up to one step at each end. */
  lemma AsymmetricRangeIsUsed(round: real -> int, row: seq<real>, bits: nat, i: nat)
    requires RoundsToNearest(round) && i < |row| && bits >= 2 && Finest(row, false, bits) >= 0.00001
    ensures row[i] == Minimum(row) ==> QuantizeAt(round, row, false, bits, i) <= 1
    ensures row[i] == Maximum(row) ==> QuantizeAt(round, row, false, bits, i) >= Pow2(bits) - 2
  {
    hide *;
    AsymmetricScale(row, bits);
    AsymmetricZero(round, row, bits);
    ClampedIsNear(round, row, bits, i);
    var s, n, lo, hi := Scale(row, false, bits), Pow2(bits) - 1, Minimum(row), Maximum(row);
    NearRound(round, lo / s);
    EndsApart(lo, hi, n as real, s);
    NearEnds(QuantizeAt(round, row, false, bits, i), ZeroPoint(round, row, false, bits), row[i] / s, lo / s, n);
  }

  lemma AsymmetricScale(row: seq<real>, bits: nat)
    requires row != [] && bits >= 2 && Finest(row, false, bits) >= 0.00001
    ensures Pow2(bits) >= 4 && Scale(row, false, bits) > 0.0
    ensures Scale(row, false, bits) == (Maximum(row) - Minimum(row)) / (Pow2(bits) - 1) as real
  {
    PowersGrow(bits);
    ScaleIsFinest(row, false, bits);
    assert (Pow2(bits) - 1) as real == Pow2(bits) as real - 1.0;
    hide Scale, Minimum, Maximum, Pow2;
  }

  lemma AsymmetricZero(round: real -> int, row: seq<real>, bits: nat)
    requires row != [] && bits >= 2
    ensures ZeroPoint(round, row, false, bits) == -round(Minimum(row) / Scale(row, false, bits))
  {
    hide Scale, Minimum;
  }

  lemma NearRound(round: real -> int, x: real)
    requires RoundsToNearest(round)
    ensures Abs(round(x) as real - x) <= 0.5
  {
  }

  lemma EndsApart(lo: real, hi: real, n: real, s: real)
    requires n > 0.0 && s > 0.0 && s == (hi - lo) / n
    ensures hi / s == lo / s + n
  {
    Quotient(hi - lo, n, s);
    DivideSplit(hi, lo, s);
  }

  lemma NearEnds(q: int, z: int, v: real, w: real, n: int)
    requires Abs(q as real - (v + z as real)) <= 0.5 && Abs(-z as real - w) <= 0.5
    ensures v == w ==> q <= 1
    ensures v == w + n as real ==> q >= n - 1
  {
  }

  /** In asymmetric mode clamping can only act on a tie at the edge of the range. */
  lemma ClampedIsNear(round: real -> int, row: seq<real>, bits: nat, i: nat)
    requires RoundsToNearest(round) && i < |row| && bits >= 2
    ensures var v := row[i] / Scale(row, false, bits) + ZeroPoint(round, row, false, bits) as real;
      Abs(QuantizeAt(round, row, false, bits, i) as real - v) <= 0.5
  {
    QMaxPositive(false, bits);
    var s, n, lo := Scale(row, false, bits), QMax(false, bits), Minimum(row);
    var z := ZeroPoint(round, row, false, bits);
    var v := row[i] / s + z as real;
    assert Abs(round(lo / s) as real - lo / s) <= 0.5;
    assert Abs(round(v) as real - v) <= 0.5;
    ScaledRange(row[i], lo, Maximum(row), n as real, s);
    NearClamp(v, round(v), n);
    hide Pow2, Minimum, Maximum;
  }

  lemma NearClamp(v: real, r: int, n: int)
    requires n >= 0 && -0.5 <= v <= n as real + 0.5 && Abs(r as real - v) <= 0.5
    ensures Abs(Clamp(r, 0, n) as real - v) <= 0.5
  {
  }

  lemma ScaledRange(x: real, lo: real, hi: real, n: real, s: real)
    requires lo <= x <= hi && n > 0.0 && s > 0.0 && (hi - lo) / n <= s
    ensures 0.0 <= x / s - lo / s <= n
  {
    DivideMono(x - lo, hi - lo, n, s);
    NonNegative(x - lo, s);
    DivideSplit(x, lo, s);
  }

  lemma DivideSplit(x: real, y: real, s: real)
    requires s > 0.0
    ensures (x - y) / s == x / s - y / s
  {
    assert (x / s - y / s) * s == x - y;
  }

  lemma NonNegative(x: real, s: real)
    requires x >= 0.0 && s > 0.0
    ensures x / s >= 0.0
  {
  }

  /** A row that contains a value on each side of zero has a zero point inside the range. */
  lemma ZeroPointInRange(round: real -> int, row: seq<real>, bits: nat)
    requires RoundsToNearest(round) && row != [] && bits >= 2
    requires Minimum(row) <= 0.0 <= Maximum(row)
    ensures 0 <= ZeroPoint(round, row, false, bits) <= QMax(false, bits)
  {
    QMaxPositive(false, bits);
    var s, n, lo := Scale(row, false, bits), QMax(false, bits), Minimum(row);
    assert Abs(round(lo / s) as real - lo / s) <= 0.5;
    ScaledRange(0.0, lo, Maximum(row), n as real, s);
    hide Pow2, Minimum, Maximum;
  }

  /** A constant row far from zero: the zero point does not fit the 32-bit integer it is cast to. */
  lemma ZeroPointTooLarge(round: real -> int)
    requires RoundsToNearest(round)
    ensures ZeroPoint(round, [30000.0], false, 8) < -0x8000_0000
  {
    var row := [30000.0];
    assert Minimum(row) == 30000.0 && Maximum(row) == 30000.0;
    QMaxPositive(false, 8);
    assert Scale(row, false, 8) == FLOOR;
    assert 30000.0 / FLOOR == 3000000000.0;
    assert Abs(round(3000000000.0) as real - 3000000000.0) <= 0.5;
  }

  const INT32_MIN: int := -0x8000_0000
  const INT32_MAX: int := 0x7fff_ffff

  predicate Int32(x: int) { INT32_MIN <= x <= INT32_MAX }

  /** Both the rounded quotient that is cast and the zero point, its negation, are 32-bit integers. */
  predicate CastFits(round: real -> int, row: seq<real>, bits: nat)
    requires row != [] && bits >= 2
  {
    Int32(-ZeroPoint(round, row, false, bits)) && Int32(ZeroPoint(round, row, false, bits))
  }

  /** What a caller can compute: the row's minimum in steps of the scale. */
  function Steps(row: seq<real>, bits: nat): (v: real)
    requires row != [] && bits >= 2
  {
    Minimum(row) / Scale(row, false, bits)
  }

  /**
   When the cast is safe. Strictly inside `2^31 - 1/2` it always is, strictly outside it never is, and
   on the bound itself it is exactly when the tie is rounded towards zero.
   */
  lemma ZeroPointFits(round: real -> int, row: seq<real>, bits: nat)
    requires RoundsToNearest(round) && row != [] && bits >= 2
    ensures var v := Steps(row, bits);
      CastFits(round, row, bits) <==>
        || Abs(v) < INT32_MAX as real + 0.5
        || (v == INT32_MAX as real + 0.5 && round(v) == INT32_MAX)
        || (v == -INT32_MAX as real - 0.5 && round(v) == -INT32_MAX)
  {
    var v := Steps(row, bits);
    assert Abs(round(v) as real - v) <= 0.5;
    hide Pow2, Minimum, Maximum, Scale;
  }

  predicate Tie(x: real) { (x - 0.5).Floor as real == x - 0.5 }

  ghost predicate TiesToEven(round: real -> int) { forall x: real :: Tie(x) ==> round(x) % 2 == 0 }

  /** Ties to even, as `torch.round` breaks them: the bound itself is outside. */
  lemma ZeroPointFitsToEven(round: real -> int, row: seq<real>, bits: nat)
    requires RoundsToNearest(round) && row != [] && bits >= 2
    requires TiesToEven(round)
    ensures CastFits(round, row, bits) <==> Abs(Steps(row, bits)) < INT32_MAX as real + 0.5
  {
    hide Steps, Abs;
    ZeroPointFits(round, row, bits);
    assert Tie(INT32_MAX as real + 0.5) && Tie(-INT32_MAX as real - 0.5);
  }

  /** Rounding to nearest with ties to even. */
  function HalfEven(x: real): (k: int) {
    var f, rest := x.Floor, x - x.Floor as real;
    if rest < 0.5 || (rest == 0.5 && f % 2 == 0) then f else f + 1
  }

  lemma HalfEvenNear(x: real)
    ensures -0.5 <= HalfEven(x) as real - x <= 0.5
  {
  }

  lemma HalfEvenTies(x: real)
    requires Tie(x)
    ensures HalfEven(x) % 2 == 0
  {
    var k := (x - 0.5).Floor;
    assert x == k as real + 0.5;
    assert x.Floor == k;
  }

  /** Such a rule exists. */
  lemma HalfEvenRounds()
    ensures RoundsToNearest(HalfEven) && TiesToEven(HalfEven)
  {
    forall x: real ensures Abs(HalfEven(x) as real - x) <= 0.5 {
      HalfEvenNear(x);
      hide HalfEven;
    }
    forall x: real | Tie(x) ensures HalfEven(x) % 2 == 0 {
      HalfEvenTies(x);
      hide HalfEven;
    }
  }

  /** The quotient fits and its negation does not: the smallest 32-bit integer. */
  lemma ZeroPointOverflows(round: real -> int)
    requires RoundsToNearest(round)
    ensures Int32(-ZeroPoint(round, [-21474.83648], false, 8)) && ZeroPoint(round, [-21474.83648], false, 8) == INT32_MAX + 1
  {
    var row := [-21474.83648];
    assert Minimum(row) == -21474.83648 && Maximum(row) == -21474.83648;
    QMaxPositive(false, 8);
    assert Scale(row, false, 8) == FLOOR;
    assert -21474.83648 / FLOOR == -2147483648.0;
    assert Abs(round(-2147483648.0) as real - -2147483648.0) <= 0.5;
  }
}
