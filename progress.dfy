/**
 * The progress rules shared by the store and the migration scripts:
 * the quantitative percentage of an indicator (target `meta` against the
 * actual value `avance`), the status that a percentage maps to, and the
 * truncated mean that rolls milestone percentages up into their indicator.
 */
module Progress {
  import opened Wrappers

  /**
   * The `meta` column is free text. `Numeric` is a text that `float()`
   * accepts (a finite number), `NonNumeric` one it rejects with ValueError
   * (the empty text included), `Absent` the SQL NULL.
   */
  datatype Meta = Absent | Numeric(value: real) | NonNumeric(raw: string)

  const PorComenzar: string := "Por comenzar"
  const EnProgreso: string := "En progreso"
  const Completado: string := "Completado"

  /** Python's `int()` on a float: truncation toward zero. */
  function Trunc(x: real): (t: int)
    ensures 0.0 <= x ==> 0 <= t && t as real <= x < t as real + 1.0
    ensures x < 0.0 ==> t <= 0 && t as real - 1.0 < x <= t as real
  {
    if x >= 0.0 then x.Floor else -((-x).Floor)
  }

  /** `min(100, max(0, v))`. */
  function Clamp(v: int): (c: int)
    ensures 0 <= c <= 100
    ensures 0 <= v <= 100 ==> c == v
    ensures v < 0 ==> c == 0
    ensures v > 100 ==> c == 100
  {
    if v < 0 then 0 else if v > 100 then 100 else v
  }

  /** The target and actual value admit a ratio: a positive numeric target and an actual value. */
  predicate Resolvable(meta: Meta, avance: Option<real>)
  {
    meta.Numeric? && meta.value > 0.0 && avance.Some?
  }

  /**
   * The quantitative percentage: truncated `avance / meta * 100`, clamped to
   * 0..100; 0 whenever the target is missing, non-numeric or not positive,
   * or there is no actual value.
   */
  function QuantitativePercent(meta: Meta, avance: Option<real>): (p: int)
    ensures 0 <= p <= 100
    ensures !Resolvable(meta, avance) ==> p == 0
  {
    if Resolvable(meta, avance) then Clamp(Trunc(avance.value / meta.value * 100.0)) else 0
  }

  /**
   * Independent reading of the percentage: the largest whole percentage p in
   * 0..100 that the ratio `100 * avance / meta` reaches (0 always
   * qualifies), i.e. p <= ratio < p + 1 unless the clamp applies.
   */
  ghost predicate IsPercentOf(p: int, m: real, a: real)
    requires m > 0.0
  {
    var ratio := 100.0 * a / m;
    && 0 <= p <= 100
    && (p == 0 || p as real <= ratio)
    && (p == 100 || ratio < (p + 1) as real)
  }

  /** The reading determines the percentage. */
  lemma PercentOfUnique(p: int, q: int, m: real, a: real)
    requires m > 0.0 && IsPercentOf(p, m, a) && IsPercentOf(q, m, a)
    ensures p == q
  {
  }

  /** The formula meets the independent reading whenever the target is usable. */
  lemma QuantitativeIsPercentOf(meta: Meta, avance: Option<real>)
    requires Resolvable(meta, avance)
    ensures IsPercentOf(QuantitativePercent(meta, avance), meta.value, avance.value)
  {
    var m, a := meta.value, avance.value;
    assert a / m * 100.0 == 100.0 * a / m;
  }

  /** Over-achievement is capped: the percentage is 100 exactly when the actual value reaches the target. */
  lemma QuantitativeCompleteIff(meta: Meta, avance: Option<real>)
    requires Resolvable(meta, avance)
    ensures QuantitativePercent(meta, avance) == 100 <==> avance.value >= meta.value
  {
    var m, a := meta.value, avance.value;
    QuantitativeIsPercentOf(meta, avance);
    RatioAtLeast(m, a, 100.0, m);
  }

  /** The percentage is 0 exactly when the actual value is below 1% of the target (negative values included). */
  lemma QuantitativeZeroIff(meta: Meta, avance: Option<real>)
    requires Resolvable(meta, avance)
    ensures QuantitativePercent(meta, avance) == 0 <==> 100.0 * avance.value < meta.value
  {
    var m, a := meta.value, avance.value;
    QuantitativeIsPercentOf(meta, avance);
    RatioAtLeast(m, a, 1.0, 1.0 * m / 100.0);
  }

  /** `100 * a / m >= k` exactly when `a >= b`, for b the share k% of m. */
  lemma RatioAtLeast(m: real, a: real, k: real, b: real)
    requires m > 0.0 && b == k * m / 100.0
    ensures 100.0 * a / m >= k <==> a >= b
  {
  }

  /** More progress never lowers the percentage. */
  lemma QuantitativeMonotone(meta: Meta, a1: real, a2: real)
    requires meta.Numeric? && meta.value > 0.0 && a1 <= a2
    ensures QuantitativePercent(meta, Some(a1)) <= QuantitativePercent(meta, Some(a2))
  {
    var m := meta.value;
    QuantitativeIsPercentOf(meta, Some(a1));
    QuantitativeIsPercentOf(meta, Some(a2));
    assert 100.0 * a1 / m <= 100.0 * a2 / m;
  }

  /**
   * The status a percentage maps to: 0 is "Por comenzar", anything else
   * below 100 (negative values included) "En progreso", 100 and above
   * "Completado".
   */
  function StatusOf(p: int): (s: string)
    ensures s == Completado <==> p >= 100
    ensures s == PorComenzar <==> p == 0
    ensures s == EnProgreso <==> p != 0 && p < 100
  {
    if p == 0 then PorComenzar else if p < 100 then EnProgreso else Completado
  }

  /** Python's `int(a / b)` for b > 0: the quotient truncated toward zero. */
  function TruncDiv(a: int, b: int): (q: int)
    requires b > 0
    ensures a >= 0 ==> 0 <= q && q * b <= a < (q + 1) * b
    ensures a < 0 ==> q <= 0 && (q - 1) * b < a <= q * b
  {
    if a >= 0 then
      DivBounds(a, b);
      a / b
    else
      DivBounds(-a, b);
      assert (-((-a) / b) - 1) * b == -(((-a) / b + 1) * b);
      -((-a) / b)
  }

  /** Euclidean division of a non-negative dividend brackets it between two multiples of the divisor. */
  lemma DivBounds(a: int, b: int)
    requires a >= 0 && b > 0
    ensures 0 <= a / b && (a / b) * b <= a < (a / b + 1) * b
  {
    assert a == (a / b) * b + a % b;
    assert (a / b + 1) * b == (a / b) * b + b;
  }

  /** `int(AVG(...))` over `count` values summing to `sum`; SQL AVG of no rows is NULL, read as 0. */
  function TruncatedMean(sum: int, count: nat): (m: int)
    ensures count == 0 ==> m == 0
    ensures count > 0 && 0 <= sum ==> m * count <= sum < (m + 1) * count
  {
    if count == 0 then 0 else TruncDiv(sum, count)
  }

  /** The mean of percentages that all lie in 0..100 lies in 0..100. */
  lemma TruncatedMeanInRange(sum: int, count: nat)
    requires 0 <= sum <= 100 * count
    ensures 0 <= TruncatedMean(sum, count) <= 100
  {
    if count > 0 {
      var m := TruncatedMean(sum, count);
      assert m * count <= sum;
    }
  }

  /** Sum of a sequence of integers. */
  function Sum(s: seq<int>): int
  {
    if s == [] then 0 else s[0] + Sum(s[1..])
  }

  /** Percentages that all lie in 0..100 sum to at most 100 per value. */
  lemma {:induction false} SumInRange(s: seq<int>)
    requires forall i :: 0 <= i < |s| ==> 0 <= s[i] <= 100
    ensures 0 <= Sum(s) <= 100 * |s|
  {
    if s != [] {
      SumInRange(s[1..]);
    }
  }
}
