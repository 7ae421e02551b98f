/** Scalar losses and metrics as the training code sees them: Python floats,
    modelled as exact reals plus an explicit NaN. Arithmetic propagates NaN
    and every ordered comparison against NaN is false, as in Python. */
module Metrics {

  datatype Metric = Finite(r: real) | NaN

  function Add(a: Metric, b: Metric): Metric {
    if a.Finite? && b.Finite? then Finite(a.r + b.r) else NaN
  }

  function Sub(a: Metric, b: Metric): Metric {
    if a.Finite? && b.Finite? then Finite(a.r - b.r) else NaN
  }

  /** `a * k` for a plain number `k`. */
  function Times(a: Metric, k: real): Metric {
    if a.Finite? then Finite(a.r * k) else NaN
  }

  /** True division `a / d` by a non-zero integer. */
  function DivBy(a: Metric, d: int): Metric
    requires d != 0
  {
    if a.Finite? then Finite(a.r / d as real) else NaN
  }

  /** Python's `a < b` on floats. */
  predicate Less(a: Metric, b: Metric) {
    a.Finite? && b.Finite? && a.r < b.r
  }

  /** Python's `a > b` on floats. */
  predicate Greater(a: Metric, b: Metric) {
    a.Finite? && b.Finite? && a.r > b.r
  }

  predicate AllFinite(xs: seq<Metric>) {
    forall i :: 0 <= i < |xs| ==> xs[i].Finite?
  }

  /** The running total `t = 0; for x in xs: t += x`. */
  function Sum(xs: seq<Metric>): Metric
    decreases |xs|
  {
    if |xs| == 0 then Finite(0.0) else Add(Sum(xs[..|xs| - 1]), xs[|xs| - 1])
  }

  /** A single NaN poisons the whole running total, and only a NaN does. */
  lemma {:induction false} SumFiniteIffAllFinite(xs: seq<Metric>)
    ensures Sum(xs).Finite? <==> AllFinite(xs)
    decreases |xs|
  {
    if |xs| > 0 {
      var init := xs[..|xs| - 1];
      assert forall i :: 0 <= i < |init| ==> init[i] == xs[i];
      SumFiniteIffAllFinite(init);
    }
  }

  /** A total of n finite values that each lie in [lo, hi] lies in [n*lo, n*hi]. */
  lemma {:induction false} SumWithin(xs: seq<Metric>, lo: real, hi: real)
    requires forall i :: 0 <= i < |xs| ==> xs[i].Finite? && lo <= xs[i].r <= hi
    ensures Sum(xs).Finite?
    ensures |xs| as real * lo <= Sum(xs).r <= |xs| as real * hi
    decreases |xs|
  {
    if |xs| > 0 {
      var init := xs[..|xs| - 1];
      assert forall i :: 0 <= i < |init| ==> init[i] == xs[i];
      SumWithin(init, lo, hi);
      assert |xs| as real * lo == |init| as real * lo + lo;
      assert |xs| as real * hi == |init| as real * hi + hi;
    }
  }
}
