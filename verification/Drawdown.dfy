/** The drawdown of a value history, found in one pass with a running peak, against its
    definition as the worst loss over all pairs of times.  Percentages are exact. */
module Drawdown {
  /** The loss in percent of a holder from value a to value v. */
  function Loss(a: real, v: real): real
    requires a > 0.0
  {
    (a - v) / a * 100.0
  }

  datatype Observation = Observation(value: real, peak: real, percent: real)

  predicate NonNegative(values: seq<real>) {
    forall i :: 0 <= i < |values| ==> values[i] >= 0.0
  }

  /** Somebody who holds from some time i up to time j loses this much. */
  ghost predicate Attained(values: seq<real>, j: nat, loss: real)
    requires j < |values|
  {
    exists i :: 0 <= i <= j && values[i] > 0.0 && Loss(values[i], values[j]) == loss
  }

  ghost predicate AtMost(values: seq<real>, j: nat, loss: real)
    requires j < |values|
  {
    forall i :: 0 <= i <= j && values[i] > 0.0 ==> Loss(values[i], values[j]) <= loss
  }

  /** The maximum drawdown of the first n values, and the value where it is first reached. */
  ghost predicate IsDrawdown(values: seq<real>, n: nat, worst: real, trough: real)
    requires n <= |values|
  {
    && worst >= 0.0
    && (forall j :: 0 <= j < n ==> AtMost(values, j, worst))
    && (if worst == 0.0 then n > 0 ==> trough == values[0]
        else exists j :: 0 <= j < n && FirstAttained(values, j, worst) && values[j] == trough)
  }

  ghost predicate FirstAttained(values: seq<real>, j: nat, worst: real)
    requires j < |values|
  {
    Attained(values, j, worst) && forall k :: 0 <= k < j ==> !Attained(values, k, worst)
  }

  ghost predicate IsPeak(values: seq<real>, n: nat, peak: real)
    requires n <= |values|
  {
    && (forall i :: 0 <= i < n ==> values[i] <= peak)
    && (if n == 0 then peak == 0.0 else exists i :: 0 <= i < n && values[i] == peak)
  }

  /** There is one maximum drawdown, and one trough: the definition leaves nothing open. */
  lemma DrawdownUnique(values: seq<real>, w1: real, t1: real, w2: real, t2: real)
    requires values != [] && IsDrawdown(values, |values|, w1, t1) && IsDrawdown(values, |values|, w2, t2)
    ensures w1 == w2 && t1 == t2
  {
    NotAbove(values, w1, t1, w2, t2);
    NotAbove(values, w2, t2, w1, t1);
    if w1 > 0.0 {
      var j :| 0 <= j < |values| && FirstAttained(values, j, w1) && values[j] == t1;
      var k :| 0 <= k < |values| && FirstAttained(values, k, w2) && values[k] == t2;
    }
  }

  lemma NotAbove(values: seq<real>, w1: real, t1: real, w2: real, t2: real)
    requires values != [] && IsDrawdown(values, |values|, w1, t1) && IsDrawdown(values, |values|, w2, t2)
    ensures w1 <= w2
  {
    if w1 > 0.0 {
      var j :| 0 <= j < |values| && FirstAttained(values, j, w1) && values[j] == t1;
      assert AtMost(values, j, w2);
    }
  }

  /** The higher the start, the larger the loss. */
  lemma LossFromPeak(a: real, peak: real, v: real)
    requires 0.0 < a <= peak && v >= 0.0
    ensures Loss(a, v) <= Loss(peak, v) <= 100.0
  {
    LossIsRest(a, v);
    LossIsRest(peak, v);
    SmallerQuotient(v / peak, v / a, a, peak, v);
  }

  /** Divided by more, the same amount comes to less. */
  lemma SmallerQuotient(q: real, r: real, a: real, peak: real, v: real)
    requires 0.0 < a <= peak && q >= 0.0 && q * peak == v && r * a == v
    ensures 0.0 <= q <= r
  {
    var d := q - r;
    assert d * a == q * a - v;
    assert q * (peak - a) == v - q * a;
    NotNegative(q, peak - a);
    if d > 0.0 { Positive(d, a); }
  }

  lemma Positive(x: real, y: real)
    requires x > 0.0 && y > 0.0
    ensures x * y > 0.0
  {}

  lemma NotNegative(x: real, y: real)
    requires x >= 0.0 && y >= 0.0
    ensures x * y >= 0.0
  {}

  lemma LossIsRest(a: real, v: real)
    requires a > 0.0
    ensures Loss(a, v) == (1.0 - v / a) * 100.0
  {
    var q := v / a;
    assert (1.0 - q) * a == a - q * a;
    Quotient(a - v, a, 1.0 - q);
  }

  lemma Quotient(x: real, a: real, q: real)
    requires a > 0.0 && q * a == x
    ensures x / a == q
  {}

  /** The running peak gives the worst loss that ends at time j. */
  lemma PeakIsWorst(values: seq<real>, j: nat, peak: real)
    requires NonNegative(values) && j < |values| && IsPeak(values, j + 1, peak)
    ensures peak > 0.0 ==> AtMost(values, j, Loss(peak, values[j])) && Attained(values, j, Loss(peak, values[j]))
    ensures peak > 0.0 ==> 0.0 <= Loss(peak, values[j]) <= 100.0
    ensures peak <= 0.0 ==> peak == 0.0 && forall loss :: AtMost(values, j, loss) && !Attained(values, j, loss)
  {
    var m :| 0 <= m < j + 1 && values[m] == peak;
    if peak > 0.0 {
      forall i | 0 <= i <= j && values[i] > 0.0 ensures Loss(values[i], values[j]) <= Loss(peak, values[j]) {
        LossFromPeak(values[i], peak, values[j]);
      }
      LossFromPeak(peak, peak, values[j]);
      assert (peak - values[j]) / peak >= 0.0;
    }
  }

  /** A larger loss at time j becomes the drawdown, first reached there; any other leaves it. */
  lemma OneMore(values: seq<real>, j: nat, peak: real, worst: real, trough: real)
    requires NonNegative(values) && j < |values| && IsPeak(values, j + 1, peak)
    requires IsDrawdown(values, j, worst, trough) && trough == if worst == 0.0 then values[0] else trough
    ensures var loss := if peak > 0.0 then Loss(peak, values[j]) else 0.0;
            if loss > worst then IsDrawdown(values, j + 1, loss, values[j])
            else IsDrawdown(values, j + 1, worst, trough)
  {
    var loss := if peak > 0.0 then Loss(peak, values[j]) else 0.0;
    PeakIsWorst(values, j, peak);
    if loss > worst {
      forall k | 0 <= k < j ensures AtMost(values, k, loss) && !Attained(values, k, loss) {
        assert AtMost(values, k, worst);
      }
      assert FirstAttained(values, j, loss);
    } else {
      assert AtMost(values, j, worst);
    }
  }

  datatype Trend = Trend(peak: real, trough: real, drawdown: real, observations: seq<Observation>)

  /** The peak so far, and the worst loss that ends at this time. */
  ghost predicate Observed(values: seq<real>, j: nat, o: Observation)
    requires j < |values|
  {
    && o.value == values[j] && IsPeak(values, j + 1, o.peak)
    && (if o.peak > 0.0 then AtMost(values, j, -o.percent) && Attained(values, j, -o.percent) else o.percent == 0.0)
  }

  /** One pass: the running peak, the loss from it at every time, and the worst of them. */
  method DrawdownTrend(values: seq<real>) returns (r: Trend)
    requires NonNegative(values)
    ensures IsPeak(values, |values|, r.peak)
    ensures IsDrawdown(values, |values|, r.drawdown, r.trough) && r.drawdown <= 100.0
    ensures values == [] ==> r == Trend(0.0, 0.0, 0.0, [])
    ensures |r.observations| == |values|
    ensures forall j :: 0 <= j < |values| ==> Observed(values, j, r.observations[j])
  {
    if values == [] { return Trend(0.0, 0.0, 0.0, []); }
    var peak := 0.0;
    var observations: seq<Observation> := [];
    var worst := 0.0;
    var trough := values[0];
    for j := 0 to |values|
      invariant |observations| == j && IsPeak(values, j, peak)
      invariant IsDrawdown(values, j, -worst, trough) && -worst <= 100.0 && (worst == 0.0 ==> trough == values[0])
      invariant forall k :: 0 <= k < j ==> Observed(values, k, observations[k])
    {
      ghost var before := peak;
      peak := if values[j] > peak then values[j] else peak;
      PeakGrows(values, j, before, peak);
      var percent := if peak != 0.0 then (values[j] - peak) / peak * 100.0 else 0.0;
      ObservedHere(values, j, peak, percent);
      OneMore(values, j, peak, -worst, trough);
      if percent < worst {
        worst := percent;
        trough := values[j];
      }
      observations := observations + [Observation(values[j], peak, percent)];
    }
    r := Trend(peak, trough, -worst, observations);
  }

  lemma ObservedHere(values: seq<real>, j: nat, peak: real, percent: real)
    requires NonNegative(values) && j < |values| && IsPeak(values, j + 1, peak)
    requires percent == if peak != 0.0 then (values[j] - peak) / peak * 100.0 else 0.0
    ensures Observed(values, j, Observation(values[j], peak, percent)) && -percent <= 100.0 && peak >= 0.0
    ensures percent == -(if peak > 0.0 then Loss(peak, values[j]) else 0.0)
  {
    PeakIsWorst(values, j, peak);
    if peak > 0.0 { Negated(peak, values[j]); }
  }

  lemma Negated(peak: real, v: real)
    requires peak > 0.0
    ensures (v - peak) / peak * 100.0 == -Loss(peak, v)
  {}

  lemma PeakGrows(values: seq<real>, j: nat, before: real, peak: real)
    requires NonNegative(values) && j < |values| && IsPeak(values, j, before)
    requires peak == if values[j] > before then values[j] else before
    ensures IsPeak(values, j + 1, peak)
  {}
}
