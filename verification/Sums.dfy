/** Finite sums of quantities, and what an update or a concatenation does to them. */
module Sums {
  function Sum(xs: seq<real>): real {
    if xs == [] then 0.0 else xs[0] + Sum(xs[1..])
  }

  /** A product under a name of its own, for quantifiers and sums to hang on. */
  function Product(x: real, y: real): real {
    x * y
  }

  function Zeros(n: nat): (zs: seq<real>)
    ensures |zs| == n && forall i :: 0 <= i < n ==> zs[i] == 0.0
  {
    seq(n, _ => 0.0)
  }

  lemma {:induction false} SumConcat(xs: seq<real>, ys: seq<real>)
    ensures Sum(xs + ys) == Sum(xs) + Sum(ys)
  {
    if xs == [] {
      assert xs + ys == ys;
    } else {
      assert (xs + ys)[0] == xs[0] && (xs + ys)[1..] == xs[1..] + ys;
      SumConcat(xs[1..], ys);
    }
  }

  lemma SumSnoc(xs: seq<real>, x: real)
    ensures Sum(xs + [x]) == Sum(xs) + x
  {
    SumConcat(xs, [x]);
    assert [x][1..] == [];
  }

  lemma {:induction false} SumUpdate(xs: seq<real>, i: nat, x: real)
    requires i < |xs|
    ensures Sum(xs[i := x]) == Sum(xs) - xs[i] + x
  {
    if i == 0 {
      assert xs[i := x][1..] == xs[1..];
    } else {
      assert xs[i := x][1..] == xs[1..][i - 1 := x];
      SumUpdate(xs[1..], i - 1, x);
    }
  }

  lemma {:induction false} SumZeros(xs: seq<real>)
    requires forall i :: 0 <= i < |xs| ==> xs[i] == 0.0
    ensures Sum(xs) == 0.0
  {
    if xs != [] { SumZeros(xs[1..]); }
  }

  lemma {:induction false} SumMonotone(xs: seq<real>, ys: seq<real>)
    requires |xs| == |ys| && forall i :: 0 <= i < |xs| ==> xs[i] <= ys[i]
    ensures Sum(xs) <= Sum(ys)
  {
    if xs != [] { SumMonotone(xs[1..], ys[1..]); }
  }

  // ----- totals over the rows of a table -----

  function Total<T>(rows: seq<T>, weight: T -> real): real {
    if rows == [] then 0.0 else Total(rows[..|rows| - 1], weight) + weight(rows[|rows| - 1])
  }

  lemma TotalSnoc<T>(rows: seq<T>, row: T, weight: T -> real)
    ensures Total(rows + [row], weight) == Total(rows, weight) + weight(row)
  {}

  lemma {:induction false} TotalUpdate<T>(rows: seq<T>, i: nat, row: T, weight: T -> real)
    requires i < |rows|
    ensures Total(rows[i := row], weight) == Total(rows, weight) - weight(rows[i]) + weight(row)
  {
    var n := |rows| - 1;
    if i == n {
      assert rows[i := row][..n] == rows[..n];
    } else {
      assert rows[i := row][..n] == rows[..n][i := row];
      TotalUpdate(rows[..n], i, row, weight);
    }
  }
}
