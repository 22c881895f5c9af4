/** The first row that fits, and one field of every row. */
module Sequences {
  /** The position of the first row that fits, or the number of rows if there is none. */
  function FirstIndex<T>(rows: seq<T>, fits: T -> bool): (i: nat)
    ensures i <= |rows|
    ensures i < |rows| ==> fits(rows[i])
    ensures forall j :: 0 <= j < i ==> !fits(rows[j])
  {
    if rows == [] || fits(rows[0]) then 0 else 1 + FirstIndex(rows[1..], fits)
  }

  /** Rows that are added do not change what is found. */
  lemma FirstIndexStays<T>(rows: seq<T>, more: seq<T>, fits: T -> bool)
    requires rows <= more && FirstIndex(rows, fits) < |rows|
    ensures FirstIndex(more, fits) == FirstIndex(rows, fits)
  {
    assert forall k :: 0 <= k < |rows| ==> more[k] == rows[k];
  }

  lemma AllButLast<T>(rows: seq<T>)
    requires rows != []
    ensures rows == rows[..|rows| - 1] + [rows[|rows| - 1]]
  {}

  lemma Reassociate<T>(xs: seq<T>, ys: seq<T>, zs: seq<T>)
    ensures (xs + ys) + zs == xs + (ys + zs)
  {}

  function Mapped<T, U>(rows: seq<T>, f: T -> U): (fields: seq<U>)
    ensures |fields| == |rows|
    ensures forall i :: 0 <= i < |rows| ==> fields[i] == f(rows[i])
  {
    seq(|rows|, i requires 0 <= i < |rows| => f(rows[i]))
  }
}
