/** Price-time matching on values: what one sweep through the ranked opposite side trades, and
    the market rules it keeps.  Quantities and prices are exact rationals, so `real`. */
module MatchingSpec {
  import opened Options
  import opened OrderTypes
  import opened Sums

  /** The incoming order as the matching loop sees it. */
  datatype Taker = Taker(side: Side, orderType: OrderType, limit: Option<real>, tif: TimeInForce)

  /** A resting order as the matching loop sees it. */
  datatype Maker = Maker(price: Option<real>, remaining: real)

  predicate Crosses(t: Taker, price: Option<real>) {
    price.Some? &&
    (t.orderType.Market? ||
     (t.limit.Some? && if t.side.Buy? then price.value <= t.limit.value else price.value >= t.limit.value))
  }

  function Min(a: real, b: real): real {
    if a <= b then a else b
  }

  predicate NonNegative(makers: seq<Maker>) {
    forall i :: 0 <= i < |makers| ==> makers[i].remaining >= 0.0
  }

  /** Better prices for the taker come first. */
  predicate PriceRanked(t: Taker, makers: seq<Maker>) {
    forall i, j :: 0 <= i < j < |makers| ==>
      && makers[i].price.Some? && makers[j].price.Some?
      && (if t.side.Buy? then makers[i].price.value <= makers[j].price.value
          else makers[i].price.value >= makers[j].price.value)
  }

  /** The quantity traded with each maker. */
  function Sweep(t: Taker, rem: real, makers: seq<Maker>): (fills: seq<real>)
    ensures |fills| == |makers|
    decreases makers
  {
    if makers == [] || rem == 0.0 || !Crosses(t, makers[0].price) then Zeros(|makers|)
    else
      var qty := Min(rem, makers[0].remaining);
      [qty] + Sweep(t, rem - qty, makers[1..])
  }

  /** Whether the crossing makers at the front offer the whole quantity. */
  predicate CanFullyFill(t: Taker, wanted: real, available: real, makers: seq<Maker>)
    decreases makers
  {
    makers != [] && Crosses(t, makers[0].price) &&
    (available + makers[0].remaining >= wanted || CanFullyFill(t, wanted, available + makers[0].remaining, makers[1..]))
  }

  predicate Killed(t: Taker, rem: real, makers: seq<Maker>) {
    t.tif.FOK? && !CanFullyFill(t, rem, 0.0, makers)
  }

  /** What the engine trades with each maker. */
  function Fills(t: Taker, rem: real, makers: seq<Maker>): (fills: seq<real>)
    ensures |fills| == |makers|
  {
    if Killed(t, rem, makers) then Zeros(|makers|) else Sweep(t, rem, makers)
  }

  /** Everything on offer at prices the taker accepts, wherever it stands in the book. */
  function CrossingTotal(t: Taker, makers: seq<Maker>): real {
    if makers == [] then 0.0
    else (if Crosses(t, makers[0].price) then makers[0].remaining else 0.0) + CrossingTotal(t, makers[1..])
  }

  // ----- the shape of a sweep -----

  /** Makers before the cut are emptied, makers behind it are not touched, and the sweep stops
      at the cut because the taker is done or the price no longer crosses. */
  ghost predicate CutAt(t: Taker, rem: real, makers: seq<Maker>, fills: seq<real>, cut: nat)
    requires |fills| == |makers|
  {
    && cut <= |makers|
    && (forall i :: 0 <= i < cut ==> fills[i] == makers[i].remaining && Crosses(t, makers[i].price))
    && (forall i :: cut < i < |makers| ==> fills[i] == 0.0)
    && (cut < |makers| ==> 0.0 <= fills[cut] <= makers[cut].remaining)
    && (cut < |makers| ==> Sum(fills) == rem || (!Crosses(t, makers[cut].price) && fills[cut] == 0.0))
    && (cut < |makers| && fills[cut] > 0.0 ==> Crosses(t, makers[cut].price))
  }

  lemma {:induction false} SweepCut(t: Taker, rem: real, makers: seq<Maker>) returns (cut: nat)
    requires rem >= 0.0 && NonNegative(makers)
    ensures CutAt(t, rem, makers, Sweep(t, rem, makers), cut)
    ensures 0.0 <= Sum(Sweep(t, rem, makers)) <= rem
    decreases makers
  {
    var fills := Sweep(t, rem, makers);
    if makers == [] || rem == 0.0 || !Crosses(t, makers[0].price) {
      SumZeros(fills);
      cut := 0;
    } else {
      var qty := Min(rem, makers[0].remaining);
      var c := SweepCut(t, rem - qty, makers[1..]);
      var rest := Sweep(t, rem - qty, makers[1..]);
      assert fills[1..] == rest;
      if qty == makers[0].remaining {
        cut := c + 1;
        CutShifts(t, rem, makers, rest, c);
      } else {
        SumZeros(rest);
        cut := 0;
      }
    }
  }

  lemma CutShifts(t: Taker, rem: real, makers: seq<Maker>, rest: seq<real>, c: nat)
    requires makers != [] && |rest| == |makers| - 1 && Crosses(t, makers[0].price)
    requires CutAt(t, rem - makers[0].remaining, makers[1..], rest, c)
    ensures CutAt(t, rem, makers, [makers[0].remaining] + rest, c + 1)
  {}

  /** Trades are between nothing and what the maker has, and only at prices the taker accepts. */
  lemma FillsWithinBounds(t: Taker, rem: real, makers: seq<Maker>, i: nat)
    requires rem >= 0.0 && NonNegative(makers) && i < |makers|
    ensures 0.0 <= Fills(t, rem, makers)[i] <= makers[i].remaining
    ensures Fills(t, rem, makers)[i] > 0.0 ==> Crosses(t, makers[i].price)
    ensures 0.0 <= Sum(Fills(t, rem, makers)) <= rem
  {
    var cut := SweepCut(t, rem, makers);
    SumZeros(Zeros(|makers|));
  }

  /** Priority: a maker ranked behind an offer that was not used up does not trade. */
  lemma PriorityKept(t: Taker, rem: real, makers: seq<Maker>, i: nat, j: nat)
    requires rem >= 0.0 && NonNegative(makers) && i < j < |makers|
    requires Fills(t, rem, makers)[j] > 0.0
    ensures Fills(t, rem, makers)[i] == makers[i].remaining
  {
    var cut := SweepCut(t, rem, makers);
  }

  // ----- how much is traded -----

  lemma {:induction false} CrossingTotalBounds(t: Taker, makers: seq<Maker>)
    requires NonNegative(makers)
    ensures CrossingTotal(t, makers) >= 0.0
  {
    if makers != [] { CrossingTotalBounds(t, makers[1..]); }
  }

  /** In a ranked book nothing crosses behind an offer that does not. */
  lemma {:induction false} NothingCrossesBehind(t: Taker, makers: seq<Maker>)
    requires PriceRanked(t, makers) && makers != [] && !Crosses(t, makers[0].price)
    ensures CrossingTotal(t, makers) == 0.0
  {
    if |makers| > 1 {
      assert !Crosses(t, makers[1].price);
      NothingCrossesBehind(t, makers[1..]);
    }
  }

  /** A sweep trades all there is to trade: the smaller of what the taker wants and of what is
      offered at acceptable prices. */
  lemma {:induction false} SweepTotal(t: Taker, rem: real, makers: seq<Maker>)
    requires rem >= 0.0 && NonNegative(makers) && PriceRanked(t, makers)
    ensures Sum(Sweep(t, rem, makers)) == Min(rem, CrossingTotal(t, makers))
    decreases makers
  {
    var fills := Sweep(t, rem, makers);
    CrossingTotalBounds(t, makers);
    if makers == [] || rem == 0.0 {
      SumZeros(fills);
    } else if !Crosses(t, makers[0].price) {
      SumZeros(fills);
      NothingCrossesBehind(t, makers);
    } else {
      var qty := Min(rem, makers[0].remaining);
      assert fills[1..] == Sweep(t, rem - qty, makers[1..]);
      SweepTotal(t, rem - qty, makers[1..]);
      CrossingTotalBounds(t, makers[1..]);
    }
  }

  lemma {:induction false} CanFullyFillMeans(t: Taker, wanted: real, available: real, makers: seq<Maker>)
    requires wanted > available >= 0.0 && NonNegative(makers) && PriceRanked(t, makers)
    ensures CanFullyFill(t, wanted, available, makers) <==> available + CrossingTotal(t, makers) >= wanted
    decreases makers
  {
    if makers != [] {
      if !Crosses(t, makers[0].price) {
        NothingCrossesBehind(t, makers);
      } else if available + makers[0].remaining >= wanted {
        CrossingTotalBounds(t, makers[1..]);
      } else {
        CanFullyFillMeans(t, wanted, available + makers[0].remaining, makers[1..]);
      }
    }
  }

  /** Fill-or-kill is all or nothing: the check made before the loop holds exactly when the loop
      would fill the order completely, so an FOK order trades its whole quantity or nothing. */
  lemma AllOrNothing(t: Taker, rem: real, makers: seq<Maker>)
    requires rem > 0.0 && NonNegative(makers) && PriceRanked(t, makers)
    ensures CanFullyFill(t, rem, 0.0, makers) <==> Sum(Sweep(t, rem, makers)) == rem
    ensures t.tif.FOK? ==>
      Sum(Fills(t, rem, makers)) == rem || forall i :: 0 <= i < |makers| ==> Fills(t, rem, makers)[i] == 0.0
  {
    SweepTotal(t, rem, makers);
    CanFullyFillMeans(t, rem, 0.0, makers);
  }

  /** What the engine trades in all: nothing for a killed order, else the maximum. */
  lemma TradedTotal(t: Taker, rem: real, makers: seq<Maker>)
    requires rem > 0.0 && NonNegative(makers) && PriceRanked(t, makers)
    ensures Sum(Fills(t, rem, makers)) ==
      if t.tif.FOK? && CrossingTotal(t, makers) < rem then 0.0 else Min(rem, CrossingTotal(t, makers))
  {
    SweepTotal(t, rem, makers);
    CanFullyFillMeans(t, rem, 0.0, makers);
    SumZeros(Zeros(|makers|));
  }

  // ----- best execution -----

  function PriceOf(m: Maker): real {
    if m.price.Some? then m.price.value else 0.0
  }

  function Cost(qtys: seq<real>, makers: seq<Maker>): real
    requires |qtys| == |makers|
  {
    if qtys == [] then 0.0 else qtys[0] * PriceOf(makers[0]) + Cost(qtys[1..], makers[1..])
  }

  /** Some way to trade with these makers at prices the taker accepts. */
  ghost predicate Feasible(t: Taker, makers: seq<Maker>, qtys: seq<real>) {
    && |qtys| == |makers|
    && (forall i :: 0 <= i < |makers| ==> 0.0 <= qtys[i] <= makers[i].remaining)
    && (forall i :: 0 <= i < |makers| && qtys[i] > 0.0 ==> Crosses(t, makers[i].price))
  }

  /** Against xs, ys has more only at prices above p and less only at prices below p. */
  ghost predicate Shifted(xs: seq<real>, ys: seq<real>, makers: seq<Maker>, p: real)
    requires |xs| == |ys| == |makers|
  {
    forall i :: 0 <= i < |makers| ==> Product(ys[i] - xs[i], PriceOf(makers[i]) - p) >= 0.0
  }

  lemma {:induction false} CostDifference(xs: seq<real>, ys: seq<real>, makers: seq<Maker>, p: real)
    requires |xs| == |ys| == |makers| && Shifted(xs, ys, makers, p)
    ensures Cost(ys, makers) - Cost(xs, makers) >= p * (Sum(ys) - Sum(xs))
  {
    if makers != [] {
      assert Product(ys[0] - xs[0], PriceOf(makers[0]) - p)
          == ys[0] * PriceOf(makers[0]) - xs[0] * PriceOf(makers[0]) - p * (ys[0] - xs[0]);
      CostDifference(xs[1..], ys[1..], makers[1..], p);
      assert p * (Sum(ys) - Sum(xs)) == p * (ys[0] - xs[0]) + p * (Sum(ys[1..]) - Sum(xs[1..]));
    }
  }

  lemma ShiftedCostsMore(xs: seq<real>, ys: seq<real>, makers: seq<Maker>, p: real)
    requires |xs| == |ys| == |makers| && Shifted(xs, ys, makers, p) && Sum(xs) == Sum(ys)
    ensures Cost(xs, makers) <= Cost(ys, makers)
  {
    CostDifference(xs, ys, makers, p);
    var none := Sum(ys) - Sum(xs);
    assert none == 0.0 && p * none == 0.0;
  }

  lemma SignProduct(x: real, y: real)
    requires (x >= 0.0 && y >= 0.0) || (x <= 0.0 && y <= 0.0)
    ensures Product(x, y) >= 0.0
  {}

  /** Compared with the price at the cut, a sweep has too much only where prices are better for
      the taker and too little only where they are worse. */
  lemma TermSign(t: Taker, rem: real, makers: seq<Maker>, fills: seq<real>, other: seq<real>, cut: nat, i: nat)
    requires PriceRanked(t, makers) && Feasible(t, makers, other)
    requires |fills| == |makers| && CutAt(t, rem, makers, fills, cut) && cut < |makers| && i < |makers|
    ensures t.side.Buy? ==> Product(other[i] - fills[i], PriceOf(makers[i]) - PriceOf(makers[cut])) >= 0.0
    ensures t.side.Sell? ==> Product(fills[i] - other[i], PriceOf(makers[i]) - PriceOf(makers[cut])) >= 0.0
  {
    var better := PriceOf(makers[i]) - PriceOf(makers[cut]);
    if t.side.Buy? {
      SignProduct(other[i] - fills[i], better);
    } else {
      SignProduct(fills[i] - other[i], better);
    }
  }

  lemma SweepIsBest(t: Taker, rem: real, makers: seq<Maker>, fills: seq<real>, other: seq<real>, cut: nat)
    requires PriceRanked(t, makers) && Feasible(t, makers, other)
    requires |fills| == |makers| && CutAt(t, rem, makers, fills, cut) && Sum(other) == Sum(fills)
    ensures t.side.Buy? ==> Cost(fills, makers) <= Cost(other, makers)
    ensures t.side.Sell? ==> Cost(fills, makers) >= Cost(other, makers)
  {
    if cut == |makers| {
      SumTight(other, fills);
    } else {
      var p := PriceOf(makers[cut]);
      if t.side.Buy? {
        forall i | 0 <= i < |makers| ensures Product(other[i] - fills[i], PriceOf(makers[i]) - p) >= 0.0 {
          TermSign(t, rem, makers, fills, other, cut, i);
        }
        ShiftedCostsMore(fills, other, makers, p);
      } else {
        forall i | 0 <= i < |makers| ensures Product(fills[i] - other[i], PriceOf(makers[i]) - p) >= 0.0 {
          TermSign(t, rem, makers, fills, other, cut, i);
        }
        ShiftedCostsMore(other, fills, makers, p);
      }
    }
  }

  /** No other way to trade the same quantity costs a buyer less or pays a seller more. */
  lemma BestExecution(t: Taker, rem: real, makers: seq<Maker>, other: seq<real>)
    requires rem >= 0.0 && NonNegative(makers) && PriceRanked(t, makers)
    requires Feasible(t, makers, other) && Sum(other) == Sum(Fills(t, rem, makers))
    ensures t.side.Buy? ==> Cost(Fills(t, rem, makers), makers) <= Cost(other, makers)
    ensures t.side.Sell? ==> Cost(Fills(t, rem, makers), makers) >= Cost(other, makers)
  {
    if Killed(t, rem, makers) {
      SumZeros(Zeros(|makers|));
      NothingElse(other);
      assert Fills(t, rem, makers) == other;
    } else {
      var cut := SweepCut(t, rem, makers);
      SweepIsBest(t, rem, makers, Fills(t, rem, makers), other, cut);
    }
  }

  lemma {:induction false} NothingElse(xs: seq<real>)
    requires Sum(xs) == 0.0 && forall i :: 0 <= i < |xs| ==> xs[i] >= 0.0
    ensures forall i :: 0 <= i < |xs| ==> xs[i] == 0.0
  {
    if xs != [] {
      SumMonotone(Zeros(|xs| - 1), xs[1..]);
      SumZeros(Zeros(|xs| - 1));
      NothingElse(xs[1..]);
    }
  }

  lemma {:induction false} SumTight(xs: seq<real>, ys: seq<real>)
    requires |xs| == |ys| && (forall i :: 0 <= i < |xs| ==> xs[i] <= ys[i]) && Sum(xs) == Sum(ys)
    ensures xs == ys
  {
    if xs != [] {
      SumMonotone(xs[1..], ys[1..]);
      SumTight(xs[1..], ys[1..]);
    }
  }
}
