/** What the engine's report says about quantities and money, for every report it can make. */
module MatchingTheorems {
  import opened Options
  import opened OrderTypes
  import opened Sums
  import opened MatchingSpec
  import opened MatchingBook
  import opened MatchingEngine

  function Traded(execs: seq<Execution>): real {
    if execs == [] then 0.0 else Traded(execs[..|execs| - 1]) + execs[|execs| - 1].quantity
  }

  function Paid(execs: seq<Execution>): real {
    if execs == [] then 0.0
    else Paid(execs[..|execs| - 1]) + Product(execs[|execs| - 1].quantity, execs[|execs| - 1].price)
  }

  lemma {:induction false} CostSnoc(qtys: seq<real>, makers: seq<Maker>)
    requires qtys != [] && |qtys| == |makers|
    ensures var n := |qtys| - 1;
            Cost(qtys, makers) == Cost(qtys[..n], makers[..n]) + Product(qtys[n], PriceOf(makers[n]))
    decreases qtys
  {
    var n := |qtys| - 1;
    if n == 0 {
      assert qtys[1..] == [] && qtys[..n] == [];
    } else {
      CostSnoc(qtys[1..], makers[1..]);
      assert qtys[1..][..n - 1] == qtys[..n][1..] && makers[1..][..n - 1] == makers[..n][1..];
    }
  }

  lemma OneMoreExecution(incoming: Order, ranked: seq<Order>, last: Maker, fills: seq<real>, now: int)
    requires |ranked| == |fills| && fills != [] && fills[|fills| - 1] >= 0.0
             && last.price == ranked[|fills| - 1].limitPrice
    requires forall i :: 0 <= i < |fills| && fills[i] > 0.0 ==> ranked[i].limitPrice.Some?
    ensures var n := |fills| - 1;
            var before := ExecutionsOf(incoming, ranked[..n], fills[..n], now);
            var execs := ExecutionsOf(incoming, ranked, fills, now);
            && Traded(execs) == Traded(before) + fills[n]
            && Paid(execs) == Paid(before) + Product(fills[n], PriceOf(last))
  {
    var n := |fills| - 1;
    var before := ExecutionsOf(incoming, ranked[..n], fills[..n], now);
    var execs := ExecutionsOf(incoming, ranked, fills, now);
    if fills[n] > 0.0 {
      assert execs[..|execs| - 1] == before;
    } else {
      assert execs == before;
    }
  }

  /** The executions add up to the fills, in quantity and in money. */
  lemma {:induction false} QuantitiesAddUp(
      incoming: Order, ranked: seq<Order>, makers: seq<Maker>, fills: seq<real>, now: int)
    requires |ranked| == |makers| == |fills|
    requires forall i :: 0 <= i < |fills| ==> fills[i] >= 0.0 && makers[i].price == ranked[i].limitPrice
    requires forall i :: 0 <= i < |fills| && fills[i] > 0.0 ==> ranked[i].limitPrice.Some?
    ensures Traded(ExecutionsOf(incoming, ranked, fills, now)) == Sum(fills)
    decreases fills
  {
    if fills != [] {
      var n := |fills| - 1;
      QuantitiesAddUp(incoming, ranked[..n], makers[..n], fills[..n], now);
      assert fills == fills[..n] + [fills[n]];
      SumSnoc(fills[..n], fills[n]);
      OneMoreExecution(incoming, ranked, makers[n], fills, now);
    }
  }

  lemma {:induction false} MoneyAddsUp(
      incoming: Order, ranked: seq<Order>, makers: seq<Maker>, fills: seq<real>, now: int)
    requires |ranked| == |makers| == |fills|
    requires forall i :: 0 <= i < |fills| ==> fills[i] >= 0.0 && makers[i].price == ranked[i].limitPrice
    requires forall i :: 0 <= i < |fills| && fills[i] > 0.0 ==> ranked[i].limitPrice.Some?
    ensures Paid(ExecutionsOf(incoming, ranked, fills, now)) == Cost(fills, makers)
    decreases fills
  {
    if fills != [] {
      var n := |fills| - 1;
      MoneyAddsUp(incoming, ranked[..n], makers[..n], fills[..n], now);
      CostSnoc(fills, makers);
      OneMoreExecution(incoming, ranked, makers[n], fills, now);
    }
  }

  /** The executions of a match trade what the incoming order loses, no more than it wants and no
      more than is offered, and an order that is not killed trades all it can. */
  lemma MatchConserves(
      incoming: Order, resting: seq<Order>, ranked: seq<Order>, makers: seq<Maker>, now: int, rem: real,
      fills: seq<real>, result: Result)
    requires Report(incoming, resting, ranked, makers, now, rem, fills, result) && rem > 0.0
    ensures Traded(result.executions) == Sum(fills)
    ensures Traded(result.executions) ==
              if TakerOf(incoming).tif.FOK? && CrossingTotal(TakerOf(incoming), makers) < rem then 0.0
              else Min(rem, CrossingTotal(TakerOf(incoming), makers))
  {
    forall i | 0 <= i < |fills| ensures fills[i] >= 0.0 { FillsWithinBounds(TakerOf(incoming), rem, makers, i); }
    QuantitiesAddUp(incoming, ranked, makers, fills, now);
    TradedTotal(TakerOf(incoming), rem, makers);
  }

  /** No other way to trade the reported quantity with the orders on offer is better for the
      incoming order. */
  lemma MatchIsBest(incoming: Order, resting: seq<Order>, ranked: seq<Order>, makers: seq<Maker>, now: int, rem: real,
                    fills: seq<real>, result: Result, other: seq<real>)
    requires Report(incoming, resting, ranked, makers, now, rem, fills, result)
    requires Feasible(TakerOf(incoming), makers, other) && Sum(other) == Traded(result.executions)
    ensures incoming.side.Buy? ==> Paid(result.executions) <= Cost(other, makers)
    ensures incoming.side.Sell? ==> Paid(result.executions) >= Cost(other, makers)
  {
    forall i | 0 <= i < |fills| ensures fills[i] >= 0.0 { FillsWithinBounds(TakerOf(incoming), rem, makers, i); }
    QuantitiesAddUp(incoming, ranked, makers, fills, now);
    MoneyAddsUp(incoming, ranked, makers, fills, now);
    BestExecution(TakerOf(incoming), rem, makers, other);
  }

  // ----- what each execution says -----

  /** The execution is between these two orders, the buyer's order and user on the one side and the
      seller's on the other, at the maker's price. */
  predicate Between(e: Execution, incoming: Order, maker: Order) {
    && (if incoming.side.Buy? then
          && e.buyOrderID == incoming.id && e.buyerUserID == incoming.userID
          && e.sellOrderID == maker.id && e.sellerUserID == maker.userID
        else
          && e.buyOrderID == maker.id && e.buyerUserID == maker.userID
          && e.sellOrderID == incoming.id && e.sellerUserID == incoming.userID)
    && maker.limitPrice == Some(e.price)
  }

  /** The makers the executions are with: each that trades, once, in their rank. */
  ghost predicate Sources(incoming: Order, ranked: seq<Order>, fills: seq<real>, now: int, execs: seq<Execution>,
                          from: seq<nat>)
    requires |ranked| == |fills|
  {
    && |from| == |execs| && (forall k, m :: 0 <= k < m < |from| ==> from[k] < from[m])
    && (forall i: nat :: i < |fills| && fills[i] > 0.0 ==> i in from)
    && (forall k :: 0 <= k < |from| ==>
          && from[k] < |fills| && fills[from[k]] > 0.0 && execs[k].quantity == fills[from[k]]
          && execs[k].executedAt == now && Between(execs[k], incoming, ranked[from[k]]))
  }

  lemma {:induction false} ExecutionsHaveSources(
      incoming: Order, ranked: seq<Order>, fills: seq<real>, now: int) returns (from: seq<nat>)
    requires |ranked| == |fills| && forall i :: 0 <= i < |fills| && fills[i] > 0.0 ==> ranked[i].limitPrice.Some?
    ensures Sources(incoming, ranked, fills, now, ExecutionsOf(incoming, ranked, fills, now), from)
    decreases fills
  {
    from := [];
    if fills != [] {
      var n := |fills| - 1;
      var before := ExecutionsHaveSources(incoming, ranked[..n], fills[..n], now);
      from := before + if fills[n] > 0.0 then [n] else [];
      var execs := ExecutionsOf(incoming, ranked[..n], fills[..n], now);
      if fills[n] > 0.0 {
        SourceAdded(incoming, ranked, fills, now, execs, before);
      } else {
        SourcesStay(incoming, ranked, fills, now, execs, before);
        assert before + [] == before && execs + [] == execs;
      }
    }
  }

  lemma SourcesStay(incoming: Order, ranked: seq<Order>, fills: seq<real>, now: int, execs: seq<Execution>,
                    from: seq<nat>)
    requires |ranked| == |fills| && fills != [] && fills[|fills| - 1] <= 0.0
    requires Sources(incoming, ranked[..|fills| - 1], fills[..|fills| - 1], now, execs, from)
    ensures Sources(incoming, ranked, fills, now, execs, from)
  {
    var n := |fills| - 1;
    forall i: nat | i < |fills| && fills[i] > 0.0 ensures i in from {
      assert fills[..n][i] == fills[i];
    }
  }

  lemma SourceAdded(incoming: Order, ranked: seq<Order>, fills: seq<real>, now: int, execs: seq<Execution>,
                    from: seq<nat>)
    requires |ranked| == |fills| && fills != [] && fills[|fills| - 1] > 0.0 && ranked[|fills| - 1].limitPrice.Some?
    requires Sources(incoming, ranked[..|fills| - 1], fills[..|fills| - 1], now, execs, from)
    ensures var n := |fills| - 1;
            Sources(incoming, ranked, fills, now, execs + [ExecutionOf(incoming, ranked[n], fills[n], now)], from + [n])
  {
    var n := |fills| - 1;
    var e := ExecutionOf(incoming, ranked[n], fills[n], now);
    assert e.quantity == fills[n] && e.executedAt == now && Between(e, incoming, ranked[n]);
    forall i: nat | i < |fills| && fills[i] > 0.0 ensures i in from + [n] {
      if i < n { assert fills[..n][i] == fills[i]; }
    }
  }

  /** The reported executions are one for each maker that trades, in rank, and nothing else.  Each is
      between the right orders and users, at the maker's price, which the incoming order accepts. */
  lemma EveryExecution(
      incoming: Order, resting: seq<Order>, ranked: seq<Order>, makers: seq<Maker>, now: int, rem: real,
      fills: seq<real>, result: Result) returns (from: seq<nat>)
    requires Report(incoming, resting, ranked, makers, now, rem, fills, result)
    ensures Sources(incoming, ranked, fills, now, result.executions, from)
    ensures forall e <- result.executions :: Accepts(incoming, e.price)
  {
    from := ExecutionsHaveSources(incoming, ranked, fills, now);
    forall e | e in result.executions ensures Accepts(incoming, e.price) {
      var k :| 0 <= k < |result.executions| && result.executions[k] == e;
      FillAccepted(incoming, makers, rem, fills, from[k], e.price);
    }
  }

  /** A price the order would trade at. */
  predicate Accepts(incoming: Order, price: real) {
    incoming.orderType.Market? ||
    (incoming.limitPrice.Some? &&
     if incoming.side.Buy? then price <= incoming.limitPrice.value else price >= incoming.limitPrice.value)
  }

  lemma FillAccepted(incoming: Order, makers: seq<Maker>, rem: real, fills: seq<real>, i: nat, price: real)
    requires rem >= 0.0 && NonNegative(makers) && fills == Fills(TakerOf(incoming), rem, makers)
    requires i < |makers| && fills[i] > 0.0 && makers[i].price == Some(price)
    ensures Accepts(incoming, price)
  {
    FillsWithinBounds(TakerOf(incoming), rem, makers, i);
  }

  /** The order ends filled, cancelled or resting, exactly one of the three: what is left of a
      market, IOC or FOK order is cancelled, and of any other it rests.  Apart from its quantities
      the order is as it came in, a missing time in force read as DAY. */
  lemma ExactlyOneEnd(incoming: Order, resting: seq<Order>, ranked: seq<Order>, makers: seq<Maker>, now: int, rem: real,
                      fills: seq<real>, result: Result)
    requires Report(incoming, resting, ranked, makers, now, rem, fills, result) && rem > 0.0
    ensures var left := rem - Sum(fills);
            && left >= 0.0
            && (left == 0.0 <==> !result.cancelled && !result.rested)
            && (result.cancelled <==> left > 0.0 && (incoming.orderType.Market? || incoming.tif == Some(IOC)
                                                     || incoming.tif == Some(FOK)))
            && (result.rested <==> left > 0.0 && !incoming.orderType.Market? && incoming.tif != Some(IOC)
                                   && incoming.tif != Some(FOK))
    ensures result.incoming == incoming.(tif := if incoming.tif.None? then Some(Day) else incoming.tif)
  {
    SumZeros(Zeros(|makers|));
    var _ := SweepCut(TakerOf(incoming), rem, makers);
  }
}
