/** When a buy order can spend more than an amount, and which amendments let it. */
module OrderOverspending {
  import opened Options
  import opened OrderTypes
  import opened Sums
  import opened MatchingSpec
  import opened OrderModel
  import opened OrderInvariants
  import opened OrderTheorems
  import opened OrderAmendments
  import opened OrderExposure
  import R = RiskLimit

  // ----- what an order may still spend, it does spend in some run -----

  /** The order can be executed as it is, or once it is triggered. */
  predicate CanTrade(o: Order) {
    IsLive(o.status) && (o.orderType.Limit? || (o.orderType.StopLimit? && !o.triggered && Positive(o.stop)))
  }

  /** Every other order among the first n has been cancelled, and nothing else has been done. */
  ghost predicate Cleared(s: State, t: State, j: nat, n: nat)
    requires j < |s.orders|
  {
    && |t.orders| == |s.orders| && t.executions == s.executions && t.orders[j] == s.orders[j]
    && forall i :: 0 <= i < n && i < |t.orders| && i != j ==> !IsLive(t.orders[i].status)
  }

  lemma {:induction false} ClearOthers(s: State, j: nat, n: nat) returns (acts: seq<Action>)
    requires j < |s.orders| && n <= |s.orders|
    ensures NeverAmends(acts, j) && Cleared(s, Run(s, acts), j, n)
  {
    acts := [];
    if n > 0 {
      var rest := ClearOthers(s, j, n - 1);
      acts := rest;
      if n - 1 != j {
        acts := rest + [Cancel(n - 1)];
        RunSnoc(s, rest, Cancel(n - 1));
      }
    }
  }

  /** A seller who offers what the order still wants at its limit. */
  function SellTo(o: Order, candidates: seq<nat>): Action {
    Submit(Request(o.key, "", Sell, OrderType.Limit, GTC, o.remaining, o.limit, None, None), false, 0, 0, candidates)
  }

  function Seller(o: Order): Order {
    NewOrder(SellTo(o, []).request, Accepted, None, 0)
  }

  /** Nobody else is on the book, and the order has a positive limit and something to buy. */
  ghost predicate Alone(s: State, j: nat) {
    && j < |s.orders| && LimitBuy(s.orders[j]) && CanTrade(s.orders[j]) && s.orders[j].key.symbol != ""
    && Positive(s.orders[j].limit) && s.orders[j].remaining > 0.0
    && forall i :: 0 <= i < |s.orders| && i != j ==> !IsLive(s.orders[i].status)
  }

  /** Two orders of the same quantity and limit alone trade all of it. */
  lemma OneMaker(t: Taker, quantity: real, price: real)
    requires quantity > 0.0 && t.orderType.Limit? && t.limit == Some(price)
    ensures Fills(t, quantity, [Maker(Some(price), quantity)]) == [quantity]
  {
    var makers := [Maker(Some(price), quantity)];
    assert Crosses(t, makers[0].price) && CanFullyFill(t, quantity, 0.0, makers);
    assert Sweep(t, quantity, makers) == [quantity] + Sweep(t, 0.0, makers[1..]);
  }

  /** When one of them is matched with the other, the buyer has paid the limit for all of it. */
  lemma PaysAll(s: State, id: nat, maker: nat, j: nat)
    requires id < |s.orders| && maker < |s.orders| && id != maker && (j == id || j == maker)
    requires Book(s.orders, id, [maker]) && s.orders[id].orderType.Limit? && Positive(s.orders[id].limit)
    requires s.orders[maker].limit == s.orders[id].limit && s.orders[maker].remaining == s.orders[id].remaining > 0.0
    ensures Commits(s.orders, id, [maker])
    ensures Notional(Matched(s, id, [maker]).executions, j)
         == Notional(s.executions, j) + Product(s.orders[id].limit.value, s.orders[id].remaining)
  {
    var o, c := s.orders[id], s.orders[maker];
    var makers := MakersOf(s.orders, [maker]);
    assert makers == [Maker(Some(o.limit.value), o.remaining)];
    OneMaker(TakerOf(o), o.remaining, o.limit.value);
    var fills := Fills(TakerOf(o), o.remaining, makers);
    var rows := ExecutionsOf(s.orders, id, [maker], fills);
    assert ExecutionsOf(s.orders, id, [maker][1..], fills[1..]) == [];
    assert |rows| == 1 && Involves(rows[0], j) && rows[0].quantity == o.remaining && rows[0].price == o.limit.value;
    assert Notional(rows[1..], j) == 0.0;
    FilledConcat(s.executions, rows, j);
  }

  lemma LimitSpends(s: State, j: nat)
    requires Alone(s, j) && s.orders[j].orderType.Limit?
    ensures Notional(Apply(s, SellTo(s.orders[j], [j])).executions, j) == Exposure(s, j)
  {
    var o, a := s.orders[j], SellTo(s.orders[j], [j]);
    var p, id := Prepared(s, a), |s.orders|;
    assert p.orders == s.orders + [Seller(o)] && ToMatch(s, a) == Some(id);
    assert MakersOf(p.orders, [j]) == [Maker(o.limit, o.remaining)];
    assert Book(p.orders, id, [j]);
    PaysAll(p, id, j, j);
  }

  /** The seller comes first and finds nothing to match with. */
  lemma SellerRests(s: State, j: nat)
    requires Alone(s, j) && s.orders[j].orderType.StopLimit?
    ensures Apply(s, SellTo(s.orders[j], [])) == s.(orders := s.orders + [Seller(s.orders[j])])
  {
    var o, a := s.orders[j], SellTo(s.orders[j], []);
    var p := s.(orders := s.orders + [Seller(o)]);
    assert Prepared(s, a) == p && MakersOf(p.orders, []) == [];
    assert Book(p.orders, |s.orders|, []);
    PreparedRests(s, a, p, |s.orders|);
  }

  lemma StopSpends(s: State, j: nat)
    requires Alone(s, j) && s.orders[j].orderType.StopLimit?
    ensures var t := Apply(s, SellTo(s.orders[j], []));
            Notional(Apply(t, Trigger(j, s.orders[j].stop.value, [|s.orders|])).executions, j) == Exposure(s, j)
  {
    var o, id := s.orders[j], |s.orders|;
    SellerRests(s, j);
    var t := s.(orders := s.orders + [Seller(o)]);
    var a := Trigger(j, o.stop.value, [id]);
    var p := Prepared(t, a);
    assert Guard(t, a) && p.orders[id] == Seller(o);
    assert p.orders[j] == o.(orderType := OrderType.Limit, triggered := true, version := o.version + 1);
    assert MakersOf(p.orders, [id]) == [Maker(o.limit, o.remaining)];
    assert Book(p.orders, j, [id]);
    PaysAll(p, j, id, j);
  }

  lemma AloneSpends(s: State, j: nat) returns (acts: seq<Action>)
    requires Alone(s, j)
    ensures NeverAmends(acts, j) && Notional(Run(s, acts).executions, j) == Exposure(s, j)
  {
    var o := s.orders[j];
    if o.orderType.Limit? {
      LimitSpends(s, j);
      acts := [SellTo(o, [j])];
      RunSnoc(s, [], acts[0]);
      assert [] + [acts[0]] == acts;
    } else {
      StopSpends(s, j);
      acts := [SellTo(o, []), Trigger(j, o.stop.value, [|s.orders|])];
      RunTwoMore(s, acts[0], acts[1], []);
      assert [acts[0], acts[1]] + [] == acts;
    }
  }

  /** Some run spends all of an order's exposure, without amending it. */
  lemma ExposureReached(s: State, j: nat) returns (acts: seq<Action>)
    requires j < |s.orders| && LimitBuy(s.orders[j]) && CanTrade(s.orders[j]) && s.orders[j].key.symbol != ""
    requires Positive(s.orders[j].limit) && s.orders[j].remaining > 0.0
    ensures NeverAmends(acts, j) && Notional(Run(s, acts).executions, j) == Exposure(s, j)
  {
    var clear := ClearOthers(s, j, |s.orders|);
    var spend := AloneSpends(Run(s, clear), j);
    acts := clear + spend;
    RunConcat(s, clear, spend);
  }

  // ----- exactly when an order can spend more than an amount -----

  /** A live stop order that no step can trigger. */
  predicate IsStuck(o: Order) {
    o.orderType.StopLimit? && !o.status.RiskPending? && !(!o.triggered && Positive(o.stop))
  }

  lemma StuckStays(s: State, a: Action, j: nat)
    requires Inv(s) && j < |s.orders| && IsStuck(s.orders[j]) && !Amends(a, j)
    ensures j < |Apply(s, a).orders| && IsStuck(Apply(s, a).orders[j])
    ensures Notional(Apply(s, a).executions, j) == Notional(s.executions, j)
  {
    StepWaits(s, a, j);
  }

  lemma {:induction false} StuckSpendsNothing(s: State, acts: seq<Action>, j: nat)
    requires Inv(s) && j < |s.orders| && IsStuck(s.orders[j]) && NeverAmends(acts, j)
    ensures Notional(Run(s, acts).executions, j) == Notional(s.executions, j)
    decreases acts
  {
    if acts != [] {
      StuckStays(s, acts[0], j);
      StepKeeps(s, acts[0]);
      StuckSpendsNothing(Apply(s, acts[0]), acts[1..], j);
    }
  }

  /** Some run that does not amend the order lets it spend more than this. */
  ghost predicate CanSpendMoreThan(s: State, j: nat, amount: real) {
    exists acts :: NeverAmends(acts, j) && Notional(Run(s, acts).executions, j) > amount
  }

  /** A live buy order with a limit can spend more than an amount exactly when it can trade and its
      exposure is more. */
  lemma CanSpendExactlyWhen(s: State, j: nat, amount: real)
    requires Inv(s) && j < |s.orders| && LimitBuy(s.orders[j]) && IsLive(s.orders[j].status)
    requires s.orders[j].key.symbol != "" && Notional(s.executions, j) <= amount
    ensures CanSpendMoreThan(s, j, amount) <==> CanTrade(s.orders[j]) && Exposure(s, j) > amount
  {
    var o := s.orders[j];
    assert OrderOk(o, j, s.executions);
    if CanTrade(o) && Exposure(s, j) > amount {
      assert Worth(o.limit, o.remaining) > 0.0;
      assert o.remaining != 0.0 by { assert Positive(o.limit) ==> Product(o.limit.value, 0.0) == 0.0; }
      var acts := ExposureReached(s, j);
    } else {
      forall acts | NeverAmends(acts, j) ensures Notional(Run(s, acts).executions, j) <= amount {
        if CanTrade(o) { RunExposure(s, acts, j); } else { StuckSpendsNothing(s, acts, j); }
      }
    }
  }

  lemma AmendedRow(s: State, a: Action)
    requires Inv(s) && a.Amend? && Enabled(s, a) && LimitBuy(s.orders[a.id])
    ensures var o, t := s.orders[a.id], Apply(s, a);
            var total := if a.quantity.Some? then a.quantity.value else o.quantity;
            && |t.orders| == |s.orders| && LimitBuy(t.orders[a.id]) && IsLive(t.orders[a.id].status)
            && t.orders[a.id].key == o.key && t.executions == s.executions && total >= o.filled
            && (CanTrade(t.orders[a.id]) <==> o.orderType.Limit? || (!o.triggered && Positive(a.stop)))
            && Exposure(t, a.id) == Notional(s.executions, a.id) + Worth(a.limit, total - o.filled)
  {
    assert OrderOk(s.orders[a.id], a.id, s.executions);
  }

  /** What an amendment leaves to be bought. */
  function LeftAfter(o: Order, a: Action): real
    requires a.Amend?
  {
    (if a.quantity.Some? then a.quantity.value else o.quantity) - o.filled
  }

  /** An amendment lets a buy order spend more than an amount exactly when the order can still trade
      after it and the new limit for what is left comes to more than what has not been spent of the
      amount. */
  lemma AmendOverspendsExactlyWhen(s: State, a: Action, amount: real)
    requires Inv(s) && a.Amend? && Enabled(s, a) && LimitBuy(s.orders[a.id])
    requires s.orders[a.id].key.symbol != "" && Notional(s.executions, a.id) <= amount
    ensures var o := s.orders[a.id];
            CanSpendMoreThan(Apply(s, a), a.id, amount) <==>
              && (o.orderType.Limit? || (!o.triggered && Positive(a.stop)))
              && Notional(s.executions, a.id) + Worth(a.limit, LeftAfter(o, a)) > amount
  {
    StepKeeps(s, a);
    AmendedRow(s, a);
    CanSpendExactlyWhen(Apply(s, a), a.id, amount);
  }

  // ----- the first amendment of an approved order -----

  /** An order without a symbol is refused. */
  ghost predicate HasSymbol(s: State, j: nat) {
    j < |s.orders| && !s.orders[j].status.Rejected? ==> s.orders[j].key.symbol != ""
  }

  lemma PreparedHasSymbol(s: State, a: Action, j: nat)
    requires Guard(s, a) && HasSymbol(s, j) && (j >= |s.orders| || !s.orders[j].status.Rejected?)
    ensures HasSymbol(Prepared(s, a), j)
  {}

  lemma MatchHasSymbol(s: State, id: nat, candidates: seq<nat>, j: nat)
    requires Inv(s) && id < |s.orders| && IsLive(s.orders[id].status) && HasSymbol(s, j)
    requires Book(s.orders, id, candidates) && Commits(s.orders, id, candidates)
    ensures HasSymbol(Matched(s, id, candidates), j)
  {
    MatchKeeps(s, id, candidates);
    if j < |s.orders| { MatchMoves(s, id, candidates, j); }
  }

  lemma StepHasSymbol(s: State, a: Action, j: nat)
    requires Inv(s) && HasSymbol(s, j)
    ensures HasSymbol(Apply(s, a), j)
  {
    if Enabled(s, a) {
      if j < |s.orders| && s.orders[j].status.Rejected? {
        StepMoves(s, a, j);
      } else if ToMatch(s, a).Some? {
        PreparedKeeps(s, a);
        PreparedHasSymbol(s, a, j);
        MatchHasSymbol(Prepared(s, a), ToMatch(s, a).value, CandidatesOf(a), j);
      } else if a.Submit? {
        PreparedHasSymbol(s, a, j);
      }
    }
  }

  lemma {:induction false} RunHasSymbol(s: State, acts: seq<Action>, j: nat)
    requires Inv(s) && HasSymbol(s, j)
    ensures HasSymbol(Run(s, acts), j)
    decreases acts
  {
    if acts != [] {
      StepHasSymbol(s, acts[0], j);
      StepKeeps(s, acts[0]);
      RunHasSymbol(Apply(s, acts[0]), acts[1..], j);
    }
  }

  /** The first amendment of a buy order lets it spend more than the notional its approval recorded,
      its limit times its quantity, exactly under that condition. */
  lemma FirstAmendmentOverspends(acts: seq<Action>, a: Action)
    requires a.Amend? && Enabled(Run(EMPTY, acts), a) && NeverAmends(acts, a.id)
    requires LimitBuy(Run(EMPTY, acts).orders[a.id])
    ensures var s := Run(EMPTY, acts);
            var o := s.orders[a.id];
            CanSpendMoreThan(Apply(s, a), a.id, Worth(o.limit, o.quantity)) <==>
              && (o.orderType.Limit? || (!o.triggered && Positive(a.stop)))
              && Notional(s.executions, a.id) + Worth(a.limit, LeftAfter(o, a)) > Worth(o.limit, o.quantity)
  {
    var s := Run(EMPTY, acts);
    RunKeeps(EMPTY, acts);
    RunHasSymbol(EMPTY, acts, a.id);
    RunBudgeted(EMPTY, acts, a.id);
    RunExposure(s, [], a.id);
    AmendOverspendsExactlyWhen(s, a, Worth(s.orders[a.id].limit, s.orders[a.id].quantity));
  }

  ghost const APPROVED := [Submit(Quote(Buy, 5.0), true, 0, 0, []), Decide(0, Approve, [])]

  ghost const RAISE := Amend(0, 2, None, Some(8.0), None, None)

  ghost const BID := Placed(Buy, 5.0).(version := 2)

  lemma BidApproved()
    ensures Run(EMPTY, APPROVED) == State([BID], [])
  {
    var pending := State([Placed(Buy, 5.0).(status := RiskPending)], []);
    assert Apply(EMPTY, APPROVED[0]) == pending;
    assert Prepared(pending, APPROVED[1]).orders == [BID] && MakersOf([BID], []) == [];
    assert Book([BID], 0, []);
    PreparedRests(pending, APPROVED[1], State([BID], []), 0);
    RunTwoMore(EMPTY, APPROVED[0], APPROVED[1], []);
    assert APPROVED + [] == APPROVED && [APPROVED[0], APPROVED[1]] == APPROVED;
  }

  /** A bid of ten at five, for which every approval records fifty, is raised to eight and spends
      eighty. */
  lemma RaisedBidOverspends(c: R.Config, committed: seq<R.Decision>, answer: R.Answer, now: int)
    returns (acts: seq<Action>)
    ensures var s := Run(EMPTY, APPROVED);
            var d := R.Evaluation(c, committed, RiskOrder(s.orders[0], 0), answer, now);
            && (d.verdict.Approved? ==> d.notional == 50.0)
            && Notional(Run(Apply(s, RAISE), acts).executions, 0) == 80.0
  {
    BidApproved();
    RecordedIsWorth(BID, 0, c, committed, answer, now);
    acts := ExposureReached(Apply(State([BID], []), RAISE), 0);
  }

  // ----- a stop order trades before it is triggered -----

  ghost function StopLimitBid(): Request {
    Request(KEY, "user", Buy, StopLimit, GTC, 10.0, Some(8.0), Some(100.0), None)
  }

  lemma StopLimitFills()
    ensures Fills(TakerOf(NewOrder(StopLimitBid(), Accepted, None, 0)), 10.0, [Maker(Some(7.0), 10.0)]) == [10.0]
  {
    var t, makers := TakerOf(NewOrder(StopLimitBid(), Accepted, None, 0)), [Maker(Some(7.0), 10.0)];
    assert Sweep(t, 10.0, makers) == [10.0] + Sweep(t, 0.0, makers[1..]);
  }

  /** An order that one maker fills completely is filled. */
  lemma OneMakerFills(s: State, id: nat, maker: nat, fills: seq<real>)
    requires id < |s.orders| && maker < |s.orders| && Book(s.orders, id, [maker]) && Positive(s.orders[maker].limit)
    requires s.orders[id].remaining > 0.0 && !s.orders[id].tif.FOK? && fills == [s.orders[id].remaining]
    requires Fills(TakerOf(s.orders[id]), s.orders[id].remaining, MakersOf(s.orders, [maker])) == fills
    ensures Commits(s.orders, id, [maker])
    ensures var o := Matched(s, id, [maker]).orders[id];
            o.filled == s.orders[id].filled + s.orders[id].remaining && o.triggered == s.orders[id].triggered
  {
    assert Sum(fills) == fills[0] + Sum(fills[1..]);
  }

  /** A STOP_LIMIT order whose limit crosses the book is executed when it is placed, far from its
      stop price and not triggered. */
  lemma StopLimitTradesUntriggered()
    ensures var s := Run(EMPTY, [Place(Sell, 7.0, []), Submit(StopLimitBid(), false, 0, 0, [0])]);
            |s.orders| == 2 && !s.orders[1].triggered && s.orders[1].filled == 10.0
  {
    var s := State([Placed(Sell, 7.0)], []);
    var a := Submit(StopLimitBid(), false, 0, 0, [0]);
    FirstPlaced(Quote(Sell, 7.0), 0, Placed(Sell, 7.0));
    RunTwoMore(EMPTY, Place(Sell, 7.0, []), a, []);
    assert [Place(Sell, 7.0, []), a] + [] == [Place(Sell, 7.0, []), a];
    StopLimitPlaced(s, a);
  }

  lemma StopLimitPlaced(s: State, a: Action)
    requires s == State([Placed(Sell, 7.0)], []) && a == Submit(StopLimitBid(), false, 0, 0, [0])
    ensures var t := Apply(s, a); |t.orders| == 2 && !t.orders[1].triggered && t.orders[1].filled == 10.0
  {
    var p := Prepared(s, a);
    assert p.orders == [Placed(Sell, 7.0), NewOrder(StopLimitBid(), Accepted, None, 0)];
    assert MakersOf(p.orders, [0]) == [Maker(Some(7.0), 10.0)];
    assert Book(p.orders, 1, [0]);
    StopLimitFills();
    OneMakerFills(p, 1, 0, [10.0]);
  }
}
