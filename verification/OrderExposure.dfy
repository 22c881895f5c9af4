/** What a buy order with a limit can spend, against what its risk decision recorded. */
module OrderExposure {
  import opened Options
  import opened OrderTypes
  import opened Sums
  import opened MatchingSpec
  import opened OrderModel
  import opened OrderInvariants
  import opened OrderTheorems
  import R = RiskLimit

  predicate LimitBuy(o: Order) {
    o.side.Buy? && (o.orderType.Limit? || o.orderType.StopLimit?)
  }

  /** What a quantity costs at a limit; nothing is ever traded at a limit that is not positive. */
  function Worth(limit: Option<real>, quantity: real): real {
    if Positive(limit) then Product(limit.value, quantity) else 0.0
  }

  /** What an order has spent, and may still spend. */
  function Exposure(s: State, j: nat): real
    requires j < |s.orders|
  {
    Notional(s.executions, j) + Worth(s.orders[j].limit, s.orders[j].remaining)
  }

  // ----- a match spends no more than the limit allows -----

  lemma Scaled(price: real, paid: real, quantity: real, rest: real)
    requires paid <= price && quantity >= 0.0
    ensures quantity * paid + Product(price, rest) <= Product(price, quantity + rest)
    ensures paid == price ==> quantity * paid + Product(price, rest) == Product(price, quantity + rest)
  {
    assert price * (quantity + rest) == price * quantity + price * rest;
    assert quantity * paid <= quantity * price by { assert quantity * (price - paid) >= 0.0; }
  }

  lemma {:induction false} NotionalAtMost(execs: seq<Execution>, j: nat, price: real)
    requires forall e <- execs :: Involves(e, j) ==> e.quantity >= 0.0 && e.price <= price
    ensures Notional(execs, j) <= Product(price, FilledSum(execs, j))
  {
    if execs != [] {
      NotionalAtMost(execs[1..], j, price);
      if Involves(execs[0], j) {
        Scaled(price, execs[0].price, execs[0].quantity, FilledSum(execs[1..], j));
      }
    }
  }

  /** Where the fills that an order takes part in cost no more than a price, so do its rows. */
  lemma {:induction false} RowsAtMost(
      orders: seq<Order>, id: nat, candidates: seq<nat>, fills: seq<real>, j: nat, price: real)
    requires id < |orders| && |candidates| == |fills|
    requires forall i :: 0 <= i < |candidates| ==> candidates[i] < |orders|
    requires forall i :: 0 <= i < |candidates| && fills[i] > 0.0 && (j == id || candidates[i] == j) ==>
               PriceOf(Maker(orders[candidates[i]].limit, orders[candidates[i]].remaining)) <= price
    ensures forall e <- ExecutionsOf(orders, id, candidates, fills) ::
              Involves(e, j) ==> e.quantity > 0.0 && e.price <= price
    decreases candidates
  {
    if candidates != [] {
      RowsAtMost(orders, id, candidates[1..], fills[1..], j, price);
      var first := Maker(orders[candidates[0]].limit, orders[candidates[0]].remaining);
      assert fills[0] > 0.0 && (j == id || candidates[0] == j) ==> PriceOf(first) <= price;
    }
  }

  lemma PaidWithinLimit(s: State, id: nat, candidates: seq<nat>, fills: seq<real>, j: nat, i: nat)
    requires MatchFacts(s, id, candidates, fills) && Commits(s.orders, id, candidates)
    requires s.orders[id].remaining >= 0.0 && j < |s.orders| && LimitBuy(s.orders[j])
    requires i < |candidates| && fills[i] > 0.0 && (j == id || candidates[i] == j)
    ensures Positive(s.orders[j].limit) && PriceOf(MakersOf(s.orders, candidates)[i]) <= s.orders[j].limit.value
  {
    var makers := MakersOf(s.orders, candidates);
    assert Positive(makers[i].price);
    if j == id {
      forall k | 0 <= k < |makers| ensures makers[k].remaining >= 0.0 {
        assert Resting(s.orders, id, candidates[k]);
      }
      FillsWithinBounds(TakerOf(s.orders[id]), s.orders[id].remaining, makers, i);
    }
  }

  /** The rows of one match cost an order at most its limit for each share. */
  lemma SpentInMatch(s: State, id: nat, candidates: seq<nat>, fills: seq<real>, j: nat)
    requires MatchFacts(s, id, candidates, fills) && Commits(s.orders, id, candidates)
    requires s.orders[id].remaining >= 0.0 && j < |s.orders| && LimitBuy(s.orders[j])
    ensures var rows := ExecutionsOf(s.orders, id, candidates, fills);
            Notional(rows, j) <= Worth(s.orders[j].limit, FilledSum(rows, j))
  {
    var rows := ExecutionsOf(s.orders, id, candidates, fills);
    var price := if Positive(s.orders[j].limit) then s.orders[j].limit.value else 0.0;
    forall i | 0 <= i < |candidates| && fills[i] > 0.0 && (j == id || candidates[i] == j)
      ensures PriceOf(Maker(s.orders[candidates[i]].limit, s.orders[candidates[i]].remaining)) <= price
    {
      PaidWithinLimit(s, id, candidates, fills, j, i);
    }
    RowsAtMost(s.orders, id, candidates, fills, j, price);
    NotionalAtMost(rows, j, price);
  }

  lemma WorthSplits(limit: Option<real>, remaining: real, quantity: real)
    requires 0.0 <= quantity <= remaining
    ensures Worth(limit, quantity) + Worth(limit, remaining - quantity) == Worth(limit, remaining)
    ensures Worth(limit, quantity) >= 0.0
  {
    if Positive(limit) {
      assert limit.value * remaining == limit.value * quantity + limit.value * (remaining - quantity);
    }
  }

  /** A match takes from what an order may still spend at least what it spends. */
  lemma MatchExposure(s: State, id: nat, candidates: seq<nat>, j: nat)
    requires Inv(s) && id < |s.orders| && IsLive(s.orders[id].status) && j < |s.orders| && LimitBuy(s.orders[j])
    requires Book(s.orders, id, candidates) && Commits(s.orders, id, candidates)
    ensures Exposure(Matched(s, id, candidates), j) <= Exposure(s, j)
  {
    assert OrderOk(s.orders[id], id, s.executions) && OrderOk(s.orders[j], j, s.executions);
    var fills := MatchFactsHold(s, id, candidates);
    var killed := Killed(TakerOf(s.orders[id]), s.orders[id].remaining, MakersOf(s.orders, candidates));
    var t := Matched(s, id, candidates);
    var rows := ExecutionsOf(s.orders, id, candidates, fills);
    var c := ChangeOf(s.orders, id, candidates, fills, killed, j);
    MatchChangeOk(s, id, candidates, fills, killed, t.executions, j);
    SpentInMatch(s, id, candidates, fills, j);
    FilledConcat(s.executions, rows, j);
    ChangeExposure(s.orders[j], j, c, rows, t.executions);
  }

  lemma ChangeExposure(o: Order, j: nat, c: Change, rows: seq<Execution>, more: seq<Execution>)
    requires FilledSum(rows, j) == c.qty && Notional(rows, j) <= Worth(o.limit, c.qty) && o.remaining >= 0.0
    requires if c.written then 0.0 <= c.qty <= o.remaining else c.qty == 0.0
    ensures Notional(rows, j) + Worth(Changed(o, j, c, more).limit, Changed(o, j, c, more).remaining)
         <= Worth(o.limit, o.remaining)
  {
    WorthSplits(o.limit, o.remaining, c.qty);
    WorthSplits(o.limit, o.remaining, o.remaining);
  }

  // ----- every step but an amendment of the order -----

  predicate Amends(a: Action, j: nat) {
    a.Amend? && a.id == j
  }

  predicate NeverAmends(acts: seq<Action>, j: nat) {
    forall k :: 0 <= k < |acts| ==> !Amends(acts[k], j)
  }

  lemma PreparedExposure(s: State, a: Action, j: nat)
    requires Inv(s) && Guard(s, a) && j < |s.orders|
    ensures j < |Prepared(s, a).orders| && Exposure(Prepared(s, a), j) == Exposure(s, j)
    ensures LimitBuy(Prepared(s, a).orders[j]) <==> LimitBuy(s.orders[j])
  {}

  lemma StepExposure(s: State, a: Action, j: nat)
    requires Inv(s) && j < |s.orders| && LimitBuy(s.orders[j]) && !Amends(a, j)
    ensures j < |Apply(s, a).orders| && LimitBuy(Apply(s, a).orders[j])
    ensures Exposure(Apply(s, a), j) <= Exposure(s, j)
  {
    if Enabled(s, a) {
      PreparedExposure(s, a, j);
      if ToMatch(s, a).Some? {
        PreparedKeeps(s, a);
        MatchExposure(Prepared(s, a), ToMatch(s, a).value, CandidatesOf(a), j);
        MatchKeeps(Prepared(s, a), ToMatch(s, a).value, CandidatesOf(a));
      } else {
        assert OrderOk(s.orders[j], j, s.executions);
        WorthSplits(s.orders[j].limit, s.orders[j].remaining, s.orders[j].remaining);
      }
    }
  }

  lemma {:induction false} RunExposure(s: State, acts: seq<Action>, j: nat)
    requires Inv(s) && j < |s.orders| && LimitBuy(s.orders[j]) && NeverAmends(acts, j)
    ensures j < |Run(s, acts).orders| && LimitBuy(Run(s, acts).orders[j])
    ensures Notional(Run(s, acts).executions, j) <= Exposure(Run(s, acts), j) <= Exposure(s, j)
    decreases acts
  {
    assert OrderOk(s.orders[j], j, s.executions);
    WorthSplits(s.orders[j].limit, s.orders[j].remaining, s.orders[j].remaining);
    if acts != [] {
      StepExposure(s, acts[0], j);
      StepKeeps(s, acts[0]);
      RunExposure(Apply(s, acts[0]), acts[1..], j);
    }
  }

  // ----- an order spends no more than its risk decision recorded -----

  /** What an order with a limit asked for covers what it has spent and may still spend. */
  ghost predicate Budgeted(s: State, j: nat) {
    j < |s.orders| && LimitBuy(s.orders[j]) ==> Exposure(s, j) <= Worth(s.orders[j].limit, s.orders[j].quantity)
  }

  lemma PreparedBudgeted(s: State, a: Action, j: nat)
    requires Inv(s) && Guard(s, a) && Budgeted(s, j)
    ensures Budgeted(Prepared(s, a), j)
  {
    if j < |s.orders| {
      PreparedExposure(s, a, j);
    } else {
      forall e | e in s.executions ensures !Involves(e, j) {
        var i :| 0 <= i < |s.executions| && s.executions[i] == e;
        assert ExecutionOk(s.executions[i], s.orders);
      }
      NotInvolved(s.executions, j);
    }
  }

  lemma StepBudgeted(s: State, a: Action, j: nat)
    requires Inv(s) && Budgeted(s, j) && !Amends(a, j)
    ensures Budgeted(Apply(s, a), j)
  {
    if Enabled(s, a) {
      PreparedBudgeted(s, a, j);
      if ToMatch(s, a).Some? {
        var p, id := Prepared(s, a), ToMatch(s, a).value;
        PreparedKeeps(s, a);
        MatchKeeps(p, id, CandidatesOf(a));
        if j < |p.orders| && LimitBuy(p.orders[j]) { MatchExposure(p, id, CandidatesOf(a), j); }
      } else if j < |s.orders| && LimitBuy(s.orders[j]) {
        StepExposure(s, a, j);
      }
    }
  }

  lemma {:induction false} RunBudgeted(s: State, acts: seq<Action>, j: nat)
    requires Inv(s) && Budgeted(s, j) && NeverAmends(acts, j)
    ensures Budgeted(Run(s, acts), j)
    decreases acts
  {
    if acts != [] {
      StepBudgeted(s, acts[0], j);
      StepKeeps(s, acts[0]);
      RunBudgeted(Apply(s, acts[0]), acts[1..], j);
    }
  }

  /** The order as the risk engine sees it. */
  function RiskOrder(o: Order, j: nat): R.Order {
    R.Order(j, o.key.tenant, o.userID, o.key.symbol, o.orderType, o.quantity, o.limit)
  }

  /** An approved decision records the limit times the quantity. */
  lemma RecordedIsWorth(o: Order, j: nat, c: R.Config, committed: seq<R.Decision>, answer: R.Answer, now: int)
    ensures var d := R.Evaluation(c, committed, RiskOrder(o, j), answer, now);
            d.verdict.Approved? ==>
              (o.orderType.Limit? || o.orderType.StopLimit?) && d.notional == Worth(o.limit, o.quantity)
  {
    var r := RiskOrder(o, j);
    assert R.Evaluation(c, committed, r, answer, now).verdict.Approved? ==> R.Estimate(r).Some?;
  }

  /** Whatever is done before an approval and after it, a buy order that is not amended spends at
      most the notional that its decision recorded. */
  lemma SpendsWithinDecision(
      before: seq<Action>, after: seq<Action>, j: nat, c: R.Config, committed: seq<R.Decision>, answer: R.Answer,
      now: int)
    requires j < |Run(EMPTY, before).orders| && Run(EMPTY, before).orders[j].side.Buy?
    requires NeverAmends(before, j) && NeverAmends(after, j)
    ensures var s := Run(EMPTY, before);
            var d := R.Evaluation(c, committed, RiskOrder(s.orders[j], j), answer, now);
            d.verdict.Approved? ==> Notional(Run(s, after).executions, j) <= d.notional
  {
    var s := Run(EMPTY, before);
    var d := R.Evaluation(c, committed, RiskOrder(s.orders[j], j), answer, now);
    RunKeeps(EMPTY, before);
    RunBudgeted(EMPTY, before, j);
    if d.verdict.Approved? {
      RunExposure(s, after, j);
      RecordedIsWorth(s.orders[j], j, c, committed, answer, now);
    }
  }

  // ----- a stop order that waits trades nothing -----

  lemma NotACandidate(orders: seq<Order>, id: nat, candidates: seq<nat>, j: nat)
    requires id < |orders| && Book(orders, id, candidates) && !Resting(orders, id, j)
    ensures j !in candidates
  {}

  /** On the book only LIMIT orders are found. */
  lemma OthersUntouched(s: State, id: nat, candidates: seq<nat>, j: nat)
    requires Inv(s) && id < |s.orders| && IsLive(s.orders[id].status) && j < |s.orders|
    requires Book(s.orders, id, candidates) && j != id && !s.orders[j].orderType.Limit?
    ensures var t := Matched(s, id, candidates);
            && t.orders[j] == s.orders[j] && Notional(t.executions, j) == Notional(s.executions, j)
            && FilledSum(t.executions, j) == FilledSum(s.executions, j)
  {
    assert OrderOk(s.orders[id], id, s.executions);
    var fills := MatchFactsHold(s, id, candidates);
    var rows := ExecutionsOf(s.orders, id, candidates, fills);
    NotACandidate(s.orders, id, candidates, j);
    AbsentFill(candidates, fills, j);
    NewExecutions(s.orders, id, candidates, fills, j);
    FilledConcat(s.executions, rows, j);
  }

  /** A stop order that has been placed. */
  predicate IsPlacedStop(o: Order) {
    (o.orderType.Stop? || o.orderType.StopLimit?) && !o.status.RiskPending?
  }

  /** The order is triggered by this step. */
  predicate Triggers(s: State, a: Action, j: nat) {
    a.Trigger? && a.id == j && Guard(s, a)
  }

  lemma StepWaits(s: State, a: Action, j: nat)
    requires Inv(s) && j < |s.orders| && IsPlacedStop(s.orders[j]) && !Triggers(s, a, j)
    ensures j < |Apply(s, a).orders| && IsPlacedStop(Apply(s, a).orders[j])
    ensures Apply(s, a).orders[j].orderType == s.orders[j].orderType
    ensures Notional(Apply(s, a).executions, j) == Notional(s.executions, j)
    ensures FilledSum(Apply(s, a).executions, j) == FilledSum(s.executions, j)
    ensures !Amends(a, j) ==>
              Apply(s, a).orders[j].stop == s.orders[j].stop && Apply(s, a).orders[j].triggered == s.orders[j].triggered
  {
    if Enabled(s, a) && ToMatch(s, a).Some? {
      PreparedKeeps(s, a);
      OthersUntouched(Prepared(s, a), ToMatch(s, a).value, CandidatesOf(a), j);
    }
  }

  /** A placed stop order trades nothing, on the book or off it, until a trigger step for it. */
  lemma {:induction false} WaitsUntilTriggered(s: State, acts: seq<Action>, j: nat)
    requires Inv(s) && j < |s.orders| && IsPlacedStop(s.orders[j])
    requires forall k :: 0 <= k < |acts| ==> !(acts[k].Trigger? && acts[k].id == j)
    ensures FilledSum(Run(s, acts).executions, j) == FilledSum(s.executions, j)
    ensures Notional(Run(s, acts).executions, j) == Notional(s.executions, j)
    decreases acts
  {
    if acts != [] {
      StepWaits(s, acts[0], j);
      StepKeeps(s, acts[0]);
      WaitsUntilTriggered(Apply(s, acts[0]), acts[1..], j);
    }
  }
}
