/** What every run of the order table keeps: quantities add up to the execution rows, finished
    orders stay as they are, statuses follow the transition table, versions tell rows apart. */
module OrderInvariants {
  import opened Options
  import opened OrderTypes
  import opened Sums
  import opened MatchingSpec
  import opened OrderModel

  // ----- the invariant -----

  ghost predicate OrderOk(o: Order, id: nat, execs: seq<Execution>) {
    && o.version >= 1
    && 0.0 <= o.filled <= o.quantity && o.quantity > 0.0 && o.remaining >= 0.0
    && o.filled == FilledSum(execs, id)
    && o.average == BatchAverage(execs, id)
    && (IsLive(o.status) || o.status.Expired? ==> o.filled + o.remaining == o.quantity)
    && (o.status.Filled? ==> o.remaining == 0.0 && o.filled == o.quantity)
    && (o.status.Cancelled? ==> o.remaining == 0.0)
    && (o.status.PartiallyFilled? ==> o.filled > 0.0)
    && (o.status.Accepted? || o.status.RiskPending? || o.status.Rejected? || o.status.RiskRejected?
        || o.status.RiskError? ==>
          o.filled == 0.0)
    && (o.status.RiskPending? ==> o.remaining == o.quantity)
    && !o.status.Created? && !o.status.Validated?
  }

  ghost predicate ExecutionOk(e: Execution, orders: seq<Order>) {
    && e.buyId < |orders| && e.sellId < |orders|
    && orders[e.buyId].side.Buy? && orders[e.sellId].side.Sell? && orders[e.buyId].key == orders[e.sellId].key
    && e.buyer == orders[e.buyId].userID && e.seller == orders[e.sellId].userID
    && e.quantity > 0.0 && e.price > 0.0
  }

  ghost predicate OrdersOk(s: State) {
    forall id :: 0 <= id < |s.orders| ==> OrderOk(s.orders[id], id, s.executions)
  }

  ghost predicate ExecutionsOk(s: State) {
    forall i :: 0 <= i < |s.executions| ==> ExecutionOk(s.executions[i], s.orders)
  }

  ghost predicate Inv(s: State) {
    OrdersOk(s) && ExecutionsOk(s)
  }

  // ----- the execution rows of one match -----

  lemma {:induction false} FilledConcat(xs: seq<Execution>, ys: seq<Execution>, id: nat)
    ensures FilledSum(xs + ys, id) == FilledSum(xs, id) + FilledSum(ys, id)
    ensures Notional(xs + ys, id) == Notional(xs, id) + Notional(ys, id)
  {
    if xs == [] {
      assert xs + ys == ys;
    } else {
      assert (xs + ys)[0] == xs[0] && (xs + ys)[1..] == xs[1..] + ys;
      FilledConcat(xs[1..], ys, id);
    }
  }

  lemma {:induction false} NotInvolved(execs: seq<Execution>, id: nat)
    requires forall e <- execs :: !Involves(e, id)
    ensures FilledSum(execs, id) == 0.0 && Notional(execs, id) == 0.0
  {
    if execs != [] { NotInvolved(execs[1..], id); }
  }

  lemma {:induction false} FillOfMember(candidates: seq<nat>, fills: seq<real>, i: nat)
    requires |candidates| == |fills| && i < |fills|
    requires forall a, b :: 0 <= a < b < |candidates| ==> candidates[a] != candidates[b]
    ensures FillOf(candidates, fills, candidates[i]) == fills[i]
  {
    if i > 0 { FillOfMember(candidates[1..], fills[1..], i - 1); }
  }

  /** The new execution rows give the incoming order all that was traded, each candidate its own
      fill, and nobody else anything. */
  lemma {:induction false} NewExecutions(orders: seq<Order>, id: nat, candidates: seq<nat>, fills: seq<real>, j: nat)
    requires id < |orders| && |candidates| == |fills|
    requires forall i :: 0 <= i < |candidates| ==> candidates[i] < |orders| && candidates[i] != id
    requires forall a, b :: 0 <= a < b < |candidates| ==> candidates[a] != candidates[b]
    requires forall i :: 0 <= i < |fills| ==> fills[i] >= 0.0
    ensures var execs := ExecutionsOf(orders, id, candidates, fills);
            && FilledSum(execs, j) == (if j == id then Sum(fills) else FillOf(candidates, fills, j))
            && (j != id && FillOf(candidates, fills, j) == 0.0 ==> Notional(execs, j) == 0.0)
            && (Sum(fills) == 0.0 ==> Notional(execs, id) == 0.0)
            && Sum(fills) >= 0.0
    decreases candidates
  {
    if candidates != [] {
      var execs := ExecutionsOf(orders, id, candidates, fills);
      var rest := ExecutionsOf(orders, id, candidates[1..], fills[1..]);
      NewExecutions(orders, id, candidates[1..], fills[1..], j);
      NewExecutions(orders, id, candidates[1..], fills[1..], id);
      if fills[0] > 0.0 {
        assert execs[1..] == rest;
      } else {
        assert execs == rest;
      }
      if j == candidates[0] && j != id {
        assert FillOf(candidates[1..], fills[1..], j) == 0.0 by { AbsentFill(candidates[1..], fills[1..], j); }
      }
    }
  }

  lemma {:induction false} AbsentFill(candidates: seq<nat>, fills: seq<real>, j: nat)
    requires |candidates| == |fills| && j !in candidates
    ensures FillOf(candidates, fills, j) == 0.0
  {
    if candidates != [] { AbsentFill(candidates[1..], fills[1..], j); }
  }

  lemma {:induction false} NewExecutionsOk(orders: seq<Order>, id: nat, candidates: seq<nat>, fills: seq<real>)
    requires id < |orders| && |candidates| == |fills|
    requires forall i :: 0 <= i < |candidates| ==>
               && candidates[i] < |orders| && orders[candidates[i]].side != orders[id].side
               && orders[candidates[i]].key == orders[id].key
    requires forall i :: 0 <= i < |candidates| && fills[i] > 0.0 ==> Positive(orders[candidates[i]].limit)
    ensures forall e <- ExecutionsOf(orders, id, candidates, fills) :: ExecutionOk(e, orders)
    decreases candidates
  {
    if candidates != [] { NewExecutionsOk(orders, id, candidates[1..], fills[1..]); }
  }

  // ----- a match keeps the invariant -----

  /** What a match leaves alone in every row. */
  ghost predicate SameTerms(o: Order, p: Order) {
    && p.key == o.key && p.userID == o.userID && p.side == o.side && p.orderType == o.orderType && p.tif == o.tif
    && p.quantity == o.quantity && p.limit == o.limit && p.stop == o.stop
    && p.createdAt == o.createdAt && p.expiresAt == o.expiresAt && p.triggered == o.triggered
  }

  /** The facts about a match that its effect on the table depends on. */
  ghost predicate MatchFacts(s: State, id: nat, candidates: seq<nat>, fills: seq<real>) {
    && id < |s.orders| && Book(s.orders, id, candidates) && |fills| == |candidates|
    && fills == Fills(TakerOf(s.orders[id]), s.orders[id].remaining, MakersOf(s.orders, candidates))
    && (forall i :: 0 <= i < |candidates| ==>
          0.0 <= fills[i] <= s.orders[candidates[i]].remaining && candidates[i] != id)
    && 0.0 <= Sum(fills) <= s.orders[id].remaining
  }

  lemma MatchFactsHold(s: State, id: nat, candidates: seq<nat>) returns (fills: seq<real>)
    requires id < |s.orders| && Book(s.orders, id, candidates) && s.orders[id].remaining >= 0.0
    ensures MatchFacts(s, id, candidates, fills)
  {
    var makers := MakersOf(s.orders, candidates);
    var t := TakerOf(s.orders[id]);
    fills := Fills(t, s.orders[id].remaining, makers);
    forall i | 0 <= i < |candidates|
      ensures 0.0 <= fills[i] <= s.orders[candidates[i]].remaining && candidates[i] != id
    {
      assert Resting(s.orders, id, candidates[i]);
      FillsWithinBounds(t, s.orders[id].remaining, makers, i);
    }
    if candidates == [] {
      assert Sum(fills) == 0.0;
    } else {
      FillsWithinBounds(t, s.orders[id].remaining, makers, 0);
    }
  }

  /** A change that its order can take and that the execution rows account for. */
  ghost predicate ChangeOk(o: Order, id: nat, c: Change, execs: seq<Execution>, more: seq<Execution>) {
    && FilledSum(more, id) == FilledSum(execs, id) + c.qty
    && (c.written ==> IsLive(o.status) && 0.0 <= c.qty <= o.remaining && (o.remaining > 0.0 || o.filled > 0.0))
    && (!c.written ==> c.qty == 0.0 && Notional(more, id) == Notional(execs, id))
  }

  lemma ChangedRowOk(o: Order, id: nat, c: Change, execs: seq<Execution>, more: seq<Execution>)
    requires OrderOk(o, id, execs) && ChangeOk(o, id, c, execs, more)
    ensures OrderOk(Changed(o, id, c, more), id, more) && SameTerms(o, Changed(o, id, c, more))
  {}

  lemma MatchChangeOk(
      s: State, id: nat, candidates: seq<nat>, fills: seq<real>, killed: bool, more: seq<Execution>, j: nat)
    requires MatchFacts(s, id, candidates, fills) && IsLive(s.orders[id].status) && j < |s.orders|
    requires OrderOk(s.orders[id], id, s.executions)
    requires more == s.executions + ExecutionsOf(s.orders, id, candidates, fills)
    ensures ChangeOk(s.orders[j], j, ChangeOf(s.orders, id, candidates, fills, killed, j), s.executions, more)
  {
    FilledConcat(s.executions, ExecutionsOf(s.orders, id, candidates, fills), j);
    NewExecutions(s.orders, id, candidates, fills, j);
    if j != id && j in candidates {
      var i :| 0 <= i < |candidates| && candidates[i] == j;
      FillOfMember(candidates, fills, i);
      assert Resting(s.orders, id, j);
    } else if j != id {
      AbsentFill(candidates, fills, j);
    }
  }

  lemma MatchKeeps(s: State, id: nat, candidates: seq<nat>)
    requires Inv(s) && id < |s.orders| && IsLive(s.orders[id].status)
    requires Book(s.orders, id, candidates) && Commits(s.orders, id, candidates)
    ensures Inv(Matched(s, id, candidates))
    ensures forall j :: 0 <= j < |s.orders| ==> SameTerms(s.orders[j], Matched(s, id, candidates).orders[j])
  {
    assert OrderOk(s.orders[id], id, s.executions);
    var fills := MatchFactsHold(s, id, candidates);
    var killed := Killed(TakerOf(s.orders[id]), s.orders[id].remaining, MakersOf(s.orders, candidates));
    var t := Matched(s, id, candidates);
    forall j | 0 <= j < |s.orders|
      ensures OrderOk(t.orders[j], j, t.executions) && SameTerms(s.orders[j], t.orders[j])
    {
      assert OrderOk(s.orders[j], j, s.executions);
      MatchChangeOk(s, id, candidates, fills, killed, t.executions, j);
      ChangedRowOk(s.orders[j], j, ChangeOf(s.orders, id, candidates, fills, killed, j), s.executions, t.executions);
    }
    MatchedExecutionsOk(s, id, candidates, fills);
  }

  lemma MatchedExecutionsOk(s: State, id: nat, candidates: seq<nat>, fills: seq<real>)
    requires ExecutionsOk(s) && MatchFacts(s, id, candidates, fills) && Commits(s.orders, id, candidates)
    requires forall j :: 0 <= j < |s.orders| ==> SameTerms(s.orders[j], Matched(s, id, candidates).orders[j])
    ensures ExecutionsOk(Matched(s, id, candidates))
  {
    var t := Matched(s, id, candidates);
    var rows := ExecutionsOf(s.orders, id, candidates, fills);
    NewExecutionsOk(s.orders, id, candidates, fills);
    forall i | 0 <= i < |t.executions| ensures ExecutionOk(t.executions[i], t.orders) {
      var e := t.executions[i];
      if i >= |s.executions| { assert e in rows; }
      assert ExecutionOk(e, s.orders);
      assert SameTerms(s.orders[e.buyId], t.orders[e.buyId]) && SameTerms(s.orders[e.sellId], t.orders[e.sellId]);
    }
  }

  // ----- every step keeps the invariant -----

  lemma PreparedKeeps(s: State, a: Action)
    requires Inv(s) && Guard(s, a) && (a.Submit? || a.Decide? || a.Trigger?)
    ensures Inv(Prepared(s, a))
    ensures ToMatch(s, a).Some? ==>
              var id := ToMatch(s, a).value; id < |Prepared(s, a).orders| && IsLive(Prepared(s, a).orders[id].status)
  {
    var p := Prepared(s, a);
    forall id | 0 <= id < |p.orders| ensures OrderOk(p.orders[id], id, p.executions) {
      if id < |s.orders| {
        assert OrderOk(s.orders[id], id, s.executions);
      } else {
        forall e | e in s.executions ensures !Involves(e, id) {
          var i :| 0 <= i < |s.executions| && s.executions[i] == e;
          assert ExecutionOk(s.executions[i], s.orders);
        }
        NotInvolved(s.executions, id);
      }
    }
    forall i | 0 <= i < |p.executions| ensures ExecutionOk(p.executions[i], p.orders) {
      assert ExecutionOk(s.executions[i], s.orders);
    }
  }

  lemma RowKeeps(s: State, a: Action)
    requires Inv(s) && Enabled(s, a) && (a.Cancel? || a.Amend? || a.Expire?)
    ensures Inv(Apply(s, a))
  {
    var t := Apply(s, a);
    forall id | 0 <= id < |t.orders| ensures OrderOk(t.orders[id], id, t.executions) {
      assert OrderOk(s.orders[id], id, s.executions);
    }
    forall i | 0 <= i < |t.executions| ensures ExecutionOk(t.executions[i], t.orders) {
      assert ExecutionOk(s.executions[i], s.orders);
    }
  }

  lemma StepKeeps(s: State, a: Action)
    requires Inv(s)
    ensures Inv(Apply(s, a))
  {
    if Enabled(s, a) {
      if a.Cancel? || a.Amend? || a.Expire? {
        RowKeeps(s, a);
      } else {
        PreparedKeeps(s, a);
        if ToMatch(s, a).Some? { MatchKeeps(Prepared(s, a), ToMatch(s, a).value, CandidatesOf(a)); }
      }
    }
  }

  /** The order invariant holds in every state a run reaches. */
  lemma {:induction false} RunKeeps(s: State, acts: seq<Action>)
    requires Inv(s)
    ensures Inv(Run(s, acts))
    decreases acts
  {
    if acts != [] {
      StepKeeps(s, acts[0]);
      RunKeeps(Apply(s, acts[0]), acts[1..]);
    }
  }
}
