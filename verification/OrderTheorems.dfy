/** What follows for the life of an order and for the book, over every run. */
module OrderTheorems {
  import opened Options
  import opened OrderTypes
  import opened Sums
  import opened MatchingSpec
  import opened OrderModel
  import opened OrderInvariants

  // ----- one step moves a row forward or leaves it alone -----

  /** At most two entries of the transition table: a risk approval matches in the same step. */
  ghost predicate Path(from: Status, to: Status) {
    from == to || Allowed(from, to) || exists via :: Allowed(from, via) && Allowed(via, to)
  }

  ghost predicate Moves(o: Order, p: Order) {
    p == o || (p.version > o.version && !IsTerminal(o.status) && Path(o.status, p.status))
  }

  lemma MatchMoves(s: State, id: nat, candidates: seq<nat>, j: nat)
    requires Inv(s) && id < |s.orders| && IsLive(s.orders[id].status) && j < |s.orders|
    requires Book(s.orders, id, candidates)
    ensures var o, p := s.orders[j], Matched(s, id, candidates).orders[j];
            p == o || (p.version > o.version && IsLive(o.status)
                       && (p.status == o.status || Allowed(o.status, p.status)))
  {
    assert OrderOk(s.orders[id], id, s.executions) && OrderOk(s.orders[j], j, s.executions);
    var fills := MatchFactsHold(s, id, candidates);
    var killed := Killed(TakerOf(s.orders[id]), s.orders[id].remaining, MakersOf(s.orders, candidates));
    MatchChangeOk(s, id, candidates, fills, killed, Matched(s, id, candidates).executions, j);
  }

  /** Every status a step writes is allowed by the transition table or stays put, a finished
      order is not written, and whatever is written carries a higher version. */
  lemma StepMoves(s: State, a: Action, j: nat)
    requires Inv(s) && j < |s.orders|
    ensures j < |Apply(s, a).orders| && Moves(s.orders[j], Apply(s, a).orders[j])
  {
    if Enabled(s, a) {
      if ToMatch(s, a).Some? {
        var p := Prepared(s, a);
        PreparedKeeps(s, a);
        MatchMoves(p, ToMatch(s, a).value, CandidatesOf(a), j);
        PreparedMoves(s, a, p, j, Apply(s, a).orders[j]);
      } else {
        RowMoves(s, a, Apply(s, a), j);
      }
    }
  }

  lemma PreparedMoves(s: State, a: Action, p: State, j: nat, o: Order)
    requires j < |s.orders| && Guard(s, a) && p == Prepared(s, a) && ToMatch(s, a).Some?
    requires o == p.orders[j]
          || (o.version > p.orders[j].version && IsLive(p.orders[j].status)
              && (o.status == p.orders[j].status || Allowed(p.orders[j].status, o.status)))
    ensures Moves(s.orders[j], o)
  {}

  lemma RowMoves(s: State, a: Action, t: State, j: nat)
    requires j < |s.orders| && Enabled(s, a) && ToMatch(s, a).None? && t == Effect(s, a)
    ensures j < |t.orders| && Moves(s.orders[j], t.orders[j])
  {}

  lemma {:induction false} RunMoves(s: State, acts: seq<Action>, j: nat)
    requires Inv(s) && j < |s.orders|
    ensures j < |Run(s, acts).orders|
    ensures var o, p := s.orders[j], Run(s, acts).orders[j]; p == o || (p.version > o.version && !IsTerminal(o.status))
    decreases acts
  {
    if acts != [] {
      StepMoves(s, acts[0], j);
      StepKeeps(s, acts[0]);
      RunMoves(Apply(s, acts[0]), acts[1..], j);
    }
  }

  /** A finished order stays as it is for ever. */
  lemma TerminalForever(s: State, acts: seq<Action>, j: nat)
    requires Inv(s) && j < |s.orders| && IsTerminal(s.orders[j].status)
    ensures j < |Run(s, acts).orders| && Run(s, acts).orders[j] == s.orders[j]
  {
    RunMoves(s, acts, j);
  }

  /** An amendment that goes through was decided on the row as it still is: whatever ran between
      reading version v and amending with it has not touched the order. */
  lemma AmendSawLatest(s: State, acts: seq<Action>, a: Action)
    requires Inv(s) && a.Amend? && a.id < |s.orders| && a.expectedVersion == s.orders[a.id].version
    requires Enabled(Run(s, acts), a)
    ensures Run(s, acts).orders[a.id] == s.orders[a.id]
  {
    RunMoves(s, acts, a.id);
  }

  /** In every state a run reaches, an order's quantities agree with its execution rows. */
  lemma QuantitiesAccounted(acts: seq<Action>, j: nat)
    requires j < |Run(EMPTY, acts).orders|
    ensures var s := Run(EMPTY, acts);
            var o := s.orders[j];
            && o.filled == FilledSum(s.executions, j) && 0.0 <= o.filled <= o.quantity
            && (IsLive(o.status) || o.status.Expired? ==> o.filled + o.remaining == o.quantity)
            && (o.status.Filled? ==> o.remaining == 0.0 && o.filled == o.quantity)
            && (o.status.Cancelled? ==> o.remaining == 0.0)
            && o.average == BatchAverage(s.executions, j)
  {
    RunKeeps(EMPTY, acts);
    assert OrderOk(Run(EMPTY, acts).orders[j], j, Run(EMPTY, acts).executions);
  }

  /** In every state a run reaches, an execution is between a buy and a sell order of one tenant and
      symbol, and names the users of those two. */
  lemma ExecutionsNameTheirOrders(acts: seq<Action>, i: nat)
    requires i < |Run(EMPTY, acts).executions|
    ensures var s := Run(EMPTY, acts);
            var e := s.executions[i];
            && e.buyId < |s.orders| && e.sellId < |s.orders|
            && s.orders[e.buyId].side == Buy && s.orders[e.sellId].side == Sell
            && s.orders[e.buyId].key == s.orders[e.sellId].key
            && e.buyer == s.orders[e.buyId].userID && e.seller == s.orders[e.sellId].userID
            && e.quantity > 0.0 && e.price > 0.0
  {
    RunKeeps(EMPTY, acts);
    assert ExecutionOk(Run(EMPTY, acts).executions[i], Run(EMPTY, acts).orders);
  }

  // ----- what is bought is sold -----

  function SideTotal(orders: seq<Order>, side: Side, key: Key): real {
    if orders == [] then 0.0
    else
      var n := |orders| - 1;
      SideTotal(orders[..n], side, key)
          + (if orders[n].side == side && orders[n].key == key then orders[n].filled else 0.0)
  }

  function Traded(execs: seq<Execution>, orders: seq<Order>, key: Key): real {
    if execs == [] then 0.0
    else
      var e := execs[0];
      (if e.buyId < |orders| && orders[e.buyId].key == key then e.quantity else 0.0) + Traded(execs[1..], orders, key)
  }

  /** What the execution rows add up to over the first n orders of one side and key. */
  function SideSum(execs: seq<Execution>, orders: seq<Order>, side: Side, key: Key, n: nat): real
    requires n <= |orders|
  {
    if n == 0 then 0.0
    else SideSum(execs, orders, side, key, n - 1)
           + (if orders[n - 1].side == side && orders[n - 1].key == key then FilledSum(execs, n - 1) else 0.0)
  }

  lemma {:induction false} SideTotalIsSum(s: State, side: Side, key: Key, n: nat)
    requires OrdersOk(s) && n <= |s.orders|
    ensures SideTotal(s.orders[..n], side, key) == SideSum(s.executions, s.orders, side, key, n)
  {
    if n > 0 {
      SideTotalIsSum(s, side, key, n - 1);
      assert s.orders[..n][..n - 1] == s.orders[..n - 1];
      assert OrderOk(s.orders[n - 1], n - 1, s.executions);
    }
  }

  /** One execution counts for exactly one order of each side. */
  lemma {:induction false} OneCounts(
      e: Execution, rest: seq<Execution>, orders: seq<Order>, side: Side, key: Key, n: nat)
    requires n <= |orders| && ExecutionOk(e, orders)
    ensures SideSum([e] + rest, orders, side, key, n)
         == SideSum(rest, orders, side, key, n)
              + (if (if side.Buy? then e.buyId else e.sellId) < n && orders[e.buyId].key == key then e.quantity
                 else 0.0)
  {
    if n > 0 {
      OneCounts(e, rest, orders, side, key, n - 1);
      assert ([e] + rest)[1..] == rest;
    }
  }

  lemma {:induction false} SideSumIsTraded(execs: seq<Execution>, orders: seq<Order>, side: Side, key: Key)
    requires forall e <- execs :: ExecutionOk(e, orders)
    ensures SideSum(execs, orders, side, key, |orders|) == Traded(execs, orders, key)
  {
    if execs == [] {
      NothingTraded(orders, side, key, |orders|);
    } else {
      SideSumIsTraded(execs[1..], orders, side, key);
      OneCounts(execs[0], execs[1..], orders, side, key, |orders|);
      assert [execs[0]] + execs[1..] == execs;
    }
  }

  lemma {:induction false} NothingTraded(orders: seq<Order>, side: Side, key: Key, n: nat)
    requires n <= |orders|
    ensures SideSum([], orders, side, key, n) == 0.0
  {
    if n > 0 { NothingTraded(orders, side, key, n - 1); }
  }

  /** For every tenant and symbol, all buy orders together have filled what all sell orders
      together have filled, and that is what was executed. */
  lemma BoughtIsSold(acts: seq<Action>, key: Key)
    ensures var s := Run(EMPTY, acts);
            SideTotal(s.orders, Buy, key) == SideTotal(s.orders, Sell, key) == Traded(s.executions, s.orders, key)
  {
    RunKeeps(EMPTY, acts);
    var s := Run(EMPTY, acts);
    assert forall e <- s.executions :: ExecutionOk(e, s.orders);
    SideSumIsTraded(s.executions, s.orders, Buy, key);
    SideSumIsTraded(s.executions, s.orders, Sell, key);
    SideTotalIsSum(s, Buy, key, |s.orders|);
    SideTotalIsSum(s, Sell, key, |s.orders|);
    assert s.orders[..|s.orders|] == s.orders;
  }

  // ----- the book is never crossed -----

  /** An order others can trade with at its price. */
  ghost predicate OnBook(o: Order) {
    IsLive(o.status) && o.orderType.Limit? && o.remaining > 0.0 && o.limit.Some?
  }

  ghost predicate CrossedPair(bid: Order, ask: Order) {
    && OnBook(bid) && OnBook(ask) && bid.key == ask.key && bid.side.Buy? && ask.side.Sell?
    && bid.limit.value >= ask.limit.value
  }

  /** No two orders on the book cross, leaving out order `except` (pass the number of orders to
      leave out none). */
  ghost predicate UncrossedBut(orders: seq<Order>, except: nat) {
    forall i, j :: 0 <= i < |orders| && 0 <= j < |orders| && i != except && j != except ==>
      !CrossedPair(orders[i], orders[j])
  }

  ghost predicate Uncrossed(orders: seq<Order>) {
    forall i, j :: 0 <= i < |orders| && 0 <= j < |orders| ==> !CrossedPair(orders[i], orders[j])
  }

  /** What is left of an order after a match does not cross what is left of any candidate. */
  lemma RestDoesNotCross(s: State, id: nat, candidates: seq<nat>, fills: seq<real>, i: nat)
    requires MatchFacts(s, id, candidates, fills) && i < |candidates|
    requires !Killed(TakerOf(s.orders[id]), s.orders[id].remaining, MakersOf(s.orders, candidates))
    requires Sum(fills) < s.orders[id].remaining && fills[i] < s.orders[candidates[i]].remaining
    ensures !Crosses(TakerOf(s.orders[id]), s.orders[candidates[i]].limit)
  {
    var t := TakerOf(s.orders[id]);
    var makers := MakersOf(s.orders, candidates);
    forall k | 0 <= k < |makers| ensures makers[k].remaining >= 0.0 { assert Resting(s.orders, id, candidates[k]); }
    var cut := SweepCut(t, s.orders[id].remaining, makers);
    assert cut <= i;
    if cut < i { assert !Crosses(t, makers[cut].price); }
  }

  lemma MatchUncrosses(s: State, id: nat, candidates: seq<nat>)
    requires Inv(s) && id < |s.orders| && IsLive(s.orders[id].status)
    requires Book(s.orders, id, candidates) && Commits(s.orders, id, candidates)
    requires UncrossedBut(s.orders, id)
    ensures Uncrossed(Matched(s, id, candidates).orders)
  {
    var t := Matched(s, id, candidates);
    MatchKeeps(s, id, candidates);
    forall j | 0 <= j < |s.orders| && j != id && OnBook(t.orders[j]) ensures OnBook(s.orders[j]) {
      StillOnBook(s, id, candidates, j);
    }
    forall i, j | 0 <= i < |t.orders| && 0 <= j < |t.orders| ensures !CrossedPair(t.orders[i], t.orders[j]) {
      assert SameTerms(s.orders[i], t.orders[i]) && SameTerms(s.orders[j], t.orders[j]);
      if i == id && j != id {
        RestUncrossed(s, id, candidates, j);
      } else if j == id && i != id {
        RestUncrossed(s, id, candidates, i);
      } else {
        assert i != id && j != id ==> !CrossedPair(s.orders[i], s.orders[j]);
      }
    }
  }

  lemma StillOnBook(s: State, id: nat, candidates: seq<nat>, j: nat)
    requires Inv(s) && id < |s.orders| && IsLive(s.orders[id].status) && j < |s.orders| && j != id
    requires Book(s.orders, id, candidates) && Commits(s.orders, id, candidates)
    requires OnBook(Matched(s, id, candidates).orders[j])
    ensures OnBook(s.orders[j])
    ensures j in candidates
            && !Killed(TakerOf(s.orders[id]), s.orders[id].remaining, MakersOf(s.orders, candidates)) ==>
              FillOf(candidates, Fills(TakerOf(s.orders[id]), s.orders[id].remaining,
                                       MakersOf(s.orders, candidates)), j)
                < s.orders[j].remaining
  {}

  /** If the matched order is on the book afterwards, it does not cross what is there. */
  lemma RestUncrossed(s: State, id: nat, candidates: seq<nat>, j: nat)
    requires Inv(s) && id < |s.orders| && IsLive(s.orders[id].status) && j < |s.orders| && j != id
    requires Book(s.orders, id, candidates) && Commits(s.orders, id, candidates)
    ensures var t := Matched(s, id, candidates).orders;
            !CrossedPair(t[id], t[j]) && !CrossedPair(t[j], t[id])
  {
    var t := Matched(s, id, candidates).orders;
    MatchKeeps(s, id, candidates);
    assert SameTerms(s.orders[id], t[id]) && SameTerms(s.orders[j], t[j]);
    if OnBook(t[id]) && OnBook(t[j]) && t[id].key == t[j].key && t[id].side != t[j].side {
      assert OrderOk(s.orders[id], id, s.executions);
      var fills := MatchFactsHold(s, id, candidates);
      StillOnBook(s, id, candidates, j);
      assert Resting(s.orders, id, j);
      var i :| 0 <= i < |candidates| && candidates[i] == j;
      FillOfMember(candidates, fills, i);
      RestDoesNotCross(s, id, candidates, fills, i);
    }
  }

  /** Every step but an amendment keeps the book uncrossed. */
  lemma StepUncrossed(s: State, a: Action)
    requires Inv(s) && Uncrossed(s.orders) && !a.Amend?
    ensures Uncrossed(Apply(s, a).orders)
  {
    if Enabled(s, a) && ToMatch(s, a).Some? {
      var p, id := Prepared(s, a), ToMatch(s, a).value;
      PreparedKeeps(s, a);
      PreparedUncrossed(s, a, p, id);
      MatchUncrosses(p, id, CandidatesOf(a));
    } else if Enabled(s, a) {
      RowUncrossed(s, a, Apply(s, a));
    }
  }

  lemma PreparedUncrossed(s: State, a: Action, p: State, id: nat)
    requires Uncrossed(s.orders) && Guard(s, a) && p == Prepared(s, a) && ToMatch(s, a) == Some(id)
    ensures UncrossedBut(p.orders, id)
  {}

  lemma RowUncrossed(s: State, a: Action, t: State)
    requires Uncrossed(s.orders) && !a.Amend? && Enabled(s, a) && ToMatch(s, a).None? && t == Effect(s, a)
    ensures Uncrossed(t.orders)
  {}

  /** The amended price does not cross the other side of the book: what a caller can check in the
      table before amending. */
  ghost predicate AmendFits(s: State, a: Action)
    requires a.Amend? && a.id < |s.orders|
  {
    var o := s.orders[a.id];
    var total := if a.quantity.Some? then a.quantity.value else o.quantity;
    o.orderType.Limit? && a.limit.Some? && total > o.filled ==>
      forall j ::
        0 <= j < |s.orders| && j != a.id && OnBook(s.orders[j]) && s.orders[j].key == o.key
        && s.orders[j].side != o.side ==>
          if o.side.Buy? then a.limit.value < s.orders[j].limit.value else a.limit.value > s.orders[j].limit.value
  }

  /** An amendment is not matched again, so it keeps the book uncrossed exactly when its price
      fits. */
  lemma AmendUncrossed(s: State, a: Action)
    requires Inv(s) && Uncrossed(s.orders) && a.Amend? && Enabled(s, a)
    ensures Uncrossed(Apply(s, a).orders) <==> AmendFits(s, a)
  {
    var t := Apply(s, a);
    var o, p := s.orders[a.id], t.orders[a.id];
    assert forall j :: 0 <= j < |t.orders| && j != a.id ==> t.orders[j] == s.orders[j];
    if AmendFits(s, a) {
      forall i, j | 0 <= i < |t.orders| && 0 <= j < |t.orders| ensures !CrossedPair(t.orders[i], t.orders[j]) {
        assert i != a.id && j != a.id ==> !CrossedPair(s.orders[i], s.orders[j]);
      }
    } else {
      var j :| 0 <= j < |s.orders| && j != a.id && OnBook(s.orders[j]) && s.orders[j].key == o.key
          && s.orders[j].side != o.side
        && !(if o.side.Buy? then a.limit.value < s.orders[j].limit.value else a.limit.value > s.orders[j].limit.value);
      assert CrossedPair(p, t.orders[j]) || CrossedPair(t.orders[j], p);
    }
  }

  /** Over every run the book stays uncrossed as long as each amendment that goes through fits. */
  lemma {:induction false} RunUncrossed(s: State, acts: seq<Action>)
    requires Inv(s) && Uncrossed(s.orders)
    requires forall k :: 0 <= k < |acts| && acts[k].Amend? && Enabled(Run(s, acts[..k]), acts[k]) ==>
               AmendFits(Run(s, acts[..k]), acts[k])
    ensures Uncrossed(Run(s, acts).orders)
    decreases acts
  {
    if acts != [] {
      var t := Apply(s, acts[0]);
      assert acts[..0] == [] && Run(s, acts[..0]) == s;
      if acts[0].Amend? {
        if Enabled(s, acts[0]) { AmendUncrossed(s, acts[0]); }
      } else {
        StepUncrossed(s, acts[0]);
      }
      StepKeeps(s, acts[0]);
      forall k | 0 <= k < |acts[1..]| && acts[1..][k].Amend? && Enabled(Run(t, acts[1..][..k]), acts[1..][k])
        ensures AmendFits(Run(t, acts[1..][..k]), acts[1..][k])
      {
        assert acts[..k + 1][0] == acts[0] && acts[..k + 1][1..] == acts[1..][..k];
        assert Run(s, acts[..k + 1]) == Run(t, acts[1..][..k]);
        assert acts[k + 1] == acts[1..][k];
      }
      RunUncrossed(t, acts[1..]);
    }
  }

  // ----- without amendments, everything live is on the book -----

  ghost predicate Unamended(o: Order) {
    && (o.orderType.Limit? || o.orderType.StopLimit? ==> o.status.Rejected? || Positive(o.limit))
    && (IsLive(o.status) ==> o.remaining > 0.0)
  }

  lemma StepUnamended(s: State, a: Action)
    requires Inv(s) && !a.Amend? && forall j :: 0 <= j < |s.orders| ==> Unamended(s.orders[j])
    ensures forall j :: 0 <= j < |Apply(s, a).orders| ==> Unamended(Apply(s, a).orders[j])
  {
    if Enabled(s, a) {
      if ToMatch(s, a).Some? {
        var p, id := Prepared(s, a), ToMatch(s, a).value;
        PreparedKeeps(s, a);
        PreparedUnamended(s, a, p);
        forall j | 0 <= j < |p.orders| ensures Unamended(Apply(s, a).orders[j]) {
          MatchUnamended(p, id, CandidatesOf(a), j);
        }
      } else {
        RowUnamended(s, a, Apply(s, a));
      }
    }
  }

  lemma PreparedUnamended(s: State, a: Action, p: State)
    requires Inv(s) && Guard(s, a) && p == Prepared(s, a) && ToMatch(s, a).Some?
    requires forall j :: 0 <= j < |s.orders| ==> Unamended(s.orders[j])
    ensures forall j :: 0 <= j < |p.orders| ==> Unamended(p.orders[j])
  {}

  lemma RowUnamended(s: State, a: Action, t: State)
    requires Inv(s) && !a.Amend? && Enabled(s, a) && ToMatch(s, a).None? && t == Effect(s, a)
    requires forall j :: 0 <= j < |s.orders| ==> Unamended(s.orders[j])
    ensures forall j :: 0 <= j < |t.orders| ==> Unamended(t.orders[j])
  {}

  lemma MatchUnamended(s: State, id: nat, candidates: seq<nat>, j: nat)
    requires Inv(s) && id < |s.orders| && IsLive(s.orders[id].status) && Book(s.orders, id, candidates)
    requires j < |s.orders| && Unamended(s.orders[j])
    ensures Unamended(Matched(s, id, candidates).orders[j])
  {
    assert OrderOk(s.orders[id], id, s.executions) && OrderOk(s.orders[j], j, s.executions);
    var fills := MatchFactsHold(s, id, candidates);
    var killed := Killed(TakerOf(s.orders[id]), s.orders[id].remaining, MakersOf(s.orders, candidates));
    MatchChangeOk(s, id, candidates, fills, killed, Matched(s, id, candidates).executions, j);
  }

  lemma {:induction false} RunUnamended(s: State, acts: seq<Action>)
    requires Inv(s) && (forall k :: 0 <= k < |acts| ==> !acts[k].Amend?)
    requires forall j :: 0 <= j < |s.orders| ==> Unamended(s.orders[j])
    ensures forall j :: 0 <= j < |Run(s, acts).orders| ==> Unamended(Run(s, acts).orders[j])
    decreases acts
  {
    if acts != [] {
      StepUnamended(s, acts[0]);
      StepKeeps(s, acts[0]);
      RunUnamended(Apply(s, acts[0]), acts[1..]);
    }
  }

  /** In every state reached by submissions, risk decisions, cancellations, expiry and stop
      triggers, every live LIMIT bid of a tenant and symbol is below every live LIMIT ask. */
  lemma BookNeverCrossed(acts: seq<Action>, i: nat, j: nat)
    requires forall k :: 0 <= k < |acts| ==> !acts[k].Amend?
    requires var orders := Run(EMPTY, acts).orders;
             && i < |orders| && j < |orders| && orders[i].key == orders[j].key
             && orders[i].side.Buy? && orders[j].side.Sell?
             && orders[i].orderType.Limit? && orders[j].orderType.Limit?
             && IsLive(orders[i].status) && IsLive(orders[j].status)
    ensures var orders := Run(EMPTY, acts).orders;
            orders[i].limit.Some? && orders[j].limit.Some? && orders[i].limit.value < orders[j].limit.value
  {
    RunKeeps(EMPTY, acts);
    RunUncrossed(EMPTY, acts);
    RunUnamended(EMPTY, acts);
    var orders := Run(EMPTY, acts).orders;
    assert Unamended(orders[i]) && Unamended(orders[j]) && !CrossedPair(orders[i], orders[j]);
  }
}
