/** What each step of the order table writes, column by column, and when it can be taken. */
module OrderSteps {
  import opened Options
  import opened OrderTypes
  import opened Sequences
  import opened Selection
  import opened Sums
  import opened MatchingSpec
  import opened OrderModel
  import opened OrderInvariants
  import opened OrderTheorems
  import opened OrderBatches
  import R = RiskLimit

  /** The columns that an order keeps for good. */
  predicate SameOrigin(o: Order, p: Order) {
    && p.key == o.key && p.userID == o.userID && p.side == o.side && p.tif == o.tif && p.createdAt == o.createdAt
  }

  // ----- a match -----

  /** What rests for an incoming order. */
  lemma RestingExactlyWhen(orders: seq<Order>, id: nat, j: nat)
    requires id < |orders| && j < |orders|
    ensures Resting(orders, id, j) <==>
              && orders[j].key.tenant == orders[id].key.tenant && orders[j].key.symbol == orders[id].key.symbol
              && orders[j].side != orders[id].side && orders[j].orderType == OrderType.Limit
              && (orders[j].status == Accepted || orders[j].status == PartiallyFilled) && orders[j].remaining > 0.0
  {}

  /** What a match trades for a row, by the execution rows it adds. */
  function TradedBy(s: State, t: State, j: nat): real {
    FilledSum(t.executions, j) - FilledSum(s.executions, j)
  }

  /** A resting order that trades is filled or partially filled by what it has left; one that does
      not trade keeps quantities and status. */
  lemma MatchWritesMaker(s: State, id: nat, candidates: seq<nat>, j: nat)
    requires Inv(s) && id < |s.orders| && IsLive(s.orders[id].status) && j < |s.orders| && j != id
    requires Book(s.orders, id, candidates)
    ensures var o, t := s.orders[j], Matched(s, id, candidates);
            var p, traded := t.orders[j], TradedBy(s, t, j);
            && traded >= 0.0 && p.filled == o.filled + traded && p.remaining == o.remaining - traded
            && (traded > 0.0 ==>
                  p.version == o.version + 1 && p.status == if p.remaining == 0.0 then Filled else PartiallyFilled)
            && (traded == 0.0 ==> p.status == o.status)
            && (j !in candidates ==> p == o)
            && SameTerms(o, p)
  {
    assert OrderOk(s.orders[id], id, s.executions) && OrderOk(s.orders[j], j, s.executions);
    var fills := MatchFactsHold(s, id, candidates);
    var killed := Killed(TakerOf(s.orders[id]), s.orders[id].remaining, MakersOf(s.orders, candidates));
    var t := Matched(s, id, candidates);
    var c := ChangeOf(s.orders, id, candidates, fills, killed, j);
    MatchChangeOk(s, id, candidates, fills, killed, t.executions, j);
    if c.written { WrittenRests(s.orders, id, candidates, fills, killed, j); }
    ChangedMaker(s.orders[j], j, c, s.executions, t.executions);
    if j !in candidates { AbsentFill(candidates, fills, j); }
  }

  lemma WrittenRests(orders: seq<Order>, id: nat, candidates: seq<nat>, fills: seq<real>, killed: bool, j: nat)
    requires id < |orders| && Book(orders, id, candidates) && |fills| == |candidates| && j < |orders| && j != id
    requires ChangeOf(orders, id, candidates, fills, killed, j).written
    ensures orders[j].remaining > 0.0
  {
    var i :| 0 <= i < |candidates| && candidates[i] == j;
    assert Resting(orders, id, candidates[i]);
  }

  lemma ChangedMaker(o: Order, j: nat, c: Change, execs: seq<Execution>, more: seq<Execution>)
    requires OrderOk(o, j, execs) && ChangeOk(o, j, c, execs, more) && !c.cancelled
    requires c.written && c.qty == 0.0 ==> o.remaining > 0.0
    ensures var p, traded := Changed(o, j, c, more), FilledSum(more, j) - FilledSum(execs, j);
            && traded >= 0.0 && p.filled == o.filled + traded && p.remaining == o.remaining - traded
            && (traded > 0.0 ==>
                  p.version == o.version + 1 && p.status == if p.remaining == 0.0 then Filled else PartiallyFilled)
            && (traded == 0.0 ==> p.status == o.status) && SameTerms(o, p)
  {}

  /** What an incoming MARKET, IOC or FOK order has left is cancelled; any other keeps it.  Without
      a trade or a cancellation the row is not written. */
  lemma MatchWritesTaker(s: State, id: nat, candidates: seq<nat>)
    requires Inv(s) && id < |s.orders| && IsLive(s.orders[id].status) && Book(s.orders, id, candidates)
    ensures var o, t := s.orders[id], Matched(s, id, candidates);
            var p, traded := t.orders[id], TradedBy(s, t, id);
            var left := o.remaining - traded;
            var cancelled := left > 0.0 && (o.orderType.Market? || o.tif.IOC? || o.tif.FOK?);
            && traded >= 0.0 && left >= 0.0 && p.filled == o.filled + traded && SameTerms(o, p)
            && (cancelled ==> p.status.Cancelled? && p.remaining == 0.0 && p.version == o.version + 1)
            && (!cancelled && traded > 0.0 ==>
                  p.status == (if left == 0.0 then Filled else PartiallyFilled) && p.remaining == left
                  && p.version == o.version + 1)
            && (!cancelled && traded == 0.0 && o.remaining > 0.0 ==> p == o)
  {
    assert OrderOk(s.orders[id], id, s.executions);
    var fills := MatchFactsHold(s, id, candidates);
    var makers := MakersOf(s.orders, candidates);
    var killed := Killed(TakerOf(s.orders[id]), s.orders[id].remaining, makers);
    var t := Matched(s, id, candidates);
    MatchChangeOk(s, id, candidates, fills, killed, t.executions, id);
    SumZeros(Zeros(|makers|));
  }

  /** For an incoming order row i comes before row j: a better price, or the same and older. */
  predicate ComesBefore(side: Side, i: Order, j: Order) {
    && i.limit.Some? && j.limit.Some?
    && ((side == Buy && i.limit.value < j.limit.value) || (side == Sell && i.limit.value > j.limit.value)
        || (i.limit.value == j.limit.value && i.createdAt < j.createdAt))
  }

  /** Price, then time: a resting order trades only if those that come before it are filled. */
  lemma FirstComeFirstServed(s: State, id: nat, candidates: seq<nat>, i: nat, j: nat)
    requires Inv(s) && id < |s.orders| && IsLive(s.orders[id].status) && Book(s.orders, id, candidates)
    requires Resting(s.orders, id, i) && Resting(s.orders, id, j)
    requires ComesBefore(s.orders[id].side, s.orders[i], s.orders[j])
    requires TradedBy(s, Matched(s, id, candidates), j) > 0.0
    ensures Matched(s, id, candidates).orders[i].status.Filled?
    ensures Matched(s, id, candidates).orders[i].remaining == 0.0
  {
    assert OrderOk(s.orders[id], id, s.executions) && OrderOk(s.orders[i], i, s.executions);
    var t, makers := Matched(s, id, candidates), MakersOf(s.orders, candidates);
    var fills := MatchFactsHold(s, id, candidates);
    var a, b := PlacesOf(s.orders, id, candidates, i, j);
    var killed := Killed(TakerOf(s.orders[id]), s.orders[id].remaining, makers);
    MatchChangeOk(s, id, candidates, fills, killed, t.executions, i);
    MatchChangeOk(s, id, candidates, fills, killed, t.executions, j);
    FillOfMember(candidates, fills, a);
    FillOfMember(candidates, fills, b);
    forall k | 0 <= k < |makers| ensures makers[k].remaining >= 0.0 { assert Resting(s.orders, id, candidates[k]); }
    PriorityKept(TakerOf(s.orders[id]), s.orders[id].remaining, makers, a, b);
    MatchWritesMaker(s, id, candidates, i);
  }

  lemma PlacesOf(orders: seq<Order>, id: nat, candidates: seq<nat>, i: nat, j: nat) returns (a: nat, b: nat)
    requires id < |orders| && Book(orders, id, candidates) && Resting(orders, id, i) && Resting(orders, id, j)
    requires ComesBefore(orders[id].side, orders[i], orders[j])
    ensures a < b < |candidates| && candidates[a] == i && candidates[b] == j
  {
    a :| 0 <= a < |candidates| && candidates[a] == i;
    b :| 0 <= b < |candidates| && candidates[b] == j;
    var makers := MakersOf(orders, candidates);
    assert makers[a].price == orders[i].limit && makers[b].price == orders[j].limit;
  }

  /** The average price times the filled quantity is what the executions came to; there is no average
      without an execution. */
  lemma AverageExactly(acts: seq<Action>, j: nat)
    requires j < |Run(EMPTY, acts).orders|
    ensures var s := Run(EMPTY, acts);
            var o := s.orders[j];
            && (o.average.None? <==> o.filled == 0.0)
            && (o.average.Some? ==> o.average.value * o.filled == Notional(s.executions, j))
  {
    QuantitiesAccounted(acts, j);
  }

  /** What one more execution adds to what an order traded and what that came to. */
  lemma ExecutionCounts(execs: seq<Execution>, e: Execution, j: nat)
    ensures var counts := e.buyId == j || e.sellId == j;
            && FilledSum(execs + [e], j) == FilledSum(execs, j) + (if counts then e.quantity else 0.0)
            && Notional(execs + [e], j) == Notional(execs, j) + (if counts then e.quantity * e.price else 0.0)
    ensures FilledSum([], j) == Notional([], j) == 0.0
  {
    FilledConcat(execs, [e], j);
    OneCounted(e, j);
  }

  lemma OneCounted(e: Execution, j: nat)
    ensures FilledSum([e], j) == if e.buyId == j || e.sellId == j then e.quantity else 0.0
    ensures Notional([e], j) == if e.buyId == j || e.sellId == j then e.quantity * e.price else 0.0
  {
    assert [e][1..] == [];
  }

  /** The transition table, pair by pair. */
  lemma AllowedExactly(from: Status, to: Status)
    ensures Allowed(from, to) <==>
              (from, to) in {
                (Created, Validated), (Created, Rejected), (Created, RiskRejected),
                (Validated, RiskPending), (Validated, Accepted), (Validated, Rejected), (Validated, RiskRejected),
                (RiskPending, Accepted), (RiskPending, RiskRejected), (RiskPending, RiskError), (RiskPending, Rejected),
                (Accepted, PartiallyFilled), (Accepted, Filled), (Accepted, Cancelled), (Accepted, Expired),
                (PartiallyFilled, Filled), (PartiallyFilled, Cancelled), (PartiallyFilled, Expired)}
    ensures IsTerminal(from) <==> from in {Filled, Cancelled, Rejected, RiskRejected, RiskError, Expired}
  {}

  // ----- submission -----

  /** What is wrong with a request. */
  predicate Flawed(r: Request, now: int) {
    || r.key.symbol == "" || r.quantity <= 0.0
    || ((r.orderType.Limit? || r.orderType.StopLimit?) && (r.limit.None? || r.limit.value <= 0.0))
    || ((r.orderType.Stop? || r.orderType.StopLoss? || r.orderType.StopLimit?)
        && (r.stop.None? || r.stop.value <= 0.0))
    || (r.tif.GTD? && (r.expiresAt.None? || r.expiresAt.value <= now))
    || (!r.tif.GTD? && r.expiresAt.Some?)
  }

  /** A submission adds one row.  A flawed one is rejected; with the risk check on, any other waits
      for its decision; without, it is accepted and matched at once. */
  lemma SubmitWrites(s: State, a: Action)
    requires Inv(s) && a.Submit? && Enabled(s, a)
    ensures var t, r, id := Apply(s, a), a.request, |s.orders|;
            && |t.orders| == |s.orders| + 1
            && var p := t.orders[id];
               && p.key == r.key && p.userID == r.userID && p.side == r.side && p.orderType == r.orderType
               && p.tif == r.tif && p.quantity == r.quantity && p.limit == r.limit && p.stop == r.stop
               && p.createdAt == a.now && !p.triggered
               && p.expiresAt == (if !Flawed(r, a.now) && r.tif.Day? then Some(a.dayExpiry) else r.expiresAt)
               && (p.status.Rejected? <==> Flawed(r, a.now))
               && (p.status.RiskPending? <==> !Flawed(r, a.now) && a.riskEnabled)
               && (Flawed(r, a.now) || a.riskEnabled ==>
                     p.version == 1 && p.filled == 0.0 && p.remaining == r.quantity && p.average.None?
                     && t.executions == s.executions && t.orders[..id] == s.orders)
  {
    var r, p := a.request, Prepared(s, a);
    assert ValidRequest(r, a.now) <==> !Flawed(r, a.now);
    if ToMatch(s, a).Some? {
      PreparedKeeps(s, a);
      MatchKeeps(p, |s.orders|, a.candidates);
      MatchMoves(p, |s.orders|, a.candidates, |s.orders|);
    }
  }

  // ----- the risk decision -----

  /** A rejected order and one without a usable answer end differently, and nothing else about them
      changes; an approved one is accepted and matched. */
  lemma DecideWrites(s: State, id: nat, decision: Decision, candidates: seq<nat>)
    requires Inv(s) && Enabled(s, Decide(id, decision, candidates))
    ensures s.orders[id].status.RiskPending?
    ensures var o, t := s.orders[id], Apply(s, Decide(id, decision, candidates));
            && |t.orders| == |s.orders|
            && (t.orders[id].status.RiskRejected? <==> decision.Reject?)
            && (t.orders[id].status.RiskError? <==> decision.Unavailable?)
            && (decision.Approve? <==> t.orders[id].status in {Accepted, PartiallyFilled, Filled, Cancelled})
            && (!decision.Approve? ==>
                  && t.orders[id] == o.(status := t.orders[id].status, version := o.version + 1)
                  && t.executions == s.executions
                  && forall j :: 0 <= j < |s.orders| && j != id ==> t.orders[j] == s.orders[j])
  {
    var a := Decide(id, decision, candidates);
    if decision.Approve? {
      PreparedKeeps(s, a);
      MatchMoves(Prepared(s, a), id, candidates, id);
      MatchKeeps(Prepared(s, a), id, candidates);
    }
  }

  /** How the service passes a verdict on. */
  function DecisionFor(v: R.Verdict): Decision {
    match v
    case Approved => Approve
    case Rejected => Reject
    case Unavailable => Decision.Unavailable
    case InvalidResponse => Decision.Unavailable
  }

  /** The order ends as the evaluation went: rejected by the engine, in error for want of a usable
      answer, or accepted. */
  lemma VerdictWrites(s: State, id: nat, candidates: seq<nat>, c: R.Config, committed: seq<R.Decision>, o: R.Order,
                      answer: R.Answer, now: int)
    requires Inv(s)
    requires Enabled(s, Decide(id, DecisionFor(R.Evaluation(c, committed, o, answer, now).verdict), candidates))
    ensures var v := R.Evaluation(c, committed, o, answer, now).verdict;
            var t := Apply(s, Decide(id, DecisionFor(v), candidates));
            && |t.orders| == |s.orders|
            && (v == R.Rejected <==> t.orders[id].status.RiskRejected?)
            && (v == R.Unavailable || v == R.InvalidResponse <==> t.orders[id].status.RiskError?)
            && (v == R.Approved <==> t.orders[id].status in {Accepted, PartiallyFilled, Filled, Cancelled})
  {
    DecideWrites(s, id, DecisionFor(R.Evaluation(c, committed, o, answer, now).verdict), candidates);
  }

  // ----- cancel and amend -----

  lemma CancelWrites(s: State, id: nat)
    requires Enabled(s, Cancel(id))
    ensures var o, t := s.orders[id], Apply(s, Cancel(id));
            && (o.status == Accepted || o.status == PartiallyFilled)
            && t.orders[id] == o.(status := Cancelled, remaining := 0.0, version := o.version + 1)
            && OnlyRow(s.orders, t.orders, id) && t.executions == s.executions
  {}

  /** Prices and expiry are replaced even by nothing, the quantity only if one is given. */
  lemma AmendWrites(s: State, a: Action)
    requires a.Amend?
    ensures Enabled(s, a) <==>
              && a.id < |s.orders| && (s.orders[a.id].status == Accepted || s.orders[a.id].status == PartiallyFilled)
              && s.orders[a.id].version == a.expectedVersion
              && (a.quantity.None? || (a.quantity.value > 0.0 && s.orders[a.id].filled <= a.quantity.value))
    ensures Enabled(s, a) ==>
              var o, t := s.orders[a.id], Apply(s, a);
              && |t.orders| == |s.orders|
              && var p := t.orders[a.id];
                 && SameOrigin(o, p) && p.orderType == o.orderType && p.status == o.status && p.filled == o.filled
                 && p.average == o.average && p.triggered == o.triggered && p.version == o.version + 1
                 && p.limit == a.limit && p.stop == a.stop && p.expiresAt == a.expiresAt
                 && p.remaining == p.quantity - p.filled
                 && (a.quantity.Some? ==> p.quantity == a.quantity.value)
                 && (a.quantity.None? ==> p.quantity == o.quantity)
                 && OnlyRow(s.orders, t.orders, a.id) && t.executions == s.executions
  {}

  // ----- expiry -----

  /** A DAY or GTD order on the book whose time has come. */
  predicate IsOverdue(o: Order, now: int) {
    && (o.status == Accepted || o.status == PartiallyFilled) && (o.tif == Day || o.tif == GTD)
    && o.remaining > 0.0 && o.expiresAt.Some? && o.expiresAt.value <= now
  }

  lemma ExpireWrites(s: State, id: nat, now: int)
    ensures Enabled(s, Expire(id, now)) <==> id < |s.orders| && IsOverdue(s.orders[id], now)
    ensures Enabled(s, Expire(id, now)) ==>
              var o, t := s.orders[id], Apply(s, Expire(id, now));
              && OnlyRow(s.orders, t.orders, id) && t.executions == s.executions
              && t.orders[id] == o.(status := Expired, version := o.version + 1)
  {}

  /** The columns an expiry depends on stay until somebody amends, trades or ends the order. */
  lemma StepKeepsExpiry(s: State, a: Action, j: nat)
    requires Inv(s) && j < |s.orders| && IsLive(s.orders[j].status) && !(a.Amend? && a.id == j)
    ensures var o, t := s.orders[j], Apply(s, a);
            j < |t.orders| && t.orders[j].tif == o.tif && t.orders[j].expiresAt == o.expiresAt
  {
    if Enabled(s, a) && ToMatch(s, a).Some? {
      PreparedKeeps(s, a);
      MatchKeeps(Prepared(s, a), ToMatch(s, a).value, CandidatesOf(a));
    }
  }

  /** A DAY or GTD order that is not amended can be expired from its time on for as long as it is on
      the book with something left. */
  lemma {:induction false} CanExpireFromItsTime(s: State, acts: seq<Action>, j: nat, now: int)
    requires Inv(s) && j < |s.orders| && IsLive(s.orders[j].status) && (s.orders[j].tif.Day? || s.orders[j].tif.GTD?)
    requires s.orders[j].expiresAt.Some? && forall k :: 0 <= k < |acts| ==> !(acts[k].Amend? && acts[k].id == j)
    ensures var t := Run(s, acts);
            && j < |t.orders|
            && (IsLive(t.orders[j].status) && t.orders[j].remaining > 0.0 ==>
                  (Enabled(t, Expire(j, now)) <==> s.orders[j].expiresAt.value <= now))
    decreases acts
  {
    if acts != [] {
      var t := Apply(s, acts[0]);
      StepKeeps(s, acts[0]);
      StepKeepsExpiry(s, acts[0], j);
      StepMoves(s, acts[0], j);
      if IsLive(t.orders[j].status) {
        CanExpireFromItsTime(t, acts[1..], j, now);
      } else {
        LeftTheBook(s.orders[j], t.orders[j]);
        TerminalForever(t, acts[1..], j);
      }
    }
  }

  /** From the book an order goes nowhere but to its end. */
  lemma LeftTheBook(o: Order, p: Order)
    requires IsLive(o.status) && Moves(o, p) && !IsLive(p.status)
    ensures IsTerminal(p.status)
  {}

  /** What one batch of the expiry worker does: the rows it selects are overdue and expire, nothing
      else changes, and if it leaves an overdue row that nobody holds locked, it is full of rows that
      were due before that one. */
  ghost predicate BatchExpires(was: seq<Order>, now: seq<Order>, at: int, skip: set<nat>, limit: nat, due: seq<nat>) {
    && |now| == |was| && |due| <= limit
    && (forall j :: 0 <= j < |was| && j in due ==>
          && j !in skip && IsOverdue(was[j], at)
          && now[j] == was[j].(status := Expired, version := was[j].version + 1))
    && (forall j :: 0 <= j < |was| && j !in due ==>
          && now[j] == was[j]
          && (j !in skip && IsOverdue(was[j], at) ==> |due| == limit && AllBefore(was, due, j)))
  }

  ghost predicate AllBefore(orders: seq<Order>, due: seq<nat>, j: nat)
    requires j < |orders|
  {
    forall q <- due :: q < |orders| && orders[q].expiresAt.Some? && orders[j].expiresAt.Some?
                       && (orders[q].expiresAt.value < orders[j].expiresAt.value
                           || (orders[q].expiresAt == orders[j].expiresAt && q < j))
  }

  lemma DueIsOverdue(orders: seq<Order>, now: int, skip: set<nat>, j: nat)
    ensures Due(orders, now, skip)(j) <==> j < |orders| && j !in skip && IsOverdue(orders[j], now)
  {
    ExpireWrites(State(orders, []), j, now);
  }

  lemma NextDue(due: seq<nat>, n: nat)
    requires NoDuplicates(due) && 0 < n <= |due|
    ensures due[n - 1] !in due[..n - 1]
    ensures forall j :: j in due[..n] <==> j in due[..n - 1] || j == due[n - 1]
  {
    assert due[..n] == due[..n - 1] + [due[n - 1]];
  }

  /** Expiring different overdue rows one after the other expires each of them. */
  lemma {:induction false} ExpiriesExpire(s: State, due: seq<nat>, n: nat, now: int)
    requires NoDuplicates(due) && n <= |due| && forall i :: 0 <= i < |due| ==> due[i] < |s.orders|
    requires forall i :: 0 <= i < |due| ==> IsOverdue(s.orders[due[i]], now)
    ensures var t := Run(s, Expiries(due[..n], now));
            && |t.orders| == |s.orders|
            && forall j :: 0 <= j < |s.orders| ==>
                 var o := s.orders[j];
                 t.orders[j] == if j in due[..n] then o.(status := Expired, version := o.version + 1) else o
  {
    if n > 0 {
      ExpiriesExpire(s, due, n - 1, now);
      OneMoreExpiry(s, due, n - 1, now);
      ExpireWrites(Run(s, Expiries(due[..n - 1], now)), due[n - 1], now);
      NextDue(due, n);
    }
  }

  lemma ExpiryBatch(s: State, now: int, skip: set<nat>, limit: nat, due: seq<nat>)
    requires Selected(Due(s.orders, now, skip), ExpiryTime(s.orders), limit, due)
    ensures BatchExpires(s.orders, Run(s, Expiries(due, now)).orders, now, skip, limit, due)
  {
    forall i | 0 <= i < |due| ensures due[i] < |s.orders| && due[i] !in skip && IsOverdue(s.orders[due[i]], now) {
      assert Due(s.orders, now, skip)(due[i]);
      DueIsOverdue(s.orders, now, skip, due[i]);
    }
    DueRows(s.orders, now, skip, due);
    assert due[..|due|] == due;
    ExpiriesExpire(s, due, |due|, now);
    forall j | 0 <= j < |s.orders| && j !in due && j !in skip && IsOverdue(s.orders[j], now)
      ensures |due| == limit && AllBefore(s.orders, due, j)
    {
      DueIsOverdue(s.orders, now, skip, j);
      forall q | q in due
        ensures q < |s.orders| && IsOverdue(s.orders[q], now) && Precedes(ExpiryTime(s.orders), q, j)
      {
        var i :| 0 <= i < |due| && due[i] == q;
        assert Precedes(ExpiryTime(s.orders), due[i], j);
      }
    }
  }

  // ----- stop triggers -----

  /** The reference price has reached the stop price: from below for a buyer, from above for a
      seller. */
  predicate HasReached(o: Order, price: real) {
    && o.stop.Some? && o.stop.value > 0.0 && price > 0.0
    && ((o.side == Buy && o.stop.value <= price) || (o.side == Sell && price <= o.stop.value))
  }

  /** A stop order can be triggered exactly when it is on the book, not triggered before, has
      something left and its price is reached. */
  lemma TriggerExactlyWhen(s: State, id: nat, price: real, candidates: seq<nat>)
    ensures Guard(s, Trigger(id, price, candidates)) <==>
              && id < |s.orders| && (s.orders[id].status == Accepted || s.orders[id].status == PartiallyFilled)
              && (s.orders[id].orderType == OrderType.Stop || s.orders[id].orderType == OrderType.StopLimit)
              && s.orders[id].remaining > 0.0 && !s.orders[id].triggered && HasReached(s.orders[id], price)
  {}

  /** A triggered STOP order becomes a MARKET order, a STOP_LIMIT order a LIMIT order with its limit;
      then it is matched. */
  lemma TriggerWrites(s: State, id: nat, price: real, candidates: seq<nat>)
    requires Inv(s) && Enabled(s, Trigger(id, price, candidates))
    ensures var o, t := s.orders[id], Apply(s, Trigger(id, price, candidates));
            && |t.orders| == |s.orders|
            && var p := t.orders[id];
               && p.triggered && SameOrigin(o, p) && p.quantity == o.quantity && p.limit == o.limit && p.stop == o.stop
               && p.expiresAt == o.expiresAt && p.version > o.version
               && (o.orderType == OrderType.Stop ==> p.orderType == Market)
               && (o.orderType == OrderType.StopLimit ==> p.orderType == OrderType.Limit)
               && (p.orderType == Market ==> p.status in {Filled, Cancelled} || p.remaining == 0.0)
  {
    var a := Trigger(id, price, candidates);
    var p := Prepared(s, a);
    PreparedKeeps(s, a);
    MatchKeeps(p, id, candidates);
    MatchMoves(p, id, candidates, id);
    MatchWritesTaker(p, id, candidates);
  }

  /** A stop order that waits, and its symbol has a price no older than that. */
  predicate IsTriggerable(o: Order, prices: map<Key, ReferencePrice>, since: int) {
    && (o.orderType == OrderType.Stop || o.orderType == OrderType.StopLimit) && o.stop.Some? && !o.triggered
    && o.remaining > 0.0 && (o.status == Accepted || o.status == PartiallyFilled)
    && o.key in prices && prices[o.key].updatedAt >= since
  }

  /** What the trigger worker reads: only rows that wait for a price and have one, each as it stands,
      and if it leaves such a row that nobody holds locked, a full batch of rows placed before it. */
  ghost predicate ReadsWaiting(orders: seq<Order>, prices: map<Key, ReferencePrice>, since: int, skip: set<nat>,
                               limit: nat, due: seq<TriggerCandidate>) {
    && |due| <= limit
    && (forall i :: 0 <= i < |due| ==>
          && due[i].id < |orders| && due[i].id !in skip && IsTriggerable(orders[due[i].id], prices, since)
          && due[i].side == orders[due[i].id].side && due[i].originalType == orders[due[i].id].orderType
          && Some(due[i].stop) == orders[due[i].id].stop && due[i].reference == prices[orders[due[i].id].key].price)
    && (forall i, j :: 0 <= i < j < |due| ==> due[i].id != due[j].id)
    && (forall r :: 0 <= r < |orders| && r !in skip && IsTriggerable(orders[r], prices, since) ==>
          (exists i :: 0 <= i < |due| && due[i].id == r)
          || (|due| == limit && forall i :: 0 <= i < |due| ==> PlacedBefore(orders, due[i].id, r)))
  }

  predicate PlacedBefore(orders: seq<Order>, q: nat, r: nat) {
    && q < |orders| && r < |orders|
    && (orders[q].createdAt < orders[r].createdAt || (orders[q].createdAt == orders[r].createdAt && q < r))
  }

  lemma WaitingIsTriggerable(orders: seq<Order>, prices: map<Key, ReferencePrice>, since: int, skip: set<nat>, r: nat)
    ensures Waiting(orders, prices, since, skip)(r) <==>
              r < |orders| && r !in skip && IsTriggerable(orders[r], prices, since)
  {}

  lemma LoadedIsRead(orders: seq<Order>, prices: map<Key, ReferencePrice>, since: int, skip: set<nat>, limit: nat,
                     due: seq<TriggerCandidate>)
    requires Selected(Waiting(orders, prices, since, skip), PlacedAt(orders), limit, IdsIn(due))
    requires forall i :: 0 <= i < |due| ==> ReadFrom(due[i], orders, prices)
    ensures ReadsWaiting(orders, prices, since, skip, limit, due)
  {
    var ids := IdsIn(due);
    forall i | 0 <= i < |due|
      ensures due[i].id < |orders| && due[i].id !in skip && IsTriggerable(orders[due[i].id], prices, since)
    {
      assert Waiting(orders, prices, since, skip)(ids[i]);
      WaitingIsTriggerable(orders, prices, since, skip, ids[i]);
    }
    forall i, j | 0 <= i < j < |due| ensures due[i].id != due[j].id {
      assert Precedes(PlacedAt(orders), ids[i], ids[j]);
    }
    forall r | 0 <= r < |orders| && r !in skip && IsTriggerable(orders[r], prices, since)
      ensures (exists i :: 0 <= i < |due| && due[i].id == r)
              || (|due| == limit && forall i :: 0 <= i < |due| ==> PlacedBefore(orders, due[i].id, r))
    {
      WaitingIsTriggerable(orders, prices, since, skip, r);
      if r in ids {
        var i :| 0 <= i < |ids| && ids[i] == r;
      } else {
        forall i | 0 <= i < |due| ensures PlacedBefore(orders, due[i].id, r) {
          assert Precedes(PlacedAt(orders), ids[i], r);
        }
      }
    }
  }

  // ----- what the workers count -----

  lemma {:induction false} ExpiredCounted(orders: seq<Order>, o: Order)
    ensures CountExpired([]) == 0
    ensures CountExpired(orders + [o]) == CountExpired(orders) + if o.status == Expired then 1 else 0
  {
    if orders == [] {
      assert orders + [o] == [o] && [o][1..] == [];
    } else {
      assert (orders + [o])[0] == orders[0] && (orders + [o])[1..] == orders[1..] + [o];
      ExpiredCounted(orders[1..], o);
    }
  }

  /** A candidate counts as triggered when its price has reached its stop. */
  lemma TriggersCounted(due: seq<TriggerCandidate>, c: TriggerCandidate)
    ensures CountTriggers([]) == 0
    ensures var reached :=
              && c.stop > 0.0 && c.reference > 0.0
              && (c.originalType == OrderType.Stop || c.originalType == OrderType.StopLimit)
              && ((c.side == Buy && c.stop <= c.reference) || (c.side == Sell && c.reference <= c.stop));
            CountTriggers(due + [c]) == CountTriggers(due) + if reached then 1 else 0
  {
    assert (due + [c])[..|due + [c]| - 1] == due;
  }
}
