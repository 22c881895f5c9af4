/** What amendments do to the book and to expiry, with runs in which they do it. */
module OrderAmendments {
  import opened Options
  import opened OrderTypes
  import opened Sums
  import opened MatchingSpec
  import opened OrderModel
  import opened OrderInvariants
  import opened OrderTheorems
  import opened OrderLiveness

  // ----- two resting orders, and an amendment -----

  ghost const KEY := Key("tenant", "ACME")

  ghost function Quote(side: Side, price: real): Request {
    Request(KEY, "user", side, OrderType.Limit, GTC, 10.0, Some(price), None, None)
  }

  ghost function Placed(side: Side, price: real): Order {
    NewOrder(Quote(side, price), Accepted, None, 0)
  }

  ghost function Place(side: Side, price: real, candidates: seq<nat>): Action {
    Submit(Quote(side, price), false, 0, 0, candidates)
  }

  lemma RunThree(s: State, a: Action, b: Action, d: Action)
    ensures Run(s, [a, b, d]) == Apply(Apply(Apply(s, a), b), d)
  {
    assert [a, b, d][1..] == [b, d] && [b, d][1..] == [d] && [d][1..] == [];
    assert Run(Apply(s, a), [b, d]) == Run(Apply(Apply(s, a), b), [d]);
    assert Run(Apply(Apply(s, a), b), [d]) == Run(Apply(Apply(Apply(s, a), b), d), []);
  }

  /** A limit order that crosses nothing rests as it is. */
  lemma RestsUntouched(s: State, id: nat, candidates: seq<nat>)
    requires id < |s.orders| && Book(s.orders, id, candidates)
    requires s.orders[id].orderType.Limit? && !s.orders[id].tif.IOC? && !s.orders[id].tif.FOK?
    requires candidates != [] ==> !Crosses(TakerOf(s.orders[id]), s.orders[candidates[0]].limit)
    ensures Commits(s.orders, id, candidates) && Matched(s, id, candidates) == s
  {
    var makers := MakersOf(s.orders, candidates);
    var fills := Fills(TakerOf(s.orders[id]), s.orders[id].remaining, makers);
    assert fills == Zeros(|candidates|);
    SumZeros(fills);
    NoRows(s.orders, id, candidates, fills);
    assert s.executions + [] == s.executions;
    forall j | 0 <= j < |s.orders| ensures Matched(s, id, candidates).orders[j] == s.orders[j] {
      NoFill(candidates, fills, j);
    }
  }

  lemma {:induction false} NoRows(orders: seq<Order>, id: nat, candidates: seq<nat>, fills: seq<real>)
    requires id < |orders| && |candidates| == |fills|
    requires forall i :: 0 <= i < |candidates| ==> candidates[i] < |orders| && fills[i] == 0.0
    ensures ExecutionsOf(orders, id, candidates, fills) == []
    decreases candidates
  {
    if candidates != [] { NoRows(orders, id, candidates[1..], fills[1..]); }
  }

  lemma {:induction false} NoFill(candidates: seq<nat>, fills: seq<real>, j: nat)
    requires |candidates| == |fills| && forall i :: 0 <= i < |fills| ==> fills[i] == 0.0
    ensures FillOf(candidates, fills, j) == 0.0
  {
    if candidates != [] { NoFill(candidates[1..], fills[1..], j); }
  }

  /** A step whose match leaves everything as it was prepared. */
  lemma PreparedRests(s: State, a: Action, p: State, id: nat)
    requires Guard(s, a) && Prepared(s, a) == p && ToMatch(s, a) == Some(id) && id < |p.orders|
    requires Book(p.orders, id, CandidatesOf(a))
    requires p.orders[id].orderType.Limit? && !p.orders[id].tif.IOC? && !p.orders[id].tif.FOK?
    requires CandidatesOf(a) != [] ==> !Crosses(TakerOf(p.orders[id]), p.orders[CandidatesOf(a)[0]].limit)
    ensures Apply(s, a) == p
  {
    RestsUntouched(p, id, CandidatesOf(a));
  }

  /** The first order rests alone. */
  lemma FirstPlaced(r: Request, dayExpiry: int, o: Order)
    requires ValidRequest(r, 0) && r.orderType.Limit? && !r.tif.IOC? && !r.tif.FOK?
    requires o == NewOrder(r, Accepted, if r.tif.Day? then Some(dayExpiry) else r.expiresAt, 0)
    ensures Apply(EMPTY, Submit(r, false, dayExpiry, 0, [])) == State([o], [])
  {
    var a := Submit(r, false, dayExpiry, 0, []);
    assert Prepared(EMPTY, a).orders == [o];
    assert Book([o], 0, []);
    PreparedRests(EMPTY, a, State([o], []), 0);
  }

  /** A second one does not trade with it. */
  lemma SecondPlaced(first: Order, side: Side, price: real, candidates: seq<nat>)
    requires price > 0.0 && first.key == KEY && first.orderType.Limit? && first.status.Accepted?
    requires first.remaining > 0.0 && first.limit.Some?
    requires candidates == if first.side == side then [] else [0]
    requires first.side != side ==> !Crosses(TakerOf(Placed(side, price)), first.limit)
    ensures Apply(State([first], []), Place(side, price, candidates)) == State([first, Placed(side, price)], [])
  {
    var p := State([first, Placed(side, price)], []);
    assert Prepared(State([first], []), Place(side, price, candidates)) == p;
    assert Book(p.orders, 1, candidates);
    PreparedRests(State([first], []), Place(side, price, candidates), p, 1);
  }

  /** Nothing of the first order has been filled, and its price and time are amended. */
  lemma FirstAmended(s: State, limit: Option<real>)
    requires |s.orders| > 0 && s.orders[0].status.Accepted? && s.orders[0].version == 1
    requires s.orders[0].filled == 0.0 && s.orders[0].quantity == s.orders[0].remaining
    ensures Enabled(s, Amend(0, 1, None, limit, None, None))
    ensures Apply(s, Amend(0, 1, None, limit, None, None))
         == s.(orders := s.orders[0 := s.orders[0].(limit := limit, stop := None, expiresAt := None, version := 2)])
  {}

  /** The bid of five is raised above the ask of seven, and the book stays crossed. */
  lemma AmendmentCrosses()
    ensures var acts := [Place(Buy, 5.0, []), Place(Sell, 7.0, [0]), Amend(0, 1, None, Some(8.0), None, None)];
            !Uncrossed(Run(EMPTY, acts).orders)
  {
    var s := State([Placed(Buy, 5.0), Placed(Sell, 7.0)], []);
    FirstPlaced(Quote(Buy, 5.0), 0, Placed(Buy, 5.0));
    SecondPlaced(Placed(Buy, 5.0), Sell, 7.0, [0]);
    FirstAmended(s, Some(8.0));
    RunThree(EMPTY, Place(Buy, 5.0, []), Place(Sell, 7.0, [0]), Amend(0, 1, None, Some(8.0), None, None));
    var orders := Apply(s, Amend(0, 1, None, Some(8.0), None, None)).orders;
    assert CrossedPair(orders[0], orders[1]);
  }

  ghost const UNPRICE := [Place(Sell, 7.0, []), Place(Sell, 8.0, []), Amend(0, 1, None, None, None, None)]

  ghost const UNPRICED := State([Placed(Sell, 7.0).(limit := None, version := 2), Placed(Sell, 8.0)], [])

  ghost const ASKS := State([Placed(Sell, 7.0), Placed(Sell, 8.0)], [])

  lemma AsksPlaced()
    ensures Apply(Apply(EMPTY, Place(Sell, 7.0, [])), Place(Sell, 8.0, [])) == ASKS
  {
    FirstPlaced(Quote(Sell, 7.0), 0, Placed(Sell, 7.0));
    SecondPlaced(Placed(Sell, 7.0), Sell, 8.0, []);
  }

  lemma AsksAmended()
    ensures Apply(ASKS, Amend(0, 1, None, None, None, None)) == UNPRICED
  {
    FirstAmended(ASKS, None);
    assert ASKS.orders[0].(limit := None, stop := None, expiresAt := None, version := 2) == UNPRICED.orders[0];
    assert ASKS.orders[0 := UNPRICED.orders[0]] == UNPRICED.orders;
  }

  lemma UnpricedReached()
    ensures Run(EMPTY, UNPRICE) == UNPRICED
  {
    AsksPlaced();
    AsksAmended();
    RunThree(EMPTY, Place(Sell, 7.0, []), Place(Sell, 8.0, []), Amend(0, 1, None, None, None, None));
  }

  lemma UnpricedStopsBuyer(s: State, price: real, candidates: seq<nat>)
    requires |s.orders| == 2 && s.orders[0].limit.None? && price > 0.0
    requires forall j :: 0 <= j < 2 ==>
               && s.orders[j].key == KEY && s.orders[j].side.Sell? && s.orders[j].status.Accepted?
               && s.orders[j].remaining > 0.0 && s.orders[j].orderType.Limit?
    ensures !Enabled(s, Place(Buy, price, candidates))
  {
    var a := Place(Buy, price, candidates);
    var orders := Prepared(s, a).orders;
    assert orders == s.orders + [Placed(Buy, price)] && ToMatch(s, a) == Some(2);
    assert Resting(orders, 2, 0) && Resting(orders, 2, 1);
    MatchableExactlyWhen(orders, 2);
  }

  /** One of two asks loses its price, and after that no buyer's order can be placed, however the
      book is ranked. */
  lemma AmendmentStopsMatching(price: real, candidates: seq<nat>)
    requires price > 0.0
    ensures !Enabled(Run(EMPTY, UNPRICE), Place(Buy, price, candidates))
  {
    UnpricedReached();
    UnpricedStopsBuyer(UNPRICED, price, candidates);
  }

  // ----- expiry -----

  /** An order that expires by its time in force has a time to expire at, from the moment it waits
      for its risk decision until it is finished. */
  ghost predicate WillExpire(o: Order) {
    (IsLive(o.status) || o.status.RiskPending?) && (o.tif.Day? || o.tif.GTD?) ==> o.expiresAt.Some?
  }

  ghost predicate AllWillExpire(orders: seq<Order>) {
    forall j :: 0 <= j < |orders| ==> WillExpire(orders[j])
  }

  lemma PreparedWillExpire(s: State, a: Action)
    requires Guard(s, a) && (a.Submit? || a.Decide? || a.Trigger?) && AllWillExpire(s.orders)
    ensures AllWillExpire(Prepared(s, a).orders)
  {}

  lemma MatchWillExpire(s: State, id: nat, candidates: seq<nat>)
    requires Inv(s) && id < |s.orders| && IsLive(s.orders[id].status)
    requires Book(s.orders, id, candidates) && Commits(s.orders, id, candidates) && AllWillExpire(s.orders)
    ensures AllWillExpire(Matched(s, id, candidates).orders)
  {
    MatchKeeps(s, id, candidates);
    var t := Matched(s, id, candidates);
    forall j | 0 <= j < |t.orders| ensures WillExpire(t.orders[j]) {
      assert SameTerms(s.orders[j], t.orders[j]) && WillExpire(s.orders[j]);
      MatchMoves(s, id, candidates, j);
    }
  }

  lemma StepWillExpire(s: State, a: Action)
    requires Inv(s) && AllWillExpire(s.orders) && !a.Amend?
    ensures AllWillExpire(Apply(s, a).orders)
  {
    if Enabled(s, a) {
      if ToMatch(s, a).Some? {
        PreparedKeeps(s, a);
        PreparedWillExpire(s, a);
        MatchWillExpire(Prepared(s, a), ToMatch(s, a).value, CandidatesOf(a));
      } else if !a.Cancel? && !a.Expire? {
        PreparedWillExpire(s, a);
      }
    }
  }

  /** An amendment keeps it exactly when it gives a time, or the order does not expire anyway. */
  lemma AmendWillExpire(s: State, a: Action)
    requires AllWillExpire(s.orders) && a.Amend? && Enabled(s, a)
    ensures AllWillExpire(Apply(s, a).orders) <==>
              a.expiresAt.Some? || (!s.orders[a.id].tif.Day? && !s.orders[a.id].tif.GTD?)
  {
    var t := Apply(s, a);
    assert forall j :: 0 <= j < |s.orders| && j != a.id ==> t.orders[j] == s.orders[j];
    assert WillExpire(t.orders[a.id]) <==> a.expiresAt.Some? || (!s.orders[a.id].tif.Day? && !s.orders[a.id].tif.GTD?);
  }

  /** In every state reached from the empty table, each live DAY or GTD order has a time to expire
      at, as long as every amendment that goes through to such an order gives it one. */
  lemma {:induction false} RunWillExpire(s: State, acts: seq<Action>)
    requires Inv(s) && AllWillExpire(s.orders)
    requires forall k :: 0 <= k < |acts| && acts[k].Amend? && Enabled(Run(s, acts[..k]), acts[k]) ==>
               acts[k].expiresAt.Some?
               || (!Run(s, acts[..k]).orders[acts[k].id].tif.Day? && !Run(s, acts[..k]).orders[acts[k].id].tif.GTD?)
    ensures AllWillExpire(Run(s, acts).orders)
    decreases acts
  {
    if acts != [] {
      var t := Apply(s, acts[0]);
      assert acts[..0] == [] && Run(s, acts[..0]) == s;
      if acts[0].Amend? {
        if Enabled(s, acts[0]) { AmendWillExpire(s, acts[0]); }
      } else {
        StepWillExpire(s, acts[0]);
      }
      StepKeeps(s, acts[0]);
      forall k | 0 <= k < |acts[1..]|
        ensures acts[..k + 1][0] == acts[0] && acts[..k + 1][1..] == acts[1..][..k]
        ensures Run(s, acts[..k + 1]) == Run(t, acts[1..][..k]) && acts[k + 1] == acts[1..][k]
      {}
      RunWillExpire(t, acts[1..]);
    }
  }

  /** An order that has lost its time is not expired by any run, until it is amended again. */
  lemma {:induction false} NeverExpires(s: State, acts: seq<Action>, j: nat)
    requires Inv(s) && Unexpiring(s.orders, j)
    requires forall k :: 0 <= k < |acts| ==> !(acts[k].Amend? && acts[k].id == j)
    ensures Unexpiring(Run(s, acts).orders, j)
    decreases acts
  {
    if acts != [] {
      StepKeeps(s, acts[0]);
      StepDoesNotExpire(s, acts[0], j);
      NeverExpires(Apply(s, acts[0]), acts[1..], j);
    }
  }

  /** The order has no time to expire at, and has not expired. */
  ghost predicate Unexpiring(orders: seq<Order>, j: nat) {
    j < |orders| && orders[j].expiresAt.None? && !orders[j].status.Expired?
  }

  lemma MatchDoesNotExpire(s: State, id: nat, candidates: seq<nat>, j: nat)
    requires Inv(s) && id < |s.orders| && IsLive(s.orders[id].status) && Unexpiring(s.orders, j)
    requires Book(s.orders, id, candidates) && Commits(s.orders, id, candidates)
    ensures Unexpiring(Matched(s, id, candidates).orders, j)
  {
    MatchKeeps(s, id, candidates);
    assert SameTerms(s.orders[j], Matched(s, id, candidates).orders[j]);
    MatchMoves(s, id, candidates, j);
    assert Matched(s, id, candidates).orders[j] == s.orders[j]
           || !Matched(s, id, candidates).orders[j].status.Expired? by {
      assert OrderOk(s.orders[id], id, s.executions) && OrderOk(s.orders[j], j, s.executions);
    }
  }

  lemma StepDoesNotExpire(s: State, a: Action, j: nat)
    requires Inv(s) && Unexpiring(s.orders, j) && !(a.Amend? && a.id == j)
    ensures Unexpiring(Apply(s, a).orders, j)
  {
    if Enabled(s, a) && ToMatch(s, a).Some? {
      PreparedKeeps(s, a);
      PreparedDoesNotExpire(s, a, j);
      MatchDoesNotExpire(Prepared(s, a), ToMatch(s, a).value, CandidatesOf(a), j);
    }
  }

  lemma PreparedDoesNotExpire(s: State, a: Action, j: nat)
    requires Guard(s, a) && Unexpiring(s.orders, j)
    ensures Unexpiring(Prepared(s, a).orders, j)
  {}

  ghost function DayOrder(dayExpiry: int): Action {
    Submit(Quote(Sell, 7.0).(tif := Day), false, dayExpiry, 0, [])
  }

  ghost const RENEW := Amend(0, 1, None, Some(7.0), None, None)

  lemma DayOrderPlaced(dayExpiry: int)
    ensures Enabled(Run(EMPTY, [DayOrder(dayExpiry)]), Expire(0, dayExpiry))
    ensures Unexpiring(Run(EMPTY, [DayOrder(dayExpiry), RENEW]).orders, 0)
  {
    var r := Quote(Sell, 7.0).(tif := Day);
    var s := State([NewOrder(r, Accepted, Some(dayExpiry), 0)], []);
    FirstPlaced(r, dayExpiry, s.orders[0]);
    FirstAmended(s, Some(7.0));
    RunTwoMore(EMPTY, DayOrder(dayExpiry), RENEW, []);
    assert [DayOrder(dayExpiry), RENEW] + [] == [DayOrder(dayExpiry), RENEW];
  }

  /** A DAY order could have expired; amended without a time it loses the one it had, and no run
      expires it unless it is amended again. */
  lemma AmendedDayOrderStays(dayExpiry: int, acts: seq<Action>, now: int)
    requires forall k :: 0 <= k < |acts| ==> !(acts[k].Amend? && acts[k].id == 0)
    ensures Enabled(Run(EMPTY, [DayOrder(dayExpiry)]), Expire(0, dayExpiry))
    ensures !Enabled(Run(Run(EMPTY, [DayOrder(dayExpiry), RENEW]), acts), Expire(0, now))
  {
    DayOrderPlaced(dayExpiry);
    RunKeeps(EMPTY, [DayOrder(dayExpiry), RENEW]);
    NeverExpires(Run(EMPTY, [DayOrder(dayExpiry), RENEW]), acts, 0);
  }

  lemma RunTwoMore(s: State, a: Action, b: Action, acts: seq<Action>)
    ensures Run(s, [a]) == Apply(s, a)
    ensures Run(s, [a, b] + acts) == Run(Apply(Apply(s, a), b), acts)
  {
    assert [a][1..] == [] && ([a, b] + acts)[1..] == [b] + acts && ([b] + acts)[1..] == acts;
    assert Run(s, [a, b] + acts) == Run(Apply(s, a), [b] + acts);
  }
}
