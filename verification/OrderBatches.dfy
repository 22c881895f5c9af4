/** The batches of the expiry and the stop-trigger workers: what their queries select, and what
    the steps of a batch leave alone. */
module OrderBatches {
  import opened Options
  import opened OrderTypes
  import opened OrderModel
  import opened OrderInvariants
  import opened Selection
  import opened Sequences
  import L = OrderLiveness

  /** The candidates rank the book whenever it can be ranked. */
  ghost predicate Ranks(orders: seq<Order>, id: nat, candidates: seq<nat>)
    requires id < |orders|
  {
    L.Sortable(orders, id) ==> Book(orders, id, candidates)
  }

  /** A step whose guard holds carries such candidates: it fails for no want of looking. */
  ghost predicate WellChosen(s: State, a: Action) {
    Guard(s, a) && ToMatch(s, a).Some? && ToMatch(s, a).value < |Prepared(s, a).orders| ==>
      Ranks(Prepared(s, a).orders, ToMatch(s, a).value, CandidatesOf(a))
  }

  // ----- expiry -----

  /** The condition of the expiry query. */
  function Due(orders: seq<Order>, now: int, skip: set<nat>): nat -> bool {
    (id: nat) => Guard(State(orders, []), Expire(id, now)) && id !in skip
  }

  function ExpiryTime(orders: seq<Order>): nat -> int {
    (id: nat) => if id < |orders| && orders[id].expiresAt.Some? then orders[id].expiresAt.value else 0
  }

  predicate OnlyRow(was: seq<Order>, now: seq<Order>, id: nat) {
    |now| == |was| && forall j :: 0 <= j < |was| && j != id ==> now[j] == was[j]
  }

  ghost predicate AllDue(orders: seq<Order>, due: seq<nat>, now: int) {
    forall i :: 0 <= i < |due| ==> Guard(State(orders, []), Expire(due[i], now))
  }

  lemma OthersStillDue(was: seq<Order>, now: seq<Order>, due: seq<nat>, i: nat, at: int)
    requires i < |due| && NoDuplicates(due) && AllDue(was, due[i..], at) && OnlyRow(was, now, due[i])
    ensures AllDue(now, due[i + 1..], at)
  {
    var before, rest := due[i..], due[i + 1..];
    forall k | 0 <= k < |rest| ensures Guard(State(now, []), Expire(rest[k], at)) {
      assert rest[k] == before[k + 1] && rest[k] == due[i + 1 + k];
    }
  }

  lemma DueRows(orders: seq<Order>, now: int, skip: set<nat>, due: seq<nat>)
    requires Leading(Due(orders, now, skip), ExpiryTime(orders), due)
    ensures NoDuplicates(due)
    ensures AllDue(orders, due, now)
  {
    forall i | 0 <= i < |due| ensures Guard(State(orders, []), Expire(due[i], now)) {
      assert Due(orders, now, skip)(due[i]);
    }
    forall i, j | 0 <= i < j < |due| ensures due[i] != due[j] {
      assert Precedes(ExpiryTime(orders), due[i], due[j]);
    }
  }

  function Expiries(due: seq<nat>, now: int): seq<Action> {
    seq(|due|, i requires 0 <= i < |due| => Expire(due[i], now))
  }

  lemma OneMoreExpiry(s: State, due: seq<nat>, i: nat, now: int)
    requires i < |due|
    ensures Run(s, Expiries(due[..i + 1], now)) == Apply(Run(s, Expiries(due[..i], now)), Expire(due[i], now))
  {
    assert Expiries(due[..i + 1], now) == Expiries(due[..i], now) + [Expire(due[i], now)];
    RunSnoc(s, Expiries(due[..i], now), Expire(due[i], now));
  }

  function CountExpired(orders: seq<Order>): nat {
    if orders == [] then 0 else (if orders[0].status.Expired? then 1 else 0) + CountExpired(orders[1..])
  }

  lemma {:induction false} ExpiredOnce(orders: seq<Order>, id: nat, o: Order)
    requires id < |orders| && o.status.Expired? && !orders[id].status.Expired?
    ensures CountExpired(orders[id := o]) == CountExpired(orders) + 1
  {
    if id == 0 {
      assert orders[id := o][1..] == orders[1..];
    } else {
      assert orders[id := o][1..] == orders[1..][id - 1 := o];
      ExpiredOnce(orders[1..], id - 1, o);
    }
  }

  /** An expiry step writes one row, and has one more expired order if it is enabled. */
  lemma ExpiryCounts(s: State, id: nat, now: int)
    ensures var t := Apply(s, Expire(id, now));
            && OnlyRow(s.orders, t.orders, id)
            && CountExpired(t.orders) == CountExpired(s.orders) + if Enabled(s, Expire(id, now)) then 1 else 0
  {
    if Enabled(s, Expire(id, now)) {
      var o := s.orders[id];
      ExpiredOnce(s.orders, id, o.(status := Expired, version := o.version + 1));
    }
  }

  // ----- stop triggers -----

  datatype ReferencePrice = ReferencePrice(price: real, updatedAt: int)

  datatype TriggerCandidate = TriggerCandidate(id: nat, side: Side, originalType: OrderType, stop: real,
                                               reference: real)

  predicate IsWaiting(o: Order) {
    && (o.orderType.Stop? || o.orderType.StopLimit?) && o.stop.Some? && !o.triggered
    && o.remaining > 0.0 && IsLive(o.status)
  }

  /** The condition of the trigger query: prices from before `since` do not count. */
  function Waiting(orders: seq<Order>, prices: map<Key, ReferencePrice>, since: int, skip: set<nat>): nat -> bool {
    (id: nat) =>
      && id < |orders| && IsWaiting(orders[id]) && orders[id].key in prices && prices[orders[id].key].updatedAt >= since
      && id !in skip
  }

  function PlacedAt(orders: seq<Order>): nat -> int {
    (id: nat) => if id < |orders| then orders[id].createdAt else 0
  }

  predicate Describes(c: TriggerCandidate, o: Order) {
    c.side == o.side && c.originalType == o.orderType && o.stop == Some(c.stop)
  }

  /** The candidate was read from its row and its symbol's price. */
  predicate ReadFrom(c: TriggerCandidate, orders: seq<Order>, prices: map<Key, ReferencePrice>) {
    && c.id < |orders| && Describes(c, orders[c.id])
    && orders[c.id].key in prices && c.reference == prices[orders[c.id].key].price
  }

  function IdsIn(due: seq<TriggerCandidate>): seq<nat> {
    Mapped(due, (c: TriggerCandidate) => c.id)
  }

  ghost predicate AllWaiting(orders: seq<Order>, due: seq<TriggerCandidate>) {
    forall i :: 0 <= i < |due| ==>
        due[i].id < |orders| && IsWaiting(orders[due[i].id]) && Describes(due[i], orders[due[i].id])
  }

  ghost predicate DistinctRows(due: seq<TriggerCandidate>) {
    forall i, j :: 0 <= i < j < |due| ==> due[i].id != due[j].id
  }

  lemma CandidatesWait(
      orders: seq<Order>, prices: map<Key, ReferencePrice>, since: int, skip: set<nat>, due: seq<TriggerCandidate>)
    requires Leading(Waiting(orders, prices, since, skip), PlacedAt(orders), IdsIn(due))
    requires forall i :: 0 <= i < |due| ==> ReadFrom(due[i], orders, prices)
    ensures AllWaiting(orders, due) && DistinctRows(due)
  {
    var ids := IdsIn(due);
    forall i | 0 <= i < |due| ensures IsWaiting(orders[due[i].id]) {
      assert Waiting(orders, prices, since, skip)(ids[i]);
    }
    forall i, j | 0 <= i < j < |due| ensures due[i].id != due[j].id {
      assert Precedes(PlacedAt(orders), ids[i], ids[j]);
    }
  }

  function CountTriggers(due: seq<TriggerCandidate>): nat {
    if due == [] then 0
    else
      var c := due[|due| - 1];
      CountTriggers(due[..|due| - 1]) + if ShouldTrigger(c.side, c.originalType, c.stop, c.reference) then 1 else 0
  }

  lemma OneMoreCounted(due: seq<TriggerCandidate>, i: nat)
    requires i < |due|
    ensures var c := due[i];
            CountTriggers(due[..i + 1])
              == CountTriggers(due[..i]) + if ShouldTrigger(c.side, c.originalType, c.stop, c.reference) then 1 else 0
  {
    assert due[..i + 1][..i] == due[..i];
  }

  /** A step of one order leaves every other stop order alone: only limit orders rest. */
  ghost predicate OnlyBookTouched(was: seq<Order>, now: seq<Order>, id: nat) {
    && |now| == |was|
    && forall j :: 0 <= j < |was| && j != id && (was[j].orderType.Stop? || was[j].orderType.StopLimit?) ==>
        now[j] == was[j]
  }

  lemma TriggerTouchesBook(s: State, a: Action)
    requires a.Trigger?
    ensures OnlyBookTouched(s.orders, Apply(s, a).orders, a.id)
  {
    if Enabled(s, a) {
      MatchTouchesBook(Prepared(s, a), a.id, a.candidates);
    }
  }

  lemma MatchTouchesBook(s: State, id: nat, candidates: seq<nat>)
    requires id < |s.orders| && Book(s.orders, id, candidates)
    ensures OnlyBookTouched(s.orders, Matched(s, id, candidates).orders, id)
  {
    forall j | 0 <= j < |s.orders| && j != id && (s.orders[j].orderType.Stop? || s.orders[j].orderType.StopLimit?)
      ensures j !in candidates
    {
      assert !Resting(s.orders, id, j);
    }
  }

  lemma OthersStillWait(was: seq<Order>, now: seq<Order>, due: seq<TriggerCandidate>, i: nat)
    requires i < |due| && AllWaiting(was, due[i..]) && DistinctRows(due) && OnlyBookTouched(was, now, due[i].id)
    ensures AllWaiting(now, due[i + 1..])
  {
    var before, rest := due[i..], due[i + 1..];
    forall k | 0 <= k < |rest|
      ensures rest[k].id < |now| && IsWaiting(now[rest[k].id]) && Describes(rest[k], now[rest[k].id])
    {
      assert rest[k] == before[k + 1] && rest[k] == due[i + 1 + k];
    }
  }

  lemma ActivationIsGuard(s: State, c: TriggerCandidate)
    requires c.id < |s.orders| && Describes(c, s.orders[c.id])
    requires ShouldTrigger(c.side, c.originalType, c.stop, c.reference)
    ensures var o := s.orders[c.id];
            forall candidates ::
              Guard(s, Trigger(c.id, c.reference, candidates)) <==>
                (o.orderType.Stop? || o.orderType.StopLimit?) && !o.triggered && IsLive(o.status) && o.remaining > 0.0
  {}

  /** One trigger step for each candidate, with its reference price. */
  ghost predicate TriggersFor(acts: seq<Action>, due: seq<TriggerCandidate>) {
    |acts| == |due| && forall i :: 0 <= i < |acts| ==>
      acts[i].Trigger? && acts[i].id == due[i].id && acts[i].referencePrice == due[i].reference
  }

  lemma OneMoreTrigger(s: State, acts: seq<Action>, due: seq<TriggerCandidate>, a: Action)
    requires |acts| < |due| && TriggersFor(acts, due[..|acts|])
    requires a.Trigger? && a.id == due[|acts|].id && a.referencePrice == due[|acts|].reference
    ensures TriggersFor(acts + [a], due[..|acts| + 1]) && (acts + [a])[..|acts|] == acts
    ensures Run(s, acts + [a]) == Apply(Run(s, acts), a)
  {
    RunSnoc(s, acts, a);
  }

  /** The batch broke off at its last step: the guard held, and the match still failed. */
  ghost predicate BrokeOff(s: State, acts: seq<Action>) {
    acts != [] &&
    (var n := |acts| - 1;
     var t := Run(s, acts[..n]);
     Guard(t, acts[n]) && WellChosen(t, acts[n]) && !Enabled(t, acts[n]))
  }
}
