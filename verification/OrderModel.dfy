/** The order table as a step system: submit, risk decision, cancel, amend, expiry and stop
    trigger, each one database transaction.

    Matching takes the tenant-and-symbol lock before it reads the book and holds it until it
    commits, so a step is atomic.  The order in which rows of equal price and age are read is
    left open: a matching step carries the candidates as they were ranked. */
module OrderModel {
  import opened Options
  import opened OrderTypes
  import opened Sums
  import opened MatchingSpec

  datatype Status =
    | Created | Validated | RiskPending | RiskRejected | RiskError
    | Accepted | PartiallyFilled | Filled | Rejected | Cancelled | Expired

  predicate IsTerminal(s: Status) {
    s.Filled? || s.Cancelled? || s.Rejected? || s.RiskRejected? || s.RiskError? || s.Expired?
  }

  predicate IsLive(s: Status) {
    s.Accepted? || s.PartiallyFilled?
  }

  /** The transition table. */
  predicate Allowed(from: Status, to: Status) {
    match from
    case Created => to.Validated? || to.Rejected? || to.RiskRejected?
    case Validated => to.RiskPending? || to.Accepted? || to.Rejected? || to.RiskRejected?
    case RiskPending => to.Accepted? || to.RiskRejected? || to.RiskError? || to.Rejected?
    case Accepted => to.PartiallyFilled? || to.Filled? || to.Cancelled? || to.Expired?
    case PartiallyFilled => to.Filled? || to.Cancelled? || to.Expired?
    case _ => false
  }

  /** Orders meet only within one tenant and symbol. */
  datatype Key = Key(tenant: string, symbol: string)

  datatype Order = Order(
    key: Key,
    userID: string,
    side: Side,
    orderType: OrderType,
    tif: TimeInForce,
    quantity: real,
    filled: real,
    remaining: real,
    limit: Option<real>,
    stop: Option<real>,
    average: Option<real>,
    status: Status,
    version: nat,
    createdAt: int,
    expiresAt: Option<int>,
    triggered: bool
  )

  /** An execution row, with the users of both orders. */
  datatype Execution = Execution(
    buyId: nat,
    sellId: nat,
    buyer: string,
    seller: string,
    quantity: real,
    price: real
  )

  datatype State = State(orders: seq<Order>, executions: seq<Execution>)

  /** A create request after normalisation: STOP_LOSS has become STOP. */
  datatype Request = Request(
    key: Key,
    userID: string,
    side: Side,
    orderType: OrderType,
    tif: TimeInForce,
    quantity: real,
    limit: Option<real>,
    stop: Option<real>,
    expiresAt: Option<int>
  )

  datatype Decision = Approve | Reject | Unavailable

  datatype Action =
    | Submit(request: Request, riskEnabled: bool, dayExpiry: int, now: int, candidates: seq<nat>)
    | Decide(id: nat, decision: Decision, candidates: seq<nat>)
    | Cancel(id: nat)
    | Amend(id: nat, expectedVersion: nat, quantity: Option<real>, limit: Option<real>, stop: Option<real>,
            expiresAt: Option<int>)
    | Expire(id: nat, now: int)
    | Trigger(id: nat, referencePrice: real, candidates: seq<nat>)

  // ----- validation and triggers -----

  predicate Positive(price: Option<real>) {
    price.Some? && price.value > 0.0
  }

  predicate ValidRequest(r: Request, now: int) {
    && r.key.symbol != ""
    && r.quantity > 0.0
    && (r.orderType.Limit? ==> Positive(r.limit))
    && (r.orderType.Stop? || r.orderType.StopLoss? ==> Positive(r.stop))
    && (r.orderType.StopLimit? ==> Positive(r.stop) && Positive(r.limit))
    && (if r.tif.GTD? then r.expiresAt.Some? && r.expiresAt.value > now else r.expiresAt.None?)
  }

  predicate ShouldTrigger(side: Side, orderType: OrderType, stop: real, reference: real) {
    && stop > 0.0 && reference > 0.0
    && (orderType.Stop? || orderType.StopLimit?)
    && (if side.Buy? then reference >= stop else reference <= stop)
  }

  function ActivatedType(orderType: OrderType): OrderType {
    if orderType.Stop? then Market else if orderType.StopLimit? then Limit else orderType
  }

  // ----- executions of one order -----

  predicate Involves(e: Execution, id: nat) {
    e.buyId == id || e.sellId == id
  }

  function FilledSum(execs: seq<Execution>, id: nat): real {
    if execs == [] then 0.0
    else (if Involves(execs[0], id) then execs[0].quantity else 0.0) + FilledSum(execs[1..], id)
  }

  function Notional(execs: seq<Execution>, id: nat): real {
    if execs == [] then 0.0
    else (if Involves(execs[0], id) then execs[0].quantity * execs[0].price else 0.0) + Notional(execs[1..], id)
  }

  /** The average fill price as it is recomputed from the execution rows. */
  function BatchAverage(execs: seq<Execution>, id: nat): Option<real> {
    if FilledSum(execs, id) > 0.0 then Some(Notional(execs, id) / FilledSum(execs, id)) else None
  }

  // ----- matching inside a transaction -----

  function TakerOf(o: Order): Taker {
    Taker(o.side, o.orderType, o.limit, o.tif)
  }

  /** The rows the book query returns for an incoming order. */
  predicate Resting(orders: seq<Order>, id: nat, j: nat)
    requires id < |orders|
  {
    && j < |orders|
    && orders[j].key == orders[id].key && orders[j].side != orders[id].side
    && IsLive(orders[j].status) && orders[j].remaining > 0.0 && orders[j].orderType.Limit?
  }

  function MakersOf(orders: seq<Order>, candidates: seq<nat>): (m: seq<Maker>)
    requires forall i :: 0 <= i < |candidates| ==> candidates[i] < |orders|
    ensures |m| == |candidates|
  {
    seq(|candidates|, i requires 0 <= i < |candidates| =>
      Maker(orders[candidates[i]].limit, orders[candidates[i]].remaining))
  }

  /** Among orders of one price the older ones come first. */
  predicate AgeRanked(orders: seq<Order>, candidates: seq<nat>)
    requires forall i :: 0 <= i < |candidates| ==> candidates[i] < |orders|
  {
    forall i, j :: 0 <= i < j < |candidates| && orders[candidates[i]].limit == orders[candidates[j]].limit ==>
      orders[candidates[i]].createdAt <= orders[candidates[j]].createdAt
  }

  /** The candidates are the resting orders, each once, best price first, then oldest first.
      There is no such ranking when two or more orders rest and one has lost its price: the sort
      fails on it, and with it the transaction. */
  predicate Book(orders: seq<Order>, id: nat, candidates: seq<nat>)
    requires id < |orders|
  {
    && (forall i :: 0 <= i < |candidates| ==> Resting(orders, id, candidates[i]))
    && (forall i, j :: 0 <= i < j < |candidates| ==> candidates[i] != candidates[j])
    && (forall j :: 0 <= j < |orders| ==> Resting(orders, id, j) ==> j in candidates)
    && PriceRanked(TakerOf(orders[id]), MakersOf(orders, candidates))
    && AgeRanked(orders, candidates)
  }

  function FillOf(candidates: seq<nat>, fills: seq<real>, j: nat): real
    requires |candidates| == |fills|
  {
    if candidates == [] then 0.0
    else if candidates[0] == j then fills[0]
    else FillOf(candidates[1..], fills[1..], j)
  }

  /** The row of one trade, at the price of the resting order. */
  function ExecutionRow(orders: seq<Order>, id: nat, c: nat, quantity: real): Execution
    requires id < |orders| && c < |orders|
  {
    var price := PriceOf(Maker(orders[c].limit, orders[c].remaining));
    if orders[id].side.Buy? then Execution(id, c, orders[id].userID, orders[c].userID, quantity, price)
    else Execution(c, id, orders[c].userID, orders[id].userID, quantity, price)
  }

  function ExecutionsOf(orders: seq<Order>, id: nat, candidates: seq<nat>, fills: seq<real>): seq<Execution>
    requires id < |orders| && |candidates| == |fills|
    requires forall i :: 0 <= i < |candidates| ==> candidates[i] < |orders|
  {
    if candidates == [] then []
    else
      (if fills[0] > 0.0 then [ExecutionRow(orders, id, candidates[0], fills[0])] else [])
        + ExecutionsOf(orders, id, candidates[1..], fills[1..])
  }

  /** How filled and remaining quantity decide the status after a match. */
  function AfterFill(o: Order, filled: real, remaining: real, cancelled: bool): Order {
    if cancelled then o.(filled := filled, remaining := 0.0, status := Cancelled)
    else if filled > 0.0 then
      o.(filled := filled, remaining := remaining, status := if remaining == 0.0 then Filled else PartiallyFilled)
    else o.(filled := filled, remaining := remaining)
  }

  /** Writing an order back recomputes the average price and raises the version. */
  function Persisted(o: Order, id: nat, execs: seq<Execution>): Order {
    o.(average := BatchAverage(execs, id), version := o.version + 1)
  }

  predicate CancelsRemainder(o: Order, rem: real) {
    rem != 0.0 && (o.orderType.Market? || o.tif.IOC? || o.tif.FOK?)
  }

  /** The transaction fails, and with it everything it did, when an execution would be stored at
      a price that is not positive. */
  predicate Commits(orders: seq<Order>, id: nat, candidates: seq<nat>)
    requires id < |orders| && Book(orders, id, candidates)
  {
    var makers := MakersOf(orders, candidates);
    var fills := Fills(TakerOf(orders[id]), orders[id].remaining, makers);
    forall i :: 0 <= i < |candidates| && fills[i] > 0.0 ==> Positive(makers[i].price)
  }

  /** What row j trades, whether it is written back, and whether its remainder is cancelled. */
  datatype Change = Change(qty: real, written: bool, cancelled: bool)

  function ChangeOf(orders: seq<Order>, id: nat, candidates: seq<nat>, fills: seq<real>, killed: bool, j: nat): Change
    requires id < |orders| && |fills| == |candidates|
  {
    if j == id then
      var cancelled := killed || CancelsRemainder(orders[id], orders[id].remaining - Sum(fills));
      Change(Sum(fills), Sum(fills) > 0.0 || cancelled, cancelled)
    else
      var qty := FillOf(candidates, fills, j);
      Change(qty, j in candidates && (killed || qty > 0.0), false)
  }

  function Changed(o: Order, id: nat, c: Change, execs: seq<Execution>): Order {
    if c.written then Persisted(AfterFill(o, o.filled + c.qty, o.remaining - c.qty, c.cancelled), id, execs) else o
  }

  function Matched(s: State, id: nat, candidates: seq<nat>): (t: State)
    requires id < |s.orders| && Book(s.orders, id, candidates)
    ensures |t.orders| == |s.orders|
  {
    var makers := MakersOf(s.orders, candidates);
    var fills := Fills(TakerOf(s.orders[id]), s.orders[id].remaining, makers);
    var killed := Killed(TakerOf(s.orders[id]), s.orders[id].remaining, makers);
    var execs := s.executions + ExecutionsOf(s.orders, id, candidates, fills);
    State(
      seq(|s.orders|, j requires 0 <= j < |s.orders| =>
        Changed(s.orders[j], j, ChangeOf(s.orders, id, candidates, fills, killed, j), execs)),
      execs)
  }

  // ----- steps -----

  function NewOrder(r: Request, status: Status, expiresAt: Option<int>, now: int): Order {
    Order(r.key, r.userID, r.side, r.orderType, r.tif, r.quantity, 0.0, r.quantity, r.limit, r.stop, None,
          status, 1, now, expiresAt, false)
  }

  function SubmitExpiry(a: Action): Option<int>
    requires a.Submit?
  {
    if a.request.tif.Day? then Some(a.dayExpiry) else a.request.expiresAt
  }

  /** The table with the row whose turn it is to be matched already written. */
  function Prepared(s: State, a: Action): State {
    match a
    case Submit(r, riskEnabled, _, now, _) =>
      var status := if !ValidRequest(r, now) then Rejected else if riskEnabled then RiskPending else Accepted;
      s.(orders := s.orders + [NewOrder(r, status, if ValidRequest(r, now) then SubmitExpiry(a) else r.expiresAt, now)])
    case Decide(id, decision, _) =>
      if id >= |s.orders| then s else
      var o := s.orders[id];
      var status := match decision case Approve => Accepted case Reject => RiskRejected case Unavailable => RiskError;
      s.(orders := s.orders[id := o.(status := status, version := o.version + 1)])
    case Trigger(id, _, _) =>
      if id >= |s.orders| then s else
      var o := s.orders[id];
      var activated := ActivatedType(o.orderType);
      s.(orders := s.orders[id := o.(orderType := activated, triggered := true, version := o.version + 1)])
    case _ => s
  }

  /** The order a step matches, if it matches one. */
  function ToMatch(s: State, a: Action): Option<nat> {
    match a
    case Submit(r, riskEnabled, _, now, _) => if ValidRequest(r, now) && !riskEnabled then Some(|s.orders|) else None
    case Decide(id, decision, _) => if decision.Approve? then Some(id) else None
    case Trigger(id, _, _) => Some(id)
    case _ => None
  }

  function CandidatesOf(a: Action): seq<nat> {
    match a
    case Submit(_, _, _, _, candidates) => candidates
    case Decide(_, _, candidates) => candidates
    case Trigger(_, _, candidates) => candidates
    case _ => []
  }

  /** The guard of the row update a step begins with. */
  predicate Guard(s: State, a: Action) {
    match a
    case Submit(r, _, _, _, _) => r.quantity > 0.0
    case Decide(id, _, _) => id < |s.orders| && s.orders[id].status.RiskPending?
    case Cancel(id) => id < |s.orders| && IsLive(s.orders[id].status)
    case Amend(id, expectedVersion, quantity, _, _, _) =>
      && id < |s.orders| && IsLive(s.orders[id].status) && s.orders[id].version == expectedVersion
      && (quantity.Some? ==> quantity.value >= s.orders[id].filled && quantity.value > 0.0)
    case Expire(id, now) =>
      && id < |s.orders| && IsLive(s.orders[id].status) && s.orders[id].remaining > 0.0
      && s.orders[id].expiresAt.Some? && s.orders[id].expiresAt.value <= now
      && (s.orders[id].tif.Day? || s.orders[id].tif.GTD?)
    case Trigger(id, referencePrice, _) =>
      && id < |s.orders| && IsLive(s.orders[id].status) && s.orders[id].remaining > 0.0 && !s.orders[id].triggered
      && s.orders[id].stop.Some?
      && ShouldTrigger(s.orders[id].side, s.orders[id].orderType, s.orders[id].stop.value, referencePrice)
  }

  predicate Enabled(s: State, a: Action) {
    && Guard(s, a)
    && (ToMatch(s, a).Some? ==>
          var p := Prepared(s, a);
          var id := ToMatch(s, a).value;
          id < |p.orders| && Book(p.orders, id, CandidatesOf(a)) && Commits(p.orders, id, CandidatesOf(a)))
  }

  function Effect(s: State, a: Action): State
    requires Enabled(s, a)
  {
    if ToMatch(s, a).Some? then Matched(Prepared(s, a), ToMatch(s, a).value, CandidatesOf(a))
    else
      match a
      case Submit(_, _, _, _, _) => Prepared(s, a)
      case Decide(_, _, _) => Prepared(s, a)
      case Cancel(id) =>
        var o := s.orders[id];
        s.(orders := s.orders[id := o.(status := Cancelled, remaining := 0.0, version := o.version + 1)])
      case Amend(id, _, quantity, limit, stop, expiresAt) =>
        var o := s.orders[id];
        var total := if quantity.Some? then quantity.value else o.quantity;
        s.(orders := s.orders[id := o.(quantity := total, remaining := total - o.filled, limit := limit, stop := stop,
                                       expiresAt := expiresAt, version := o.version + 1)])
      case Expire(id, _) =>
        var o := s.orders[id];
        s.(orders := s.orders[id := o.(status := Expired, version := o.version + 1)])
      case Trigger(_, _, _) => s
  }

  /** A step that is not enabled, or whose transaction fails, changes nothing. */
  function Apply(s: State, a: Action): State {
    if Enabled(s, a) then Effect(s, a) else s
  }

  function Run(s: State, acts: seq<Action>): State
    decreases acts
  {
    if acts == [] then s else Run(Apply(s, acts[0]), acts[1..])
  }

  lemma {:induction false} RunConcat(s: State, xs: seq<Action>, ys: seq<Action>)
    ensures Run(s, xs + ys) == Run(Run(s, xs), ys)
    decreases xs
  {
    if xs == [] {
      assert xs + ys == ys;
    } else {
      assert (xs + ys)[0] == xs[0] && (xs + ys)[1..] == xs[1..] + ys;
      RunConcat(Apply(s, xs[0]), xs[1..], ys);
    }
  }

  lemma RunSnoc(s: State, acts: seq<Action>, a: Action)
    ensures Run(s, acts + [a]) == Apply(Run(s, acts), a)
  {
    RunConcat(s, acts, [a]);
    assert [a][1..] == [];
  }

  const EMPTY := State([], [])
}
