/** The domain's own order object: guarded transitions, fills with a running average, and how
    replaying the execution rows on it gives the stored order. */
module StateMachine {
  import opened Options
  import opened OrderModel
  import opened OrderInvariants

  datatype Outcome = Done | TerminalOrder | InvalidTransition | InvalidQuantity

  datatype Fill = Fill(quantity: real, price: real)

  /** What a fill depends on and changes. */
  datatype Progress = Progress(status: Status, quantity: real, filled: real, remaining: real, average: Option<real>)

  predicate CanFill(p: Progress, f: Fill) {
    IsLive(p.status) && f.quantity > 0.0 && p.filled + f.quantity <= p.quantity
  }

  /** One accepted fill, with the average carried on from the one before. */
  function WithFill(p: Progress, f: Fill): Progress
    requires CanFill(p, f) && p.filled >= 0.0
  {
    var filled := p.filled + f.quantity;
    var spent := if p.average.None? then 0.0 else p.average.value * p.filled + f.price * f.quantity;
    var average := if p.filled == 0.0 || p.average.None? then f.price else spent / filled;
    Progress(if p.quantity - filled == 0.0 then Status.Filled else PartiallyFilled,
             p.quantity, filled, p.quantity - filled, Some(average))
  }

  class Order {
    var status: Status
    var quantity: real
    var filled: real
    var remaining: real
    var average: Option<real>
    var limit: Option<real>
    var stop: Option<real>
    var expiresAt: Option<int>

    function View(): Progress
      reads this
    {
      Progress(status, quantity, filled, remaining, average)
    }

    constructor (quantity: real, limit: Option<real>, stop: Option<real>, expiresAt: Option<int>)
      ensures View() == Progress(Created, quantity, 0.0, quantity, None)
      ensures this.limit == limit && this.stop == stop && this.expiresAt == expiresAt
    {
      status, this.quantity, filled, remaining, average := Created, quantity, 0.0, quantity, None;
      this.limit, this.stop, this.expiresAt := limit, stop, expiresAt;
    }

    /** Validation, risk decisions and rejection all move along the table. */
    method Transition(next: Status) returns (r: Outcome)
      modifies this`status
      ensures r == if IsTerminal(old(status)) then TerminalOrder
                   else if Allowed(old(status), next) then Done else InvalidTransition
      ensures status == if r.Done? then next else old(status)
    {
      if IsTerminal(status) { return TerminalOrder; }
      if !Allowed(status, next) { return InvalidTransition; }
      status := next;
      return Done;
    }

    method ApplyFill(q: real, price: real) returns (r: Outcome)
      requires filled >= 0.0
      modifies this`status, this`filled, this`remaining, this`average
      ensures r.Done? <==> CanFill(old(View()), Fill(q, price))
      ensures View() == if r.Done? then WithFill(old(View()), Fill(q, price)) else old(View())
      ensures r.TerminalOrder? <==> IsTerminal(old(status))
      ensures r.InvalidQuantity? <==> IsLive(old(status)) && (q <= 0.0 || old(filled) + q > quantity)
    {
      if IsTerminal(status) { return TerminalOrder; }
      if status != Accepted && status != PartiallyFilled { return InvalidTransition; }
      var previous := filled;
      var newFilled := previous + q;
      ghost var after := if q > 0.0 && newFilled <= quantity then WithFill(View(), Fill(q, price)) else View();
      if q <= 0.0 || newFilled > quantity { return InvalidQuantity; }
      filled := newFilled;
      remaining := quantity - filled;
      if previous == 0.0 || average.None? {
        average := Some(price);
      } else {
        assert after.average.value == (average.value * previous + price * q) / newFilled;
        average := Some((average.value * previous + price * q) / newFilled);
      }
      status := if remaining == 0.0 then Status.Filled else PartiallyFilled;
      return Done;
    }

    /** Gives up what was left. */
    method Cancel() returns (r: Outcome)
      modifies this`status, this`remaining
      ensures r == if IsLive(old(status)) then Done else InvalidTransition
      ensures View() == if r.Done? then old(View()).(status := Cancelled, remaining := 0.0) else old(View())
    {
      if status != Accepted && status != PartiallyFilled { return InvalidTransition; }
      status, remaining := Cancelled, 0.0;
      return Done;
    }

    /** Keeps what was left. */
    method Expire() returns (r: Outcome)
      modifies this`status
      ensures r == if IsLive(old(status)) then Done else InvalidTransition
      ensures View() == if r.Done? then old(View()).(status := Expired) else old(View())
    {
      if status != Accepted && status != PartiallyFilled { return InvalidTransition; }
      status := Expired;
      return Done;
    }

    /** A missing price keeps the old one; a missing expiry does not. */
    method Amend(q: Option<real>, limit: Option<real>, stop: Option<real>, expiresAt: Option<int>) returns (r: Outcome)
      modifies this`quantity, this`remaining, this`limit, this`stop, this`expiresAt
      ensures r == if !IsLive(status) then InvalidTransition
                   else if q.Some? && q.value < filled then InvalidQuantity else Done
      ensures View() == if r.Done? && q.Some? then old(View()).(quantity := q.value, remaining := q.value - filled)
                        else old(View())
      ensures this.limit == (if r.Done? && limit.Some? then limit else old(this.limit))
      ensures this.stop == (if r.Done? && stop.Some? then stop else old(this.stop))
      ensures this.expiresAt == (if r.Done? then expiresAt else old(this.expiresAt))
    {
      if status != Accepted && status != PartiallyFilled { return InvalidTransition; }
      if q.Some? {
        if q.value < filled { return InvalidQuantity; }
        quantity := q.value;
        remaining := quantity - filled;
      }
      if limit.Some? { this.limit := limit; }
      if stop.Some? { this.stop := stop; }
      this.expiresAt := expiresAt;
      return Done;
    }
  }

  // ----- sequences of fills -----

  /** Fills one after the other; a refused fill changes nothing. */
  function Replay(p: Progress, fills: seq<Fill>): Progress
    requires p.filled >= 0.0
    decreases fills
  {
    if fills == [] then p
    else if CanFill(p, fills[0]) then Replay(WithFill(p, fills[0]), fills[1..])
    else Replay(p, fills[1..])
  }

  /** The fills that were not refused. */
  function Taken(p: Progress, fills: seq<Fill>): seq<Fill>
    requires p.filled >= 0.0
    decreases fills
  {
    if fills == [] then []
    else if CanFill(p, fills[0]) then [fills[0]] + Taken(WithFill(p, fills[0]), fills[1..])
    else Taken(p, fills[1..])
  }

  function Quantity(fills: seq<Fill>): real {
    if fills == [] then 0.0 else fills[0].quantity + Quantity(fills[1..])
  }

  function Worth(f: Fill): real {
    f.quantity * f.price
  }

  function Value(fills: seq<Fill>): real {
    if fills == [] then 0.0 else Worth(fills[0]) + Value(fills[1..])
  }

  /** The money the average stands for. */
  function Spent(p: Progress): real {
    if p.average.Some? then p.average.value * p.filled else 0.0
  }

  /** Quantities balance and the status goes with them. */
  ghost predicate Balanced(p: Progress) {
    && 0.0 <= p.filled <= p.quantity && p.remaining == p.quantity - p.filled
    && (p.average.None? <==> p.filled == 0.0)
    && (if p.filled == 0.0 then p.status.Accepted?
        else p.status == if p.remaining == 0.0 then Status.Filled else PartiallyFilled)
  }

  lemma WithFillBalances(p: Progress, f: Fill)
    requires Balanced(p) && CanFill(p, f)
    ensures Balanced(WithFill(p, f))
    ensures Spent(WithFill(p, f)) == Spent(p) + Worth(f)
  {
    var filled := p.filled + f.quantity;
    if p.filled == 0.0 {
      assert f.price * filled == f.quantity * f.price;
    } else {
      var sum := p.average.value * p.filled + f.price * f.quantity;
      TimesBack(sum, filled);
      assert f.price * f.quantity == Worth(f);
    }
  }

  lemma TimesBack(sum: real, q: real)
    requires q > 0.0
    ensures sum / q * q == sum
  {}

  lemma {:induction false} ReplayBalances(p: Progress, fills: seq<Fill>)
    requires Balanced(p)
    ensures Balanced(Replay(p, fills))
    ensures Spent(Replay(p, fills)) == Spent(p) + Value(Taken(p, fills))
    ensures Replay(p, fills).filled == p.filled + Quantity(Taken(p, fills))
    ensures Replay(p, fills).quantity == p.quantity
    decreases fills
  {
    if fills != [] {
      var f := fills[0];
      if CanFill(p, f) {
        WithFillBalances(p, f);
        ReplayBalances(WithFill(p, f), fills[1..]);
        assert Taken(p, fills)[1..] == Taken(WithFill(p, f), fills[1..]);
      } else {
        ReplayBalances(p, fills[1..]);
      }
    }
  }

  lemma {:induction false} TakenPositive(p: Progress, fills: seq<Fill>)
    requires p.filled >= 0.0
    ensures forall f <- Taken(p, fills) :: f.quantity > 0.0 && f in fills
    decreases fills
  {
    if fills != [] {
      if CanFill(p, fills[0]) { TakenPositive(WithFill(p, fills[0]), fills[1..]); }
      else { TakenPositive(p, fills[1..]); }
    }
  }

  lemma {:induction false} ValueAbove(fills: seq<Fill>, low: real, q: real, v: real)
    requires forall f <- fills :: f.quantity > 0.0 && low <= f.price
    requires q == Quantity(fills) && v == Value(fills)
    ensures low * q <= v
  {
    if fills != [] {
      var f := fills[0];
      assert f in fills;
      ValueAbove(fills[1..], low, q - f.quantity, v - Worth(f));
      OneAbove(f, low, q, v);
    }
  }

  lemma {:induction false} ValueBelow(fills: seq<Fill>, high: real, q: real, v: real)
    requires forall f <- fills :: f.quantity > 0.0 && f.price <= high
    requires q == Quantity(fills) && v == Value(fills)
    ensures v <= high * q
  {
    if fills != [] {
      var f := fills[0];
      assert f in fills;
      ValueBelow(fills[1..], high, q - f.quantity, v - Worth(f));
      OneBelow(f, high, q, v);
    }
  }

  lemma OneAbove(f: Fill, low: real, q: real, v: real)
    requires f.quantity > 0.0 && low <= f.price && low * (q - f.quantity) <= v - Worth(f)
    ensures low * q <= v
  {}

  lemma OneBelow(f: Fill, high: real, q: real, v: real)
    requires f.quantity > 0.0 && f.price <= high && v - Worth(f) <= high * (q - f.quantity)
    ensures v <= high * q
  {}

  function Fresh(quantity: real): Progress {
    Progress(Accepted, quantity, 0.0, quantity, None)
  }

  /** The money a batch of fills stands for, over its quantity. */
  function Batch(fills: seq<Fill>): Option<real> {
    if Quantity(fills) > 0.0 then Some(Value(fills) / Quantity(fills)) else None
  }

  /** For every sequence of fills, some of them refused, the running average is the batch average
      of those taken, and the quantities balance. */
  lemma AverageIsBatch(quantity: real, fills: seq<Fill>)
    requires quantity > 0.0
    ensures var p, taken := Replay(Fresh(quantity), fills), Taken(Fresh(quantity), fills);
            && Balanced(p) && p.filled == Quantity(taken) && p.quantity == quantity
            && p.average == Batch(taken)
  {
    var p, taken := Replay(Fresh(quantity), fills), Taken(Fresh(quantity), fills);
    ReplayBalances(Fresh(quantity), fills);
    if p.filled > 0.0 { Divides(p.average.value, p.filled, Value(taken)); }
  }

  /** The average lies between the lowest and the highest price. */
  lemma AverageInRange(quantity: real, fills: seq<Fill>, low: real, high: real)
    requires quantity > 0.0 && forall f <- fills :: low <= f.price <= high
    ensures var p := Replay(Fresh(quantity), fills);
            p.average.Some? ==> low <= p.average.value <= high
  {
    var p, taken := Replay(Fresh(quantity), fills), Taken(Fresh(quantity), fills);
    if p.average.Some? {
      var a, q, v := p.average.value, p.filled, Value(taken);
      SpentIsValue(quantity, fills, a, q, v);
      TakenPositive(Fresh(quantity), fills);
      ValueAbove(taken, low, q, v);
      ValueBelow(taken, high, q, v);
      Between(low, a, high, q, v);
    }
  }

  lemma SpentIsValue(quantity: real, fills: seq<Fill>, a: real, q: real, v: real)
    requires quantity > 0.0 && Replay(Fresh(quantity), fills).average.Some?
    requires a == Replay(Fresh(quantity), fills).average.value
    requires q == Replay(Fresh(quantity), fills).filled && v == Value(Taken(Fresh(quantity), fills))
    ensures q > 0.0 && q == Quantity(Taken(Fresh(quantity), fills))
    ensures a * q == v
  {
    ReplayBalances(Fresh(quantity), fills);
  }

  lemma Divides(a: real, q: real, v: real)
    requires q > 0.0 && a * q == v
    ensures a == v / q
  {}

  lemma Between(low: real, a: real, high: real, q: real, v: real)
    requires q > 0.0 && a * q == v && low * q <= v && v <= high * q
    ensures low <= a <= high
  {
    assert (low - a) * q == low * q - a * q && (a - high) * q == a * q - high * q;
    NotPositive(low - a, q);
    NotPositive(a - high, q);
  }

  lemma NotPositive(x: real, q: real)
    requires q > 0.0 && x * q <= 0.0
    ensures x <= 0.0
  {}

  // ----- the stored order is the replay of its executions -----

  /** The fills of one order among the execution rows. */
  function FillsOf(execs: seq<Execution>, id: nat): seq<Fill> {
    if execs == [] then []
    else (if Involves(execs[0], id) then [Fill(execs[0].quantity, execs[0].price)] else []) + FillsOf(execs[1..], id)
  }

  lemma {:induction false} FillsAddUp(execs: seq<Execution>, id: nat)
    requires forall e <- execs :: e.quantity > 0.0
    ensures Quantity(FillsOf(execs, id)) == FilledSum(execs, id)
    ensures Value(FillsOf(execs, id)) == Notional(execs, id)
    ensures forall f <- FillsOf(execs, id) :: f.quantity > 0.0
  {
    if execs != [] {
      var fs := FillsOf(execs, id);
      assert execs[0] in execs;
      FillsAddUp(execs[1..], id);
      if Involves(execs[0], id) {
        assert fs[1..] == FillsOf(execs[1..], id);
      } else {
        assert fs == FillsOf(execs[1..], id);
      }
    }
  }

  /** Fills that together fit the quantity are all taken. */
  lemma {:induction false} AllTaken(p: Progress, fills: seq<Fill>)
    requires Balanced(p) && p.quantity > 0.0 && forall f <- fills :: f.quantity > 0.0
    requires p.filled + Quantity(fills) <= p.quantity
    ensures Taken(p, fills) == fills
    decreases fills
  {
    if fills != [] {
      var f := fills[0];
      assert f in fills;
      QuantityPositive(fills[1..]);
      assert CanFill(p, f);
      WithFillBalances(p, f);
      AllTaken(WithFill(p, f), fills[1..]);
    }
  }

  lemma {:induction false} QuantityPositive(fills: seq<Fill>)
    requires forall f <- fills :: f.quantity > 0.0
    ensures Quantity(fills) >= 0.0
  {
    if fills != [] {
      assert fills[0] in fills;
      QuantityPositive(fills[1..]);
    }
  }

  /** In every reachable state, replaying an order's execution rows on the domain object gives the
      stored filled quantity and average, and for an order on the book its status as well. */
  lemma StoredOrderIsReplay(acts: seq<Action>, id: nat)
    requires id < |Run(EMPTY, acts).orders|
    ensures var s := Run(EMPTY, acts);
            s.orders[id].quantity > 0.0 &&
            var o, p := s.orders[id], Replay(Fresh(s.orders[id].quantity), FillsOf(s.executions, id));
            && p.filled == o.filled && p.average == o.average
            && (IsLive(o.status) && o.remaining > 0.0 ==> p.status == o.status && p.remaining == o.remaining)
            && (o.status.Filled? ==> p.status == o.status && p.remaining == o.remaining)
  {
    var s := Run(EMPTY, acts);
    RunKeeps(EMPTY, acts);
    var o := s.orders[id];
    assert OrderOk(o, id, s.executions);
    forall e | e in s.executions ensures e.quantity > 0.0 {
      var i :| 0 <= i < |s.executions| && s.executions[i] == e;
      assert ExecutionOk(s.executions[i], s.orders);
    }
    var fills := FillsOf(s.executions, id);
    FillsAddUp(s.executions, id);
    AllTaken(Fresh(o.quantity), fills);
    AverageIsBatch(o.quantity, fills);
  }
}
