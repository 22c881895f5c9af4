/** The matching engine: a loop that writes through the shared quantity pointers of the incoming
    and the resting orders, proved against the sweep on values. */
module MatchingEngine {
  import opened Options
  import opened OrderTypes
  import opened Sums
  import opened MatchingSpec
  import opened MatchingBook

  datatype Execution = Execution(
    buyOrderID: nat,
    sellOrderID: nat,
    buyerUserID: string,
    sellerUserID: string,
    quantity: real,
    price: real,
    executedAt: int
  )

  datatype Result = Result(
    incoming: Order,
    resting: seq<Order>,
    executions: seq<Execution>,
    rested: bool,
    cancelled: bool
  )

  // ----- the value view of pointers -----

  ghost function Rats(orders: seq<Order>): set<Rat> {
    (set i | 0 <= i < |orders| :: orders[i].filled) + (set i | 0 <= i < |orders| :: orders[i].remaining)
  }

  /** No quantity is shared between two fields or two orders. */
  ghost predicate Separate(incoming: Order, orders: seq<Order>) {
    && incoming.filled != incoming.remaining
    && (forall x <- orders ::
        x.filled != x.remaining && {x.filled, x.remaining} !! {incoming.filled, incoming.remaining})
    && (forall x, y | x in orders && y in orders && x != y :: {x.filled, x.remaining} !! {y.filled, y.remaining})
    && (forall i, j :: 0 <= i < j < |orders| ==> orders[i] != orders[j])
  }

  ghost function MakersOf(orders: seq<Order>): (m: seq<Maker>)
    reads Rats(orders)
    ensures |m| == |orders|
  {
    seq(|orders|, i requires 0 <= i < |orders| reads Rats(orders) => Maker(orders[i].limitPrice, orders[i].remaining.v))
  }

  ghost function FilledsOf(orders: seq<Order>): (r: seq<real>)
    reads Rats(orders)
    ensures |r| == |orders|
  {
    seq(|orders|, i requires 0 <= i < |orders| reads Rats(orders) => orders[i].filled.v)
  }

  function TakerOf(o: Order): Taker {
    Taker(o.side, o.orderType, o.limitPrice, if o.tif.Some? then o.tif.value else Day)
  }

  /** The makers that traded, in order. */
  ghost function Touched(orders: seq<Order>, fills: seq<real>): seq<Order>
    requires |orders| == |fills|
  {
    if fills == [] then []
    else
      var n := |fills| - 1;
      Touched(orders[..n], fills[..n]) + (if fills[n] > 0.0 then [orders[n]] else [])
  }

  function ExecutionOf(incoming: Order, maker: Order, qty: real, now: int): Execution
    requires maker.limitPrice.Some?
  {
    if incoming.side.Buy? then
      Execution(incoming.id, maker.id, incoming.userID, maker.userID, qty, maker.limitPrice.value, now)
    else
      Execution(maker.id, incoming.id, maker.userID, incoming.userID, qty, maker.limitPrice.value, now)
  }

  /** One execution per maker that traded, at the maker's price. */
  ghost function ExecutionsOf(incoming: Order, orders: seq<Order>, fills: seq<real>, now: int): seq<Execution>
    requires |orders| == |fills|
    requires forall i :: 0 <= i < |fills| && fills[i] > 0.0 ==> orders[i].limitPrice.Some?
  {
    if fills == [] then []
    else
      var n := |fills| - 1;
      ExecutionsOf(incoming, orders[..n], fills[..n], now)
        + (if fills[n] > 0.0 then [ExecutionOf(incoming, orders[n], fills[n], now)] else [])
  }

  predicate ShouldCancelRemainder(orderType: OrderType, tif: TimeInForce, rem: real) {
    rem != 0.0 && (orderType.Market? || tif.IOC? || tif.FOK?)
  }

  // ----- the two loops -----

  method CanFullyFillLoop(incoming: Order, resting: seq<Order>, ghost makers: seq<Maker>) returns (r: bool)
    requires |makers| == |resting|
    requires forall i :: 0 <= i < |resting| ==> makers[i] == Maker(resting[i].limitPrice, resting[i].remaining.v)
    ensures r == CanFullyFill(TakerOf(incoming), incoming.remaining.v, 0.0, makers)
  {
    var available := 0.0;
    for i := 0 to |resting|
      invariant CanFullyFill(TakerOf(incoming), incoming.remaining.v, 0.0, makers)
             == CanFullyFill(TakerOf(incoming), incoming.remaining.v, available, makers[i..])
    {
      if !Crosses(TakerOf(incoming), resting[i].limitPrice) { return false; }
      available := available + resting[i].remaining.v;
      if available >= incoming.remaining.v { return true; }
      assert makers[i..][1..] == makers[i + 1..];
    }
    return false;
  }

  /** Moves qty from what is left to what is filled, on both orders. */
  method Trade(incoming: Order, maker: Order, qty: real)
    requires Separate(incoming, [maker])
    modifies incoming.remaining, incoming.filled, maker.remaining, maker.filled
    ensures incoming.remaining.v == old(incoming.remaining.v) - qty
    ensures incoming.filled.v == old(incoming.filled.v) + qty
    ensures maker.remaining.v == old(maker.remaining.v) - qty
    ensures maker.filled.v == old(maker.filled.v) + qty
  {
    assert maker in [maker];
    var q := new Rat(qty);
    incoming.remaining.Sub(incoming.remaining, q);
    incoming.filled.Add(incoming.filled, q);
    maker.remaining.Sub(maker.remaining, q);
    maker.filled.Add(maker.filled, q);
  }

  /** The loop has traded `fills`, maker by maker, as the sweep does. */
  ghost predicate Swept(t: Taker, rem: real, makers: seq<Maker>, fills: seq<real>) {
    fills == [] ||
    (var n := |fills| - 1;
     var left := rem - Sum(fills[..n]);
     && n < |makers|
     && Swept(t, rem, makers, fills[..n])
     && left != 0.0 && Crosses(t, makers[n].price) && fills[n] == Min(left, makers[n].remaining))
  }

  lemma {:induction false} SweptIsSweep(t: Taker, rem: real, makers: seq<Maker>, fills: seq<real>)
    requires Swept(t, rem, makers, fills)
    ensures |fills| <= |makers|
    ensures Sweep(t, rem, makers) == fills + Sweep(t, rem - Sum(fills), makers[|fills|..])
    decreases fills
  {
    if fills == [] {
      assert makers[0..] == makers;
      assert [] + Sweep(t, rem, makers) == Sweep(t, rem, makers);
    } else {
      var n := |fills| - 1;
      var left := rem - Sum(fills[..n]);
      SweptIsSweep(t, rem, makers, fills[..n]);
      assert fills == fills[..n] + [fills[n]];
      SumSnoc(fills[..n], fills[n]);
      assert makers[n..][1..] == makers[|fills|..];
      var rest := Sweep(t, left - fills[n], makers[|fills|..]);
      assert Sweep(t, left, makers[n..]) == [fills[n]] + rest;
      assert fills[..n] + ([fills[n]] + rest) == fills + rest;
    }
  }

  lemma SweptAll(t: Taker, rem: real, makers: seq<Maker>, fills: seq<real>)
    requires Swept(t, rem, makers, fills)
    requires |fills| < |makers| ==> Sum(fills) == rem || !Crosses(t, makers[|fills|].price)
    ensures |fills| <= |makers|
    ensures Sweep(t, rem, makers) == fills + Zeros(|makers| - |fills|)
    ensures Sum(Sweep(t, rem, makers)) == Sum(fills)
  {
    SweptIsSweep(t, rem, makers, fills);
    var rest := Sweep(t, rem - Sum(fills), makers[|fills|..]);
    assert rest == Zeros(|makers| - |fills|);
    SumConcat(fills, rest);
    SumZeros(rest);
  }

  lemma {:induction false} ZerosAddNothing(
      incoming: Order, orders: seq<Order>, done: seq<real>, fills: seq<real>, now: int)
    requires |done| <= |orders| == |fills| && done == fills[..|done|]
    requires forall i :: |done| <= i < |fills| ==> fills[i] == 0.0
    requires forall i :: 0 <= i < |fills| && fills[i] > 0.0 ==> orders[i].limitPrice.Some?
    ensures Touched(orders, fills) == Touched(orders[..|done|], done)
    ensures ExecutionsOf(incoming, orders, fills, now) == ExecutionsOf(incoming, orders[..|done|], done, now)
    decreases fills
  {
    if |done| == |fills| {
      assert done == fills && orders[..|done|] == orders;
    } else {
      var m := |fills| - 1;
      assert orders[..m][..|done|] == orders[..|done|] && fills[..m][..|done|] == done;
      ZerosAddNothing(incoming, orders[..m], done, fills[..m], now);
    }
  }

  /** Every order's remaining and filled quantity has moved by its fill; orders behind the last
      fill have not moved. */
  ghost predicate Moved(orders: seq<Order>, remainings: seq<real>, filleds: seq<real>, fills: seq<real>)
    requires |fills| <= |orders| == |remainings| == |filleds|
    reads Rats(orders)
  {
    forall i :: 0 <= i < |orders| ==>
      && orders[i].remaining.v == remainings[i] - (if i < |fills| then fills[i] else 0.0)
      && orders[i].filled.v == filleds[i] + (if i < |fills| then fills[i] else 0.0)
  }

  /** Trades with candidate i and leaves every other candidate alone. */
  method TradeWith(incoming: Order, candidates: seq<Order>, i: nat, qty: real,
                   ghost remainings: seq<real>, ghost filleds: seq<real>, ghost fills: seq<real>)
    requires Separate(incoming, candidates) && i < |candidates|
    requires i == |fills| && |candidates| == |remainings| == |filleds| && Moved(candidates, remainings, filleds, fills)
    modifies incoming.filled, incoming.remaining, Rats(candidates)
    ensures incoming.remaining.v == old(incoming.remaining.v) - qty
    ensures incoming.filled.v == old(incoming.filled.v) + qty
    ensures Moved(candidates, remainings, filleds, fills + [qty])
  {
    var maker := candidates[i];
    assert maker in candidates;
    Trade(incoming, maker, qty);
    forall k | 0 <= k < |candidates| && k != i
      ensures candidates[k].remaining.v == old(candidates[k].remaining.v)
      ensures candidates[k].filled.v == old(candidates[k].filled.v)
    {
      assert candidates[k] in candidates && candidates[k] != maker;
    }
  }

  /** The two result lists grow by the maker that traded. */
  lemma ListsGrow(incoming: Order, candidates: seq<Order>, fills: seq<real>, qty: real, now: int)
    requires |fills| < |candidates|
    requires forall i :: 0 <= i < |fills| && fills[i] > 0.0 ==> candidates[i].limitPrice.Some?
    requires qty > 0.0 ==> candidates[|fills|].limitPrice.Some?
    ensures var i := |fills|;
            && Touched(candidates[..i + 1], fills + [qty])
                 == Touched(candidates[..i], fills) + (if qty > 0.0 then [candidates[i]] else [])
            && (forall k :: 0 <= k < i + 1 && (fills + [qty])[k] > 0.0 ==> candidates[k].limitPrice.Some?)
            && ExecutionsOf(incoming, candidates[..i + 1], fills + [qty], now)
                 == ExecutionsOf(incoming, candidates[..i], fills, now)
                      + (if qty > 0.0 then [ExecutionOf(incoming, candidates[i], qty, now)] else [])
  {
    var i := |fills|;
    assert candidates[..i + 1][..i] == candidates[..i] && (fills + [qty])[..i] == fills;
  }

  /** Where the loop stands before maker i, against the quantities at its start. */
  ghost predicate Progress(incoming: Order, candidates: seq<Order>, rem: real, filled: real, makers: seq<Maker>,
                           filleds: seq<real>, fills: seq<real>, i: nat)
    reads incoming.remaining, incoming.filled, Rats(candidates)
  {
    && |makers| == |filleds| == |candidates|
    && i == |fills| <= |candidates|
    && Swept(TakerOf(incoming), rem, makers, fills)
    && incoming.remaining.v == rem - Sum(fills) && incoming.remaining.v >= 0.0
    && incoming.filled.v == filled + Sum(fills)
    && (forall k :: 0 <= k < |makers| ==> makers[k].price == candidates[k].limitPrice)
    && Moved(candidates, Offered(makers), filleds, fills)
    && (forall k :: 0 <= k < |fills| && fills[k] > 0.0 ==> candidates[k].limitPrice.Some?)
  }

  ghost function Offered(makers: seq<Maker>): (r: seq<real>)
    ensures |r| == |makers|
  {
    seq(|makers|, i requires 0 <= i < |makers| => makers[i].remaining)
  }

  /** One turn of the loop. */
  method Visit(incoming: Order, candidates: seq<Order>, i: nat, ghost rem: real, ghost filled: real,
               ghost makers: seq<Maker>, ghost filleds: seq<real>, ghost fills: seq<real>)
    returns (qty: real)
    requires Separate(incoming, candidates) && NonNegative(makers)
    requires Progress(incoming, candidates, rem, filled, makers, filleds, fills, i)
    requires i < |candidates| && incoming.remaining.v != 0.0 && Crosses(TakerOf(incoming), candidates[i].limitPrice)
    modifies incoming.filled, incoming.remaining, Rats(candidates)
    ensures Progress(incoming, candidates, rem, filled, makers, filleds, fills + [qty], i + 1)
    ensures qty >= 0.0
  {
    qty := Min(incoming.remaining.v, candidates[i].remaining.v);
    SumSnoc(fills, qty);
    assert (fills + [qty])[..i] == fills;
    assert Swept(TakerOf(incoming), rem, makers, fills + [qty]);
    if qty != 0.0 {
      TradeWith(incoming, candidates, i, qty, Offered(makers), filleds, fills);
    }
  }

  /** The values behind the pointers, order by order. */
  ghost predicate Snapshot(orders: seq<Order>, makers: seq<Maker>, filleds: seq<real>)
    reads Rats(orders)
  {
    && |makers| == |filleds| == |orders|
    && (forall i :: 0 <= i < |orders| ==> makers[i] == Maker(orders[i].limitPrice, orders[i].remaining.v))
    && (forall i :: 0 <= i < |orders| ==> filleds[i] == orders[i].filled.v)
  }

  method MatchLoop(
      incoming: Order, candidates: seq<Order>, now: int, ghost makers: seq<Maker>, ghost filleds: seq<real>)
    returns (resting: seq<Order>, executions: seq<Execution>, ghost fills: seq<real>)
    requires Separate(incoming, candidates) && Snapshot(candidates, makers, filleds)
    requires incoming.remaining.v >= 0.0 && NonNegative(makers)
    modifies incoming.filled, incoming.remaining, Rats(candidates)
    ensures fills == Sweep(TakerOf(incoming), old(incoming.remaining.v), makers)
    ensures |fills| == |candidates| && Moved(candidates, Offered(makers), filleds, fills)
    ensures incoming.remaining.v == old(incoming.remaining.v) - Sum(fills)
    ensures incoming.filled.v == old(incoming.filled.v) + Sum(fills)
    ensures forall i :: 0 <= i < |fills| && fills[i] > 0.0 ==> candidates[i].limitPrice.Some?
    ensures resting == Touched(candidates, fills)
    ensures executions == ExecutionsOf(incoming, candidates, fills, now)
  {
    ghost var rem, filled := incoming.remaining.v, incoming.filled.v;
    ghost var done;
    resting, executions, done := TradeLoop(incoming, candidates, now, rem, filled, makers, filleds);
    Finished(incoming, candidates, rem, filled, makers, filleds, done, |done|);
    fills := done + Zeros(|candidates| - |done|);
    ZerosAddNothing(incoming, candidates, done, fills, now);
  }

  method TradeLoop(incoming: Order, candidates: seq<Order>, now: int, ghost rem: real, ghost filled: real,
                   ghost makers: seq<Maker>, ghost filleds: seq<real>)
    returns (resting: seq<Order>, executions: seq<Execution>, ghost done: seq<real>)
    requires Separate(incoming, candidates) && NonNegative(makers)
    requires Progress(incoming, candidates, rem, filled, makers, filleds, [], 0)
    modifies incoming.filled, incoming.remaining, Rats(candidates)
    ensures Progress(incoming, candidates, rem, filled, makers, filleds, done, |done|)
    ensures |done| == |candidates| || incoming.remaining.v == 0.0
              || !Crosses(TakerOf(incoming), candidates[|done|].limitPrice)
    ensures resting == Touched(candidates[..|done|], done)
    ensures executions == ExecutionsOf(incoming, candidates[..|done|], done, now)
  {
    done := [];
    resting, executions := [], [];
    var i := 0;
    while i < |candidates|
      invariant 0 <= i <= |candidates|
      invariant Progress(incoming, candidates, rem, filled, makers, filleds, done, i)
      invariant resting == Touched(candidates[..i], done)
      invariant executions == ExecutionsOf(incoming, candidates[..i], done, now)
    {
      if incoming.remaining.v == 0.0 || !Crosses(TakerOf(incoming), candidates[i].limitPrice) { break; }
      var qty := Visit(incoming, candidates, i, rem, filled, makers, filleds, done);
      ListsGrow(incoming, candidates, done, qty, now);
      if qty != 0.0 {
        resting := resting + [candidates[i]];
        executions := executions + [ExecutionOf(incoming, candidates[i], qty, now)];
      }
      done := done + [qty];
      i := i + 1;
    }
  }

  /** When the loop stops, the makers it did not reach have traded nothing. */
  lemma Finished(incoming: Order, candidates: seq<Order>, rem: real, filled: real, makers: seq<Maker>,
                 filleds: seq<real>, done: seq<real>, i: nat)
    requires Progress(incoming, candidates, rem, filled, makers, filleds, done, i)
    requires i == |candidates| || incoming.remaining.v == 0.0 || !Crosses(TakerOf(incoming), candidates[i].limitPrice)
    ensures var fills := done + Zeros(|candidates| - i);
            && fills == Sweep(TakerOf(incoming), rem, makers)
            && Moved(candidates, Offered(makers), filleds, fills)
            && Sum(fills) == Sum(done)
            && (forall k :: 0 <= k < |fills| && fills[k] > 0.0 ==> candidates[k].limitPrice.Some?)
  {
    SweptAll(TakerOf(incoming), rem, makers, done);
  }

  // ----- the match -----

  function Opposite(side: Side): Side {
    if side.Buy? then Sell else Buy
  }

  /** The sorted side is ranked by price from the taker's point of view. */
  lemma RankedByPrice(incoming: Order, orders: seq<Order>, makers: seq<Maker>)
    requires Sortable(orders) && Ranked(Opposite(incoming.side), orders)
    requires |makers| == |orders| && forall i :: 0 <= i < |orders| ==> makers[i].price == orders[i].limitPrice
    ensures PriceRanked(TakerOf(incoming), makers)
  {}

  /** Part of the orders involves part of the quantities, and those of no other order. */
  lemma PartOnly(incoming: Order, orders: seq<Order>, part: seq<Order>)
    requires Separate(incoming, orders) && forall x <- part :: x in orders
    ensures Rats(part) <= Rats(orders)
    ensures forall x <- orders :: x !in part ==>
              {x.filled, x.remaining} !! Rats(part) + {incoming.filled, incoming.remaining}
  {}

  /** Sorting part of the orders neither shares nor repeats any. */
  lemma StillSeparate(incoming: Order, orders: seq<Order>, part: seq<Order>)
    requires Separate(incoming, orders) && multiset(part) <= multiset(orders)
    ensures Separate(incoming, part)
    ensures forall x <- part :: x in orders
  {
    forall x | x in part ensures x in orders { assert multiset(part)[x] > 0; }
    forall i, j | 0 <= i < j < |part| ensures part[i] != part[j] {
      if part[i] == part[j] {
        assert part == part[..j] + [part[j]] + part[j + 1..];
        assert part[i] == part[..j][i];
        assert multiset(part)[part[j]] >= 2;
        OnceEach(orders, part[j]);
      }
    }
  }

  lemma {:induction false} OnceEach(orders: seq<Order>, x: Order)
    requires forall i, j :: 0 <= i < j < |orders| ==> orders[i] != orders[j]
    ensures multiset(orders)[x] <= 1
  {
    if orders != [] {
      var n := |orders| - 1;
      assert orders == orders[..n] + [orders[n]];
      OnceEach(orders[..n], x);
      if orders[n] == x { assert x !in orders[..n]; }
    }
  }

  /** The book's opposite side, with the values its quantities have. */
  method RankedSide(incoming: Order, resting: seq<Order>)
    returns (candidates: seq<Order>, ghost makers: seq<Maker>, ghost filleds: seq<real>)
    requires Separate(incoming, resting) && forall x <- resting :: x.remaining.v >= 0.0
    requires Sortable(OfSide(resting, Buy)) && Sortable(OfSide(resting, Sell))
    ensures StablySorted(Opposite(incoming.side), OfSide(resting, Opposite(incoming.side)), candidates)
    ensures Separate(incoming, candidates) && Snapshot(candidates, makers, filleds) && NonNegative(makers)
    ensures PriceRanked(TakerOf(incoming), makers)
    ensures Rats(candidates) <= Rats(resting) && forall x <- candidates :: x in resting
    ensures forall x <- resting :: x !in candidates ==>
              {x.filled, x.remaining} !! Rats(candidates) + {incoming.filled, incoming.remaining}
  {
    var book := new Book(resting);
    candidates := book.RestingFor(incoming.side);
    makers, filleds := MakersOf(candidates), FilledsOf(candidates);
    SideFacts(incoming, resting, candidates, makers);
  }

  lemma SideFacts(incoming: Order, resting: seq<Order>, candidates: seq<Order>, makers: seq<Maker>)
    requires Separate(incoming, resting) && forall x <- resting :: x.remaining.v >= 0.0
    requires StablySorted(Opposite(incoming.side), OfSide(resting, Opposite(incoming.side)), candidates)
    requires makers == MakersOf(candidates)
    ensures Separate(incoming, candidates) && NonNegative(makers) && PriceRanked(TakerOf(incoming), makers)
    ensures Rats(candidates) <= Rats(resting) && forall x <- candidates :: x in resting
    ensures forall x <- resting :: x !in candidates ==>
              {x.filled, x.remaining} !! Rats(candidates) + {incoming.filled, incoming.remaining}
  {
    OfSideMembers(resting, Opposite(incoming.side));
    StillSeparate(incoming, resting, candidates);
    PartOnly(incoming, resting, candidates);
    forall k | 0 <= k < |makers| ensures makers[k].remaining >= 0.0 { assert candidates[k] in candidates; }
    RankedByPrice(incoming, candidates, makers);
  }

  /** Match an incoming order against the resting orders.

      The opposite side is ranked by price, then age; what trades with each maker is `Fills` of
      that ranking.  All quantities move accordingly, orders on the incoming side are not
      touched, and a killed fill-or-kill order reports the whole resting slice but changes no
      quantity. */
  method Match(incoming: Order, resting: seq<Order>, now: int)
    returns (result: Result, ghost ranked: seq<Order>, ghost makers: seq<Maker>, ghost filleds: seq<real>,
             ghost fills: seq<real>)
    requires Separate(incoming, resting)
    requires incoming.remaining.v >= 0.0 && forall x <- resting :: x.remaining.v >= 0.0
    requires Sortable(OfSide(resting, Buy)) && Sortable(OfSide(resting, Sell))
    modifies incoming.filled, incoming.remaining, Rats(resting)
    ensures StablySorted(Opposite(incoming.side), OfSide(resting, Opposite(incoming.side)), ranked)
    ensures forall i :: 0 <= i < |ranked| ==> ranked[i] in resting
    ensures |makers| == |filleds| == |fills| == |ranked|
    ensures forall i :: 0 <= i < |ranked| ==> makers[i] == Maker(ranked[i].limitPrice, old(ranked[i].remaining.v))
    ensures forall i :: 0 <= i < |ranked| ==> filleds[i] == old(ranked[i].filled.v)
    ensures PriceRanked(TakerOf(incoming), makers) && NonNegative(makers)
    ensures fills == Fills(TakerOf(incoming), old(incoming.remaining.v), makers)
    ensures Moved(ranked, Offered(makers), filleds, fills)
    ensures incoming.remaining.v == old(incoming.remaining.v) - Sum(fills)
    ensures incoming.filled.v == old(incoming.filled.v) + Sum(fills)
    ensures forall x <- resting :: x !in ranked ==> unchanged(x.remaining) && unchanged(x.filled)
    ensures forall i :: 0 <= i < |fills| && fills[i] > 0.0 ==> ranked[i].limitPrice.Some?
    ensures Reported(incoming, resting, ranked, now, Killed(TakerOf(incoming), old(incoming.remaining.v), makers),
                     incoming.remaining.v, fills, result)
    ensures Report(incoming, resting, ranked, makers, now, old(incoming.remaining.v), fills, result)
  {
    var candidates;
    candidates, makers, filleds := RankedSide(incoming, resting);
    ranked := candidates;
    result, fills := MatchRanked(incoming, resting, candidates, now, makers, filleds);
    forall x | x in resting && x !in ranked ensures unchanged(x.remaining) && unchanged(x.filled) {
      assert {x.filled, x.remaining} !! Rats(ranked) + {incoming.filled, incoming.remaining};
    }
  }

  /** What the engine reports. */
  ghost predicate Reported(incoming: Order, resting: seq<Order>, ranked: seq<Order>, now: int,
                           killed: bool, rem: real, fills: seq<real>, result: Result)
    requires |fills| == |ranked|
    requires forall i :: 0 <= i < |fills| && fills[i] > 0.0 ==> ranked[i].limitPrice.Some?
  {
    && result.incoming == incoming.(tif := Some(TakerOf(incoming).tif))
    && result.executions == ExecutionsOf(incoming, ranked, fills, now)
    && result.resting == (if killed then resting else Touched(ranked, fills))
    && result.cancelled == (killed || ShouldCancelRemainder(incoming.orderType, TakerOf(incoming).tif, rem))
    && result.rested == (rem > 0.0 && !result.cancelled)
  }

  /** What a match reports, whatever it was given. */
  ghost predicate Report(
      incoming: Order, resting: seq<Order>, ranked: seq<Order>, makers: seq<Maker>, now: int, rem: real,
      fills: seq<real>, result: Result) {
    && rem >= 0.0 && NonNegative(makers) && PriceRanked(TakerOf(incoming), makers)
    && |ranked| == |makers| == |fills| && (forall i :: 0 <= i < |ranked| ==> makers[i].price == ranked[i].limitPrice)
    && fills == Fills(TakerOf(incoming), rem, makers)
    && (forall i :: 0 <= i < |fills| && fills[i] > 0.0 ==> ranked[i].limitPrice.Some?)
    && Reported(incoming, resting, ranked, now, Killed(TakerOf(incoming), rem, makers), rem - Sum(fills), fills, result)
  }

  /** The kill check, then the loop. */
  method MatchRanked(incoming: Order, resting: seq<Order>, candidates: seq<Order>, now: int,
                     ghost makers: seq<Maker>, ghost filleds: seq<real>)
    returns (result: Result, ghost fills: seq<real>)
    requires Separate(incoming, candidates) && Snapshot(candidates, makers, filleds)
    requires incoming.remaining.v >= 0.0 && NonNegative(makers)
    modifies incoming.filled, incoming.remaining, Rats(candidates)
    ensures fills == Fills(TakerOf(incoming), old(incoming.remaining.v), makers)
    ensures |fills| == |candidates| && Moved(candidates, Offered(makers), filleds, fills)
    ensures incoming.remaining.v == old(incoming.remaining.v) - Sum(fills)
    ensures incoming.filled.v == old(incoming.filled.v) + Sum(fills)
    ensures forall i :: 0 <= i < |fills| && fills[i] > 0.0 ==> candidates[i].limitPrice.Some?
    ensures Reported(incoming, resting, candidates, now, Killed(TakerOf(incoming), old(incoming.remaining.v), makers),
                     incoming.remaining.v, fills, result)
  {
    var order := incoming.(tif := if incoming.tif.None? then Some(Day) else incoming.tif);
    if order.tif.value.FOK? {
      var enough := CanFullyFillLoop(order, candidates, makers);
      if !enough {
        fills := Zeros(|candidates|);
        SumZeros(fills);
        NoExecutions(incoming, candidates, fills, now);
        return Result(order, resting, [], false, true), fills;
      }
    }
    var touched, executions;
    touched, executions, fills := MatchLoop(order, candidates, now, makers, filleds);
    SameExecutions(incoming, order, candidates, fills, now);
    var cancelled := ShouldCancelRemainder(order.orderType, order.tif.value, order.remaining.v);
    result := Result(order, touched, executions, order.remaining.v > 0.0 && !cancelled, cancelled);
  }

  lemma {:induction false} NoExecutions(incoming: Order, orders: seq<Order>, fills: seq<real>, now: int)
    requires |orders| == |fills| && forall i :: 0 <= i < |fills| ==> fills[i] == 0.0
    ensures ExecutionsOf(incoming, orders, fills, now) == []
    decreases fills
  {
    if fills != [] {
      var n := |fills| - 1;
      NoExecutions(incoming, orders[..n], fills[..n], now);
    }
  }

  lemma {:induction false} SameExecutions(a: Order, b: Order, orders: seq<Order>, fills: seq<real>, now: int)
    requires |orders| == |fills| && b == a.(tif := b.tif)
    requires forall i :: 0 <= i < |fills| && fills[i] > 0.0 ==> orders[i].limitPrice.Some?
    ensures ExecutionsOf(a, orders, fills, now) == ExecutionsOf(b, orders, fills, now)
    decreases fills
  {
    if fills != [] {
      var n := |fills| - 1;
      SameExecutions(a, b, orders[..n], fills[..n], now);
    }
  }
}
