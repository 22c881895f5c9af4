/** Between the order table and the matching engine: rows are copied into fresh quantities, the
    engine moves those, and what it reports is what the table's own match says. */
module OrderCopies {
  import opened Options
  import opened OrderTypes
  import opened Sequences
  import opened Sums
  import opened MatchingSpec
  import opened OrderModel
  import opened OrderInvariants
  import B = MatchingBook
  import E = MatchingEngine

  // ----- rows and the engine's copies of them -----

  /** The engine's copy of row id. */
  ghost predicate Mirrors(x: B.Order, o: Order, id: nat)
    reads x.filled, x.remaining
  {
    && x.id == id && x.userID == o.userID && x.side == o.side && x.orderType == o.orderType && x.tif == Some(o.tif)
    && x.limitPrice == o.limit && x.createdAt == o.createdAt
    && x.filled.v == o.filled && x.remaining.v == o.remaining
  }

  /** The book query: the resting rows among the first n, in table order. */
  function RestingIds(orders: seq<Order>, id: nat, n: nat): (ids: seq<nat>)
    requires id < |orders| && n <= |orders|
    ensures forall i :: 0 <= i < |ids| ==> ids[i] < n && Resting(orders, id, ids[i])
    ensures forall i, k :: 0 <= i < k < |ids| ==> ids[i] < ids[k]
    ensures forall j :: 0 <= j < n && Resting(orders, id, j) ==> j in ids
  {
    if n == 0 then [] else RestingIds(orders, id, n - 1) + (if Resting(orders, id, n - 1) then [n - 1] else [])
  }

  ghost predicate Copies(orders: seq<Order>, ids: seq<nat>, copies: seq<B.Order>)
    reads E.Rats(copies)
  {
    && |copies| == |ids|
    && (forall i :: 0 <= i < |ids| ==> ids[i] < |orders| && Mirrors(copies[i], orders[ids[i]], ids[i]))
  }

  /** Quantities of different copies are different objects. */
  ghost predicate Unshared(resting: seq<B.Order>) {
    && (forall i :: 0 <= i < |resting| ==> resting[i].filled != resting[i].remaining)
    && (forall i, k :: 0 <= i < k < |resting| ==>
          {resting[i].filled, resting[i].remaining} !! {resting[k].filled, resting[k].remaining})
  }

  method FromDomain(o: Order, id: nat) returns (x: B.Order)
    ensures Mirrors(x, o, id) && fresh(x.filled) && fresh(x.remaining) && x.filled != x.remaining
  {
    var filled := new B.Rat(o.filled);
    var remaining := new B.Rat(o.remaining);
    x := B.Order(id, o.userID, o.side, o.orderType, Some(o.tif), o.limit, o.createdAt, filled, remaining);
  }

  method CopyRows(orders: seq<Order>, ids: seq<nat>) returns (copies: seq<B.Order>)
    requires forall i :: 0 <= i < |ids| ==> ids[i] < |orders|
    ensures Copies(orders, ids, copies) && Unshared(copies)
    ensures forall i :: 0 <= i < |copies| ==> fresh(copies[i].filled) && fresh(copies[i].remaining)
  {
    copies := [];
    for j := 0 to |ids|
      invariant |copies| == j
      invariant forall i :: 0 <= i < j ==> Mirrors(copies[i], orders[ids[i]], ids[i])
      invariant forall i :: 0 <= i < j ==> fresh(copies[i].filled) && fresh(copies[i].remaining)
      invariant Unshared(copies)
    {
      var x := FromDomain(orders[ids[j]], ids[j]);
      copies := copies + [x];
    }
  }

  // ----- the engine, run on the copies -----

  /** What a copy never changes, whatever happens to its quantities. */
  ghost predicate Stands(orders: seq<Order>, id: nat, x: B.Order)
    requires id < |orders|
  {
    && Resting(orders, id, x.id) && x.userID == orders[x.id].userID && x.side == orders[x.id].side
    && x.limitPrice == orders[x.id].limit && x.createdAt == orders[x.id].createdAt
  }

  /** The owner and the price of a copy are those of its row. */
  predicate OfRow(x: B.Order, o: Order) {
    x.limitPrice == o.limit && x.userID == o.userID
  }

  function IdsOf(s: seq<B.Order>): seq<nat> {
    Mapped(s, (x: B.Order) => x.id)
  }

  ghost predicate Ready(orders: seq<Order>, id: nat, resting: seq<B.Order>, incoming: B.Order)
    requires id < |orders|
    reads E.Rats(resting), incoming.filled, incoming.remaining
  {
    && Mirrors(incoming, orders[id], id) && incoming.remaining.v >= 0.0
    && E.Separate(incoming, resting)
    && (forall x <- resting ::
        Stands(orders, id, x) && x.filled.v == orders[x.id].filled && x.remaining.v == orders[x.id].remaining)
    && IdsOf(resting) == RestingIds(orders, id, |orders|)
    && B.OfSide(resting, E.Opposite(incoming.side)) == resting && B.OfSide(resting, incoming.side) == []
    && B.Sortable(resting)
  }

  /** Fresh copies of the book's rows meet the engine's preconditions. */
  lemma CopiesReady(
      orders: seq<Order>, id: nat, ids: seq<nat>, resting: seq<B.Order>, incoming: B.Order)
    requires id < |orders| && ids == RestingIds(orders, id, |orders|)
    requires Copies(orders, ids, resting) && Unshared(resting)
    requires Mirrors(incoming, orders[id], id) && incoming.remaining.v >= 0.0 && incoming.filled != incoming.remaining
    requires forall i :: 0 <= i < |resting| ==>
               {resting[i].filled, resting[i].remaining} !! {incoming.filled, incoming.remaining}
    requires |ids| > 1 ==> forall i :: 0 <= i < |ids| ==> orders[ids[i]].limit.Some?
    ensures Ready(orders, id, resting, incoming)
  {
    CopiesStand(orders, id, ids, resting);
    CopiesSortable(orders, ids, resting);
    UnsharedSeparate(resting, incoming);
    StandOpposite(orders, id, resting, incoming.side);
  }

  /** What rests for an order is all on the other side. */
  lemma StandOpposite(orders: seq<Order>, id: nat, resting: seq<B.Order>, side: Side)
    requires id < |orders| && side == orders[id].side && forall x <- resting :: Stands(orders, id, x)
    ensures B.OfSide(resting, E.Opposite(side)) == resting && B.OfSide(resting, side) == []
  {
    OneSided(resting, E.Opposite(side));
  }

  lemma CopiesSortable(orders: seq<Order>, ids: seq<nat>, resting: seq<B.Order>)
    requires (forall i :: 0 <= i < |ids| ==> ids[i] < |orders|) && Copies(orders, ids, resting)
    requires |ids| > 1 ==> forall i :: 0 <= i < |ids| ==> orders[ids[i]].limit.Some?
    ensures B.Sortable(resting)
  {}

  lemma CopiesStand(orders: seq<Order>, id: nat, ids: seq<nat>, resting: seq<B.Order>)
    requires id < |orders| && ids == RestingIds(orders, id, |orders|) && Copies(orders, ids, resting)
    ensures IdsOf(resting) == ids
    ensures forall x <- resting ::
              Stands(orders, id, x) && x.filled.v == orders[x.id].filled && x.remaining.v == orders[x.id].remaining
  {}

  lemma UnsharedSeparate(resting: seq<B.Order>, incoming: B.Order)
    requires Unshared(resting) && incoming.filled != incoming.remaining
    requires forall i :: 0 <= i < |resting| ==>
               {resting[i].filled, resting[i].remaining} !! {incoming.filled, incoming.remaining}
    ensures E.Separate(incoming, resting)
  {}

  lemma {:induction false} OneSided(resting: seq<B.Order>, side: Side)
    requires forall x <- resting :: x.side == side
    ensures B.OfSide(resting, side) == resting && B.OfSide(resting, E.Opposite(side)) == []
  {
    if resting != [] {
      var n := |resting| - 1;
      OneSided(resting[..n], side);
    }
  }

  /** The sorted copies name the candidates of the match, in their rank. */
  lemma {:induction false} RankedIsBook(
      orders: seq<Order>, id: nat, resting: seq<B.Order>, ranked: seq<B.Order>, side: Side, makers: seq<Maker>)
    requires id < |orders| && side != orders[id].side
    requires forall x <- resting :: Stands(orders, id, x)
    requires IdsOf(resting) == RestingIds(orders, id, |orders|)
    requires B.StablySorted(side, resting, ranked) && |makers| == |ranked|
    requires forall i :: 0 <= i < |ranked| ==> ranked[i] in resting
    requires forall i :: 0 <= i < |ranked| ==>
               ranked[i].id < |orders| && makers[i] == Maker(ranked[i].limitPrice, orders[ranked[i].id].remaining)
    requires PriceRanked(TakerOf(orders[id]), makers)
    requires forall i, k :: 0 <= i < k < |ranked| ==> ranked[i] != ranked[k]
    ensures Book(orders, id, IdsOf(ranked)) && MakersOf(orders, IdsOf(ranked)) == makers
  {
    var candidates := IdsOf(ranked);
    forall i | 0 <= i < |ranked| ensures Stands(orders, id, ranked[i]) { assert ranked[i] in resting; }
    assert MakersOf(orders, candidates) == makers;
    forall i, k | 0 <= i < k < |candidates| ensures candidates[i] != candidates[k] {
      DistinctIds(orders, id, resting, ranked[i], ranked[k]);
    }
    forall j | 0 <= j < |orders| && Resting(orders, id, j) ensures j in candidates {
      RestingIsRanked(orders, id, resting, ranked, j);
    }
    OldestFirst(ranked, side);
  }

  lemma RestingIsRanked(orders: seq<Order>, id: nat, resting: seq<B.Order>, ranked: seq<B.Order>, j: nat)
    requires id < |orders| && j < |orders| && Resting(orders, id, j)
    requires IdsOf(resting) == RestingIds(orders, id, |orders|) && multiset(ranked) == multiset(resting)
    ensures j in IdsOf(ranked)
  {
    var a :| 0 <= a < |resting| && IdsOf(resting)[a] == j;
    assert resting[a] in multiset(resting) && resting[a] in multiset(ranked);
    var b :| 0 <= b < |ranked| && ranked[b] == resting[a];
    assert IdsOf(ranked)[b] == j;
  }

  lemma OldestFirst(ranked: seq<B.Order>, side: Side)
    requires B.Sortable(ranked) && B.Ranked(side, ranked)
    ensures forall i, k :: 0 <= i < k < |ranked| && ranked[i].limitPrice == ranked[k].limitPrice ==>
              ranked[i].createdAt <= ranked[k].createdAt
  {}

  lemma DistinctIds(orders: seq<Order>, id: nat, resting: seq<B.Order>, x: B.Order, y: B.Order)
    requires id < |orders| && IdsOf(resting) == RestingIds(orders, id, |orders|)
    requires x in resting && y in resting && x != y
    ensures x.id != y.id
  {}

  /** Every copy has moved by its fill. */
  ghost predicate Settled(orders: seq<Order>, ranked: seq<B.Order>, fills: seq<real>)
    reads E.Rats(ranked)
  {
    && |fills| == |ranked|
    && (forall i :: 0 <= i < |ranked| ==>
          && ranked[i].id < |orders| && OfRow(ranked[i], orders[ranked[i].id])
          && ranked[i].filled.v == orders[ranked[i].id].filled + fills[i]
          && ranked[i].remaining.v == orders[ranked[i].id].remaining - fills[i])
  }

  /** The candidates, the fills and whether the order was killed, as the table's own match has them. */
  ghost predicate IsMatch(orders: seq<Order>, id: nat, candidates: seq<nat>, fills: seq<real>, killed: bool)
    requires id < |orders|
  {
    && Book(orders, id, candidates)
    && fills == Fills(TakerOf(orders[id]), orders[id].remaining, MakersOf(orders, candidates))
    && killed == Killed(TakerOf(orders[id]), orders[id].remaining, MakersOf(orders, candidates))
  }

  method MatchCopies(orders: seq<Order>, id: nat, resting: seq<B.Order>, incoming: B.Order, now: int)
    returns (result: E.Result, ghost ranked: seq<B.Order>, ghost fills: seq<real>, ghost killed: bool)
    requires id < |orders| && Ready(orders, id, resting, incoming)
    modifies incoming.filled, incoming.remaining, E.Rats(resting)
    ensures multiset(ranked) == multiset(resting)
    ensures IsMatch(orders, id, IdsOf(ranked), fills, killed)
    ensures Settled(orders, ranked, fills)
    ensures incoming.filled.v == orders[id].filled + Sum(fills)
    ensures incoming.remaining.v == orders[id].remaining - Sum(fills)
    ensures forall i :: 0 <= i < |fills| && fills[i] > 0.0 ==> ranked[i].limitPrice.Some?
    ensures E.Reported(incoming, resting, ranked, now, killed, incoming.remaining.v, fills, result)
  {
    ghost var makers;
    result, ranked, makers, fills, killed := MatchReady(orders, id, resting, incoming, now);
    RankedIsBook(orders, id, resting, ranked, E.Opposite(incoming.side), makers);
  }

  lemma StillDistinct(incoming: B.Order, resting: seq<B.Order>, ranked: seq<B.Order>)
    requires E.Separate(incoming, resting) && multiset(ranked) == multiset(resting)
    ensures forall i, k :: 0 <= i < k < |ranked| ==> ranked[i] != ranked[k]
  {
    E.StillSeparate(incoming, resting, ranked);
  }

  lemma MovedIsSettled(
      orders: seq<Order>, ranked: seq<B.Order>, makers: seq<Maker>, filleds: seq<real>, fills: seq<real>)
    requires |makers| == |filleds| == |fills| == |ranked|
    requires forall i :: 0 <= i < |ranked| ==>
               && ranked[i].id < |orders| && OfRow(ranked[i], orders[ranked[i].id])
               && makers[i].remaining == orders[ranked[i].id].remaining && filleds[i] == orders[ranked[i].id].filled
    requires E.Moved(ranked, E.Offered(makers), filleds, fills)
    ensures Settled(orders, ranked, fills)
  {}

  method MatchReady(orders: seq<Order>, id: nat, resting: seq<B.Order>, incoming: B.Order, now: int)
    returns (result: E.Result, ghost ranked: seq<B.Order>, ghost makers: seq<Maker>, ghost fills: seq<real>,
             ghost killed: bool)
    requires id < |orders| && Ready(orders, id, resting, incoming)
    modifies incoming.filled, incoming.remaining, E.Rats(resting)
    ensures B.StablySorted(E.Opposite(incoming.side), resting, ranked) && |makers| == |ranked|
    ensures forall i :: 0 <= i < |ranked| ==>
              && ranked[i] in resting && ranked[i].id < |orders|
              && makers[i] == Maker(ranked[i].limitPrice, orders[ranked[i].id].remaining)
    ensures forall i, k :: 0 <= i < k < |ranked| ==> ranked[i] != ranked[k]
    ensures PriceRanked(TakerOf(orders[id]), makers)
    ensures fills == Fills(TakerOf(orders[id]), orders[id].remaining, makers)
    ensures killed == Killed(TakerOf(orders[id]), orders[id].remaining, makers)
    ensures Settled(orders, ranked, fills)
    ensures incoming.filled.v == orders[id].filled + Sum(fills)
    ensures incoming.remaining.v == orders[id].remaining - Sum(fills)
    ensures forall i :: 0 <= i < |fills| && fills[i] > 0.0 ==> ranked[i].limitPrice.Some?
    ensures E.Reported(incoming, resting, ranked, now, killed, incoming.remaining.v, fills, result)
  {
    ghost var filleds;
    result, ranked, makers, filleds, fills := E.Match(incoming, resting, now);
    forall i | 0 <= i < |ranked|
      ensures ranked[i].id < |orders| && OfRow(ranked[i], orders[ranked[i].id])
      ensures makers[i] == Maker(ranked[i].limitPrice, orders[ranked[i].id].remaining)
      ensures filleds[i] == orders[ranked[i].id].filled
    {
      assert ranked[i] in resting && Stands(orders, id, ranked[i]);
    }
    MovedIsSettled(orders, ranked, makers, filleds, fills);
    killed := Killed(TakerOf(orders[id]), orders[id].remaining, makers);
    StillDistinct(incoming, resting, ranked);
  }

  // ----- what the engine reports, in rows -----

  function RowsOf(execs: seq<E.Execution>): (rows: seq<Execution>)
    ensures |rows| == |execs|
  {
    seq(|execs|, i requires 0 <= i < |execs| =>
      Execution(execs[i].buyOrderID, execs[i].sellOrderID, execs[i].buyerUserID, execs[i].sellerUserID,
                execs[i].quantity, execs[i].price))
  }

  lemma {:induction false} ExecutionsSnoc(
      orders: seq<Order>, id: nat, candidates: seq<nat>, fills: seq<real>, c: nat, qty: real)
    requires id < |orders| && |candidates| == |fills| && c < |orders|
    requires forall i :: 0 <= i < |candidates| ==> candidates[i] < |orders|
    ensures ExecutionsOf(orders, id, candidates + [c], fills + [qty])
         == ExecutionsOf(orders, id, candidates, fills) + ExecutionsOf(orders, id, [c], [qty])
    decreases candidates
  {
    if candidates == [] {
      assert candidates + [c] == [c] && fills + [qty] == [qty];
    } else {
      assert (candidates + [c])[1..] == candidates[1..] + [c] && (fills + [qty])[1..] == fills[1..] + [qty];
      ExecutionsSnoc(orders, id, candidates[1..], fills[1..], c, qty);
      var head := if fills[0] > 0.0 then [ExecutionRow(orders, id, candidates[0], fills[0])] else [];
      Reassociate(head, ExecutionsOf(orders, id, candidates[1..], fills[1..]), ExecutionsOf(orders, id, [c], [qty]));
    }
  }

  /** The engine's executions are the rows the table's match adds. */
  lemma {:induction false} SameRows(
      orders: seq<Order>, id: nat, incoming: B.Order, ranked: seq<B.Order>, fills: seq<real>, now: int)
    requires id < |orders| && incoming.id == id && |ranked| == |fills|
    requires incoming.side == orders[id].side && incoming.userID == orders[id].userID
    requires forall i :: 0 <= i < |ranked| ==>
               ranked[i].id < |orders| && OfRow(ranked[i], orders[ranked[i].id])
    requires forall i :: 0 <= i < |fills| && fills[i] > 0.0 ==> ranked[i].limitPrice.Some?
    ensures RowsOf(E.ExecutionsOf(incoming, ranked, fills, now)) == ExecutionsOf(orders, id, IdsOf(ranked), fills)
    decreases fills
  {
    if fills != [] {
      var n := |fills| - 1;
      SameRows(orders, id, incoming, ranked[..n], fills[..n], now);
      assert IdsOf(ranked) == IdsOf(ranked[..n]) + [ranked[n].id] && fills == fills[..n] + [fills[n]];
      ExecutionsSnoc(orders, id, IdsOf(ranked[..n]), fills[..n], ranked[n].id, fills[n]);
      LastRow(orders, id, incoming, ranked[n], fills[n], now);
      RowsConcat(E.ExecutionsOf(incoming, ranked[..n], fills[..n], now),
                 if fills[n] > 0.0 then [E.ExecutionOf(incoming, ranked[n], fills[n], now)] else []);
    }
  }

  lemma RowsConcat(xs: seq<E.Execution>, ys: seq<E.Execution>)
    ensures RowsOf(xs + ys) == RowsOf(xs) + RowsOf(ys)
  {}

  lemma LastRow(orders: seq<Order>, id: nat, incoming: B.Order, maker: B.Order, qty: real, now: int)
    requires id < |orders| && incoming.id == id
    requires incoming.side == orders[id].side && incoming.userID == orders[id].userID
    requires maker.id < |orders| && OfRow(maker, orders[maker.id]) && (qty > 0.0 ==> maker.limitPrice.Some?)
    ensures ExecutionsOf(orders, id, [maker.id], [qty])
         == RowsOf(if qty > 0.0 then [E.ExecutionOf(incoming, maker, qty, now)] else [])
  {}

  ghost predicate Distinct(rest: seq<B.Order>) {
    forall i, k :: 0 <= i < k < |rest| ==> rest[i].id != rest[k].id
  }

  lemma OneMoreDistinct(rest: seq<B.Order>, x: B.Order)
    requires Distinct(rest) && forall y <- rest :: y.id != x.id
    ensures Distinct(rest + [x])
  {
    forall i, k | 0 <= i < k < |rest + [x]| ensures (rest + [x])[i].id != (rest + [x])[k].id {
      assert rest[i] in rest;
    }
  }

  lemma {:induction false} TouchedIn(ranked: seq<B.Order>, fills: seq<real>, i: nat)
    requires |ranked| == |fills| && i < |ranked| && fills[i] > 0.0
    ensures ranked[i] in E.Touched(ranked, fills)
    decreases fills
  {
    var n := |fills| - 1;
    if i < n {
      TouchedIn(ranked[..n], fills[..n], i);
      assert ranked[..n][i] == ranked[i];
    }
  }

  lemma {:induction false} TouchedFrom(ranked: seq<B.Order>, fills: seq<real>, x: B.Order) returns (i: nat)
    requires |ranked| == |fills| && x in E.Touched(ranked, fills)
    ensures i < |ranked| && fills[i] > 0.0 && ranked[i] == x
    decreases fills
  {
    var n := |fills| - 1;
    if x in E.Touched(ranked[..n], fills[..n]) {
      i := TouchedFrom(ranked[..n], fills[..n], x);
    } else {
      i := n;
    }
  }

  lemma {:induction false} TouchedDistinct(ranked: seq<B.Order>, fills: seq<real>)
    requires |ranked| == |fills| && Distinct(ranked)
    ensures Distinct(E.Touched(ranked, fills))
    decreases fills
  {
    if fills != [] {
      var n := |fills| - 1;
      var u := E.Touched(ranked[..n], fills[..n]);
      TouchedDistinct(ranked[..n], fills[..n]);
      forall x | x in u ensures x.id != ranked[n].id {
        var i := TouchedFrom(ranked[..n], fills[..n], x);
        assert ranked[i] == x;
      }
      OneMoreDistinct(u, ranked[n]);
    }
  }

  lemma TouchedMeans(ranked: seq<B.Order>, fills: seq<real>)
    requires |ranked| == |fills| && Distinct(ranked)
    ensures forall i :: 0 <= i < |ranked| && fills[i] > 0.0 ==> ranked[i] in E.Touched(ranked, fills)
    ensures forall x <- E.Touched(ranked, fills) :: exists i :: 0 <= i < |ranked| && fills[i] > 0.0 && ranked[i] == x
    ensures Distinct(E.Touched(ranked, fills))
  {
    forall i | 0 <= i < |ranked| && fills[i] > 0.0 ensures ranked[i] in E.Touched(ranked, fills) {
      TouchedIn(ranked, fills, i);
    }
    forall x | x in E.Touched(ranked, fills)
      ensures exists i :: 0 <= i < |ranked| && fills[i] > 0.0 && ranked[i] == x
    {
      var i := TouchedFrom(ranked, fills, x);
    }
    TouchedDistinct(ranked, fills);
  }

  /** The copy ends with the quantities its row is to have. */
  ghost predicate EndsAs(orders: seq<Order>, id: nat, candidates: seq<nat>, fills: seq<real>, killed: bool, x: B.Order)
    requires id < |orders| && |fills| == |candidates| && x.id < |orders|
    reads x.filled, x.remaining
  {
    var c := ChangeOf(orders, id, candidates, fills, killed, x.id);
    c.written && x.filled.v == orders[x.id].filled + c.qty && x.remaining.v == orders[x.id].remaining - c.qty
  }

  ghost predicate AllEnd(
      orders: seq<Order>, id: nat, candidates: seq<nat>, fills: seq<real>, killed: bool, rest: seq<B.Order>)
    requires id < |orders| && |fills| == |candidates|
    reads E.Rats(rest)
  {
    forall i :: 0 <= i < |rest| ==>
      rest[i].id < |orders| && rest[i].id != id && EndsAs(orders, id, candidates, fills, killed, rest[i])
  }

  ghost predicate NoneMissing(
      orders: seq<Order>, id: nat, candidates: seq<nat>, fills: seq<real>, killed: bool, rest: seq<B.Order>)
    requires id < |orders| && |fills| == |candidates|
  {
    forall j :: 0 <= j < |orders| && j != id && ChangeOf(orders, id, candidates, fills, killed, j).written ==>
      exists i :: 0 <= i < |rest| && rest[i].id == j
  }

  /** The reported copies are exactly the rows to be written back, each once, with the quantities
      those rows end with. */
  lemma ReportedRows(
      orders: seq<Order>, id: nat, resting: seq<B.Order>, ranked: seq<B.Order>, fills: seq<real>, killed: bool,
      rest: seq<B.Order>)
    requires id < |orders| && Book(orders, id, IdsOf(ranked))
    requires multiset(ranked) == multiset(resting) && Settled(orders, ranked, fills)
    requires Distinct(resting) && rest == if killed then resting else E.Touched(ranked, fills)
    ensures && Distinct(rest)
            && AllEnd(orders, id, IdsOf(ranked), fills, killed, rest)
            && NoneMissing(orders, id, IdsOf(ranked), fills, killed, rest)
  {
    WhoIsReported(orders, id, resting, ranked, fills, killed);
    ReportedEnd(orders, id, ranked, fills, killed, rest);
    forall j | 0 <= j < |orders| && j != id && ChangeOf(orders, id, IdsOf(ranked), fills, killed, j).written
      ensures exists i :: 0 <= i < |rest| && rest[i].id == j
    {
      WrittenIsReported(orders, id, ranked, fills, killed, rest, j);
    }
  }

  lemma ReportedEnd(
      orders: seq<Order>, id: nat, ranked: seq<B.Order>, fills: seq<real>, killed: bool, rest: seq<B.Order>)
    requires id < |orders| && Book(orders, id, IdsOf(ranked)) && Settled(orders, ranked, fills)
    requires forall x <- rest :: exists k :: 0 <= k < |ranked| && ranked[k] == x && (killed || fills[k] > 0.0)
    ensures AllEnd(orders, id, IdsOf(ranked), fills, killed, rest)
  {
    forall i | 0 <= i < |rest|
      ensures rest[i].id < |orders| && rest[i].id != id
      ensures EndsAs(orders, id, IdsOf(ranked), fills, killed, rest[i])
    {
      assert rest[i] in rest;
      var k :| 0 <= k < |ranked| && ranked[k] == rest[i] && (killed || fills[k] > 0.0);
      OneEnds(orders, id, ranked, fills, killed, k);
    }
  }

  lemma WrittenIsReported(
      orders: seq<Order>, id: nat, ranked: seq<B.Order>, fills: seq<real>, killed: bool, rest: seq<B.Order>, j: nat)
    requires id < |orders| && Book(orders, id, IdsOf(ranked)) && |fills| == |ranked| && j != id
    requires ChangeOf(orders, id, IdsOf(ranked), fills, killed, j).written
    requires forall k :: 0 <= k < |ranked| && (killed || fills[k] > 0.0) ==> ranked[k] in rest
    ensures exists i :: 0 <= i < |rest| && rest[i].id == j
  {
    var k := WrittenIsRanked(orders, id, ranked, fills, killed, j);
    assert ranked[k] in rest;
  }

  lemma WhoIsReported(
      orders: seq<Order>, id: nat, resting: seq<B.Order>, ranked: seq<B.Order>, fills: seq<real>, killed: bool)
    requires id < |orders| && Book(orders, id, IdsOf(ranked)) && |fills| == |ranked|
    requires multiset(ranked) == multiset(resting) && Distinct(resting)
    ensures var rest := if killed then resting else E.Touched(ranked, fills);
            && Distinct(rest)
            && (forall x <- rest :: exists k :: 0 <= k < |ranked| && ranked[k] == x && (killed || fills[k] > 0.0))
            && (forall k :: 0 <= k < |ranked| && (killed || fills[k] > 0.0) ==> ranked[k] in rest)
  {
    if killed {
      forall x | x in resting ensures exists k :: 0 <= k < |ranked| && ranked[k] == x {
        assert x in multiset(resting) && x in multiset(ranked);
      }
      forall k | 0 <= k < |ranked| ensures ranked[k] in resting {
        assert ranked[k] in multiset(ranked) && ranked[k] in multiset(resting);
      }
    } else {
      forall i, k | 0 <= i < k < |ranked| ensures ranked[i].id != ranked[k].id {
        assert IdsOf(ranked)[i] != IdsOf(ranked)[k];
      }
      TouchedMeans(ranked, fills);
    }
  }

  lemma WrittenIsRanked(orders: seq<Order>, id: nat, ranked: seq<B.Order>, fills: seq<real>, killed: bool, j: nat)
    returns (k: nat)
    requires id < |orders| && Book(orders, id, IdsOf(ranked)) && |fills| == |ranked| && j != id
    requires ChangeOf(orders, id, IdsOf(ranked), fills, killed, j).written
    ensures k < |ranked| && ranked[k].id == j && (killed || fills[k] > 0.0)
  {
    k :| 0 <= k < |ranked| && IdsOf(ranked)[k] == j;
    FillOfMember(IdsOf(ranked), fills, k);
  }

  lemma OneEnds(orders: seq<Order>, id: nat, ranked: seq<B.Order>, fills: seq<real>, killed: bool, k: nat)
    requires id < |orders| && Book(orders, id, IdsOf(ranked)) && Settled(orders, ranked, fills)
    requires k < |ranked| && (killed || fills[k] > 0.0)
    ensures ranked[k].id != id && EndsAs(orders, id, IdsOf(ranked), fills, killed, ranked[k])
  {
    assert Resting(orders, id, IdsOf(ranked)[k]);
    FillOfMember(IdsOf(ranked), fills, k);
    assert ranked[k].id in IdsOf(ranked);
  }

  /** The engine reports an execution exactly when something was traded, and prices that are all
      positive exactly when the table accepts the match. */
  lemma {:induction false} ReportedPrices(incoming: B.Order, ranked: seq<B.Order>, fills: seq<real>, now: int)
    requires |ranked| == |fills| && forall i :: 0 <= i < |fills| ==> fills[i] >= 0.0
    requires forall i :: 0 <= i < |fills| && fills[i] > 0.0 ==> ranked[i].limitPrice.Some?
    ensures var execs := E.ExecutionsOf(incoming, ranked, fills, now);
            && (execs == [] <==> Sum(fills) == 0.0) && Sum(fills) >= 0.0
            && ((forall e <- execs :: e.price > 0.0) <==>
                (forall i :: 0 <= i < |fills| && fills[i] > 0.0 ==> Positive(ranked[i].limitPrice)))
    decreases fills
  {
    if fills != [] {
      var n := |fills| - 1;
      ReportedPrices(incoming, ranked[..n], fills[..n], now);
      assert fills == fills[..n] + [fills[n]];
      SumSnoc(fills[..n], fills[n]);
      var before := E.ExecutionsOf(incoming, ranked[..n], fills[..n], now);
      var execs := E.ExecutionsOf(incoming, ranked, fills, now);
      assert forall e <- before :: e in execs;
      if fills[n] > 0.0 { assert execs[|before|] in execs; }
      assert forall i :: 0 <= i < n ==> ranked[..n][i] == ranked[i] && fills[..n][i] == fills[i];
    }
  }
}
