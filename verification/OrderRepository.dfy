/** The order repository as the program it is: transactions that read rows, run the matching
    engine on fresh copies of their quantities, and write rows back one by one.  Every method is
    proved to do what one step, or one run of steps, of the order table does. */
module OrderRepository {
  import opened Options
  import opened OrderTypes
  import opened Sums
  import opened MatchingSpec
  import opened OrderModel
  import opened OrderInvariants
  import opened OrderCopies
  import opened OrderBatches
  import opened OrderSteps
  import opened Selection
  import B = MatchingBook
  import E = MatchingEngine
  import L = OrderLiveness

  /** The rows to be written back for other orders: which they are, and what is put there. */
  ghost predicate Pending(orders: seq<Order>, id: nat, candidates: seq<nat>, fills: seq<real>, killed: bool,
                          ids: seq<nat>, changed: seq<Order>)
    requires id < |orders| && |fills| == |candidates|
  {
    && |changed| == |ids| && NoDuplicates(ids)
    && (forall i :: 0 <= i < |ids| ==>
          && ids[i] < |orders| && ids[i] != id
          && ChangeOf(orders, id, candidates, fills, killed, ids[i]).written
          && changed[i] == Moved(orders[ids[i]], ChangeOf(orders, id, candidates, fills, killed, ids[i])))
    && (forall j :: 0 <= j < |orders| && j != id && ChangeOf(orders, id, candidates, fills, killed, j).written ==>
        j in ids)
  }

  function Moved(o: Order, c: Change): Order {
    AfterFill(o, o.filled + c.qty, o.remaining - c.qty, c.cancelled)
  }

  /** What writing rows back leaves in the table. */
  ghost predicate Written(
      was: seq<Order>, orders: seq<Order>, ids: seq<nat>, changed: seq<Order>, execs: seq<Execution>)
    requires |ids| <= |changed|
  {
    && |orders| == |was|
    && (forall i :: 0 <= i < |ids| ==> ids[i] < |orders| && orders[ids[i]] == Persisted(changed[i], ids[i], execs))
    && (forall j :: 0 <= j < |orders| && j !in ids ==> orders[j] == was[j])
  }

  lemma PendingFromCopies(
      orders: seq<Order>, id: nat, candidates: seq<nat>, fills: seq<real>, killed: bool, rest: seq<B.Order>,
      changed: seq<Order>)
    requires id < |orders| && |fills| == |candidates| && |changed| == |rest|
    requires Distinct(rest) && AllEnd(orders, id, candidates, fills, killed, rest)
             && NoneMissing(orders, id, candidates, fills, killed, rest)
    requires forall i :: 0 <= i < |rest| ==>
               changed[i] == AfterFill(orders[rest[i].id], rest[i].filled.v, rest[i].remaining.v, false)
    ensures Pending(orders, id, candidates, fills, killed, IdsOf(rest), changed)
  {
    var ids := IdsOf(rest);
    forall i | 0 <= i < |ids|
      ensures ids[i] < |orders| && ids[i] != id && ChangeOf(orders, id, candidates, fills, killed, ids[i]).written
      ensures changed[i] == Moved(orders[ids[i]], ChangeOf(orders, id, candidates, fills, killed, ids[i]))
    {
      assert EndsAs(orders, id, candidates, fills, killed, rest[i]);
    }
    DistinctRowIds(rest);
    NoneMissingIds(orders, id, candidates, fills, killed, rest);
  }

  lemma DistinctRowIds(rest: seq<B.Order>)
    requires Distinct(rest)
    ensures NoDuplicates(IdsOf(rest))
  {}

  lemma NoneMissingIds(
      orders: seq<Order>, id: nat, candidates: seq<nat>, fills: seq<real>, killed: bool, rest: seq<B.Order>)
    requires id < |orders| && |fills| == |candidates| && NoneMissing(orders, id, candidates, fills, killed, rest)
    ensures forall j :: 0 <= j < |orders| && j != id && ChangeOf(orders, id, candidates, fills, killed, j).written ==>
              j in IdsOf(rest)
  {}

  /** The rows of the reported copies as they are to be. */
  method LoadChanged(orders: seq<Order>, rest: seq<B.Order>) returns (changed: seq<Order>)
    requires forall i :: 0 <= i < |rest| ==> rest[i].id < |orders|
    ensures |changed| == |rest|
    ensures forall i :: 0 <= i < |rest| ==>
              changed[i] == AfterFill(orders[rest[i].id], rest[i].filled.v, rest[i].remaining.v, false)
  {
    changed := [];
    for n := 0 to |rest|
      invariant |changed| == n
      invariant forall i :: 0 <= i < n ==>
                  changed[i] == AfterFill(orders[rest[i].id], rest[i].filled.v, rest[i].remaining.v, false)
    {
      var row := UpdateOrderLifecycleFromFill(orders[rest[n].id], rest[n], false);
      changed := changed + [row];
    }
  }

  method UpdateOrderLifecycleFromFill(o: Order, matched: B.Order, cancelled: bool) returns (r: Order)
    ensures r == AfterFill(o, matched.filled.v, matched.remaining.v, cancelled)
  {
    r := o.(filled := matched.filled.v);
    if cancelled {
      return r.(remaining := 0.0, status := Cancelled);
    }
    r := r.(remaining := matched.remaining.v);
    if r.filled > 0.0 {
      r := r.(status := if r.remaining == 0.0 then Filled else PartiallyFilled);
    }
  }

  /** What the engine's run leaves to be written: executions, other rows, the incoming row. */
  datatype Outcome = Outcome(execs: seq<E.Execution>, ids: seq<nat>, changed: seq<Order>, row: Order, cancelled: bool)

  ghost predicate Settles(
      orders: seq<Order>, id: nat, candidates: seq<nat>, fills: seq<real>, killed: bool, out: Outcome)
    requires id < |orders| && IsMatch(orders, id, candidates, fills, killed)
  {
    && Pending(orders, id, candidates, fills, killed, out.ids, out.changed)
    && ExecutionsStored(orders, id, candidates, fills, out.execs)
    && IncomingStored(orders[id], ChangeOf(orders, id, candidates, fills, killed, id), out)
  }

  /** The reported executions are the table's, and acceptable exactly when the match commits. */
  ghost predicate ExecutionsStored(
      orders: seq<Order>, id: nat, candidates: seq<nat>, fills: seq<real>, execs: seq<E.Execution>)
    requires id < |orders| && Book(orders, id, candidates) && |fills| == |candidates|
  {
    && RowsOf(execs) == ExecutionsOf(orders, id, candidates, fills)
    && ((forall e <- execs :: e.price > 0.0) <==> Commits(orders, id, candidates))
  }

  /** The incoming row, and when it is written. */
  ghost predicate IncomingStored(o: Order, c: Change, out: Outcome) {
    out.row == Moved(o, c) && (out.execs != [] || out.cancelled <==> c.written)
  }

  /** The rows as they are to be, read from the table as it still is. */
  method Collect(orders: seq<Order>, id: nat, result: E.Result) returns (out: Outcome)
    requires id < |orders| && forall i :: 0 <= i < |result.resting| ==> result.resting[i].id < |orders|
    ensures out.execs == result.executions && out.ids == IdsOf(result.resting) && out.cancelled == result.cancelled
    ensures out.row == AfterFill(orders[id], result.incoming.filled.v, result.incoming.remaining.v, result.cancelled)
    ensures |out.changed| == |result.resting|
    ensures forall i :: 0 <= i < |result.resting| ==>
              out.changed[i] == AfterFill(orders[result.resting[i].id], result.resting[i].filled.v,
                                          result.resting[i].remaining.v, false)
  {
    var row := UpdateOrderLifecycleFromFill(orders[id], result.incoming, result.cancelled);
    var changed := LoadChanged(orders, result.resting);
    out := Outcome(result.executions, IdsOf(result.resting), changed, row, result.cancelled);
  }

  method RunEngine(orders: seq<Order>, id: nat, resting: seq<B.Order>, incoming: B.Order, now: int)
    returns (out: Outcome, ghost candidates: seq<nat>, ghost fills: seq<real>, ghost killed: bool)
    requires id < |orders| && Ready(orders, id, resting, incoming)
    modifies incoming.filled, incoming.remaining, E.Rats(resting)
    ensures IsMatch(orders, id, candidates, fills, killed)
    ensures Settles(orders, id, candidates, fills, killed, out)
  {
    var result;
    ghost var ranked;
    assert Distinct(resting) && orders[id].remaining >= 0.0;
    result, ranked, fills, killed := MatchCopies(orders, id, resting, incoming, now);
    candidates := IdsOf(ranked);
    ReportMeans(orders, id, resting, incoming, ranked, fills, killed, now, incoming.remaining.v, result);
    out := SettleMatch(orders, id, resting, incoming, ranked, fills, killed, now, result);
  }

  method SettleMatch(
      orders: seq<Order>, id: nat, ghost resting: seq<B.Order>, ghost incoming: B.Order, ghost ranked: seq<B.Order>,
      ghost fills: seq<real>, ghost killed: bool, ghost now: int, result: E.Result)
    returns (out: Outcome)
    requires id < |orders| && orders[id].remaining >= 0.0 && IsMatch(orders, id, IdsOf(ranked), fills, killed)
    requires incoming.id == id && incoming.side == orders[id].side && incoming.userID == orders[id].userID
    requires multiset(ranked) == multiset(resting) && Distinct(resting) && Settled(orders, ranked, fills)
    requires forall i :: 0 <= i < |fills| && fills[i] > 0.0 ==> ranked[i].limitPrice.Some?
    requires result.incoming.filled.v == orders[id].filled + Sum(fills)
    requires result.incoming.remaining.v == orders[id].remaining - Sum(fills)
    requires result.executions == E.ExecutionsOf(incoming, ranked, fills, now)
    requires result.resting == if killed then resting else E.Touched(ranked, fills)
    requires result.cancelled == (killed || CancelsRemainder(orders[id], result.incoming.remaining.v))
    ensures Settles(orders, id, IdsOf(ranked), fills, killed, out)
  {
    out := Conclude(orders, id, resting, ranked, fills, killed, result);
    OutcomeSettles(orders, id, incoming, ranked, fills, killed, now, result.incoming.filled.v,
                   result.incoming.remaining.v, out);
  }

  /** Everything that is to be written. */
  method Conclude(orders: seq<Order>, id: nat, ghost resting: seq<B.Order>, ghost ranked: seq<B.Order>,
                  ghost fills: seq<real>, ghost killed: bool, result: E.Result)
    returns (out: Outcome)
    requires id < |orders| && Book(orders, id, IdsOf(ranked))
    requires multiset(ranked) == multiset(resting) && Distinct(resting) && Settled(orders, ranked, fills)
    requires result.resting == if killed then resting else E.Touched(ranked, fills)
    ensures out.execs == result.executions && out.cancelled == result.cancelled
    ensures out.row == AfterFill(orders[id], result.incoming.filled.v, result.incoming.remaining.v, result.cancelled)
    ensures Pending(orders, id, IdsOf(ranked), fills, killed, out.ids, out.changed)
  {
    ReportedInTable(orders, id, resting, ranked, fills, killed, result.resting);
    out := Collect(orders, id, result);
    RestSettles(orders, id, resting, ranked, fills, killed, result.resting, out);
  }

  lemma ReportMeans(orders: seq<Order>, id: nat, resting: seq<B.Order>, incoming: B.Order, ranked: seq<B.Order>,
                    fills: seq<real>, killed: bool, now: int, rem: real, result: E.Result)
    requires id < |orders| && incoming.orderType == orders[id].orderType && incoming.tif == Some(orders[id].tif)
    requires |fills| == |ranked| && forall i :: 0 <= i < |fills| && fills[i] > 0.0 ==> ranked[i].limitPrice.Some?
    requires E.Reported(incoming, resting, ranked, now, killed, rem, fills, result)
    ensures result.incoming.filled == incoming.filled && result.incoming.remaining == incoming.remaining
    ensures result.executions == E.ExecutionsOf(incoming, ranked, fills, now)
    ensures result.resting == if killed then resting else E.Touched(ranked, fills)
    ensures result.cancelled == (killed || CancelsRemainder(orders[id], rem))
  {}

  lemma RowSettles(
      orders: seq<Order>, id: nat, candidates: seq<nat>, fills: seq<real>, killed: bool, filled: real, rem: real,
      out: Outcome)
    requires id < |orders| && |fills| == |candidates|
    requires out.cancelled == (killed || CancelsRemainder(orders[id], rem))
    requires out.execs != [] <==> Sum(fills) > 0.0
    requires filled == orders[id].filled + Sum(fills) && rem == orders[id].remaining - Sum(fills)
    requires out.row == AfterFill(orders[id], filled, rem, out.cancelled)
    ensures IncomingStored(orders[id], ChangeOf(orders, id, candidates, fills, killed, id), out)
  {}

  lemma ReportedInTable(
      orders: seq<Order>, id: nat, resting: seq<B.Order>, ranked: seq<B.Order>, fills: seq<real>, killed: bool,
      rest: seq<B.Order>)
    requires id < |orders| && Book(orders, id, IdsOf(ranked)) && Settled(orders, ranked, fills)
    requires multiset(ranked) == multiset(resting) && Distinct(resting)
    requires rest == if killed then resting else E.Touched(ranked, fills)
    ensures forall i :: 0 <= i < |rest| ==> rest[i].id < |orders|
  {
    ReportedRows(orders, id, resting, ranked, fills, killed, rest);
  }

  lemma OutcomeSettles(
      orders: seq<Order>, id: nat, incoming: B.Order, ranked: seq<B.Order>, fills: seq<real>, killed: bool, now: int,
      filled: real, rem: real, out: Outcome)
    requires id < |orders| && orders[id].remaining >= 0.0 && IsMatch(orders, id, IdsOf(ranked), fills, killed)
    requires incoming.id == id && incoming.side == orders[id].side && incoming.userID == orders[id].userID
    requires forall i :: 0 <= i < |ranked| ==> OfRow(ranked[i], orders[ranked[i].id])
    requires forall i :: 0 <= i < |fills| && fills[i] > 0.0 ==> ranked[i].limitPrice.Some?
    requires Pending(orders, id, IdsOf(ranked), fills, killed, out.ids, out.changed)
    requires out.execs == E.ExecutionsOf(incoming, ranked, fills, now)
    requires out.cancelled == (killed || CancelsRemainder(orders[id], rem))
    requires filled == orders[id].filled + Sum(fills) && rem == orders[id].remaining - Sum(fills)
    requires out.row == AfterFill(orders[id], filled, rem, out.cancelled)
    ensures Settles(orders, id, IdsOf(ranked), fills, killed, out)
  {
    ExecutionsSettle(orders, id, incoming, ranked, fills, killed, now, out.execs);
    RowSettles(orders, id, IdsOf(ranked), fills, killed, filled, rem, out);
  }

  lemma RestSettles(
      orders: seq<Order>, id: nat, resting: seq<B.Order>, ranked: seq<B.Order>, fills: seq<real>, killed: bool,
      rest: seq<B.Order>, out: Outcome)
    requires id < |orders| && Book(orders, id, IdsOf(ranked)) && Settled(orders, ranked, fills)
    requires multiset(ranked) == multiset(resting) && Distinct(resting)
    requires rest == if killed then resting else E.Touched(ranked, fills)
    requires forall i :: 0 <= i < |rest| ==> rest[i].id < |orders|
    requires |out.changed| == |rest| && out.ids == IdsOf(rest)
    requires forall i :: 0 <= i < |rest| ==>
               out.changed[i] == AfterFill(orders[rest[i].id], rest[i].filled.v, rest[i].remaining.v, false)
    ensures Pending(orders, id, IdsOf(ranked), fills, killed, out.ids, out.changed)
  {
    ReportedRows(orders, id, resting, ranked, fills, killed, rest);
    PendingFromCopies(orders, id, IdsOf(ranked), fills, killed, rest, out.changed);
  }

  lemma ExecutionsSettle(
      orders: seq<Order>, id: nat, incoming: B.Order, ranked: seq<B.Order>, fills: seq<real>, killed: bool, now: int,
      execs: seq<E.Execution>)
    requires id < |orders| && orders[id].remaining >= 0.0 && IsMatch(orders, id, IdsOf(ranked), fills, killed)
    requires incoming.id == id && incoming.side == orders[id].side && incoming.userID == orders[id].userID
    requires forall i :: 0 <= i < |ranked| ==> OfRow(ranked[i], orders[ranked[i].id])
    requires forall i :: 0 <= i < |fills| && fills[i] > 0.0 ==> ranked[i].limitPrice.Some?
    requires execs == E.ExecutionsOf(incoming, ranked, fills, now)
    ensures ExecutionsStored(orders, id, IdsOf(ranked), fills, execs) && (execs != [] <==> Sum(fills) > 0.0)
  {
    FillsNotNegative(orders, id, IdsOf(ranked), fills);
    ReportedPrices(incoming, ranked, fills, now);
    SameRows(orders, id, incoming, ranked, fills, now);
    CommitsMeans(orders, id, ranked, fills);
  }

  lemma CommitsMeans(orders: seq<Order>, id: nat, ranked: seq<B.Order>, fills: seq<real>)
    requires id < |orders| && Book(orders, id, IdsOf(ranked))
    requires fills == Fills(TakerOf(orders[id]), orders[id].remaining, MakersOf(orders, IdsOf(ranked)))
    requires forall i :: 0 <= i < |ranked| ==> OfRow(ranked[i], orders[ranked[i].id])
    ensures Commits(orders, id, IdsOf(ranked)) <==>
              forall i :: 0 <= i < |fills| && fills[i] > 0.0 ==> Positive(ranked[i].limitPrice)
  {
    forall i | 0 <= i < |ranked| ensures MakersOf(orders, IdsOf(ranked))[i].price == ranked[i].limitPrice {}
  }

  lemma FillsNotNegative(orders: seq<Order>, id: nat, candidates: seq<nat>, fills: seq<real>)
    requires id < |orders| && orders[id].remaining >= 0.0 && Book(orders, id, candidates)
    requires fills == Fills(TakerOf(orders[id]), orders[id].remaining, MakersOf(orders, candidates))
    ensures forall i :: 0 <= i < |fills| ==> fills[i] >= 0.0
  {
    var _ := MatchFactsHold(State(orders, []), id, candidates);
  }

  /** Once all rows are written, the table is the matched one. */
  lemma WrittenIsMatched(
      s: State, id: nat, candidates: seq<nat>, fills: seq<real>, killed: bool, out: Outcome, written: seq<Order>,
      t: State)
    requires id < |s.orders| && IsMatch(s.orders, id, candidates, fills, killed)
    requires Settles(s.orders, id, candidates, fills, killed, out)
    requires t.executions == s.executions + RowsOf(out.execs)
    requires Written(s.orders, written, out.ids, out.changed, t.executions)
    requires t.orders == written[id := if out.execs != [] || out.cancelled then Persisted(out.row, id, t.executions)
                                       else s.orders[id]]
    ensures t == Matched(s, id, candidates)
  {}

  /** What is written back differs from the row that was read in quantities and status only. */
  lemma PendingShape(orders: seq<Order>, id: nat, candidates: seq<nat>, fills: seq<real>, killed: bool, out: Outcome)
    requires id < |orders| && IsMatch(orders, id, candidates, fills, killed)
    requires Settles(orders, id, candidates, fills, killed, out)
    ensures |out.changed| == |out.ids| && NoDuplicates(out.ids) && id !in out.ids
    ensures forall i :: 0 <= i < |out.ids| ==>
              && out.ids[i] < |orders|
              && out.changed[i] == orders[out.ids[i]].(filled := out.changed[i].filled,
                                                       remaining := out.changed[i].remaining,
                                                       status := out.changed[i].status)
    ensures out.row == orders[id].(filled := out.row.filled, remaining := out.row.remaining, status := out.row.status)
  {}

  lemma Unsortable(orders: seq<Order>, id: nat, ids: seq<nat>)
    requires id < |orders| && ids == RestingIds(orders, id, |orders|)
    requires |ids| > 1 && exists j <- ids :: orders[j].limit.None?
    ensures !L.Sortable(orders, id)
  {
    var i :| 0 <= i < |ids| && orders[ids[i]].limit.None?;
    assert Resting(orders, id, ids[i]) && Resting(orders, id, ids[if i == 0 then 1 else 0]);
  }

  class Repository {
    var orders: seq<Order>
    var executions: seq<Execution>

    constructor ()
      ensures View() == EMPTY && Valid()
    {
      orders, executions := [], [];
    }

    function View(): State
      reads this
    {
      State(orders, executions)
    }

    ghost predicate Valid()
      reads this
    {
      Inv(View())
    }

    // ----- reading and writing rows -----

    method LoadRestingOrders(id: nat) returns (ids: seq<nat>, resting: seq<B.Order>)
      requires id < |orders|
      ensures ids == RestingIds(orders, id, |orders|)
      ensures Copies(orders, ids, resting) && Unshared(resting)
      ensures forall i :: 0 <= i < |resting| ==> fresh(resting[i].filled) && fresh(resting[i].remaining)
    {
      ids := [];
      for j := 0 to |orders|
        invariant ids == RestingIds(orders, id, j)
      {
        if Resting(orders, id, j) { ids := ids + [j]; }
      }
      resting := CopyRows(orders, ids);
    }

    /** Stores execution rows until one has a price the table refuses. */
    method InsertExecutions(execs: seq<E.Execution>) returns (ok: bool)
      modifies this`executions
      ensures ok <==> forall e <- execs :: e.price > 0.0
      ensures ok ==> executions == old(executions) + RowsOf(execs)
    {
      for i := 0 to |execs|
        invariant executions == old(executions) + RowsOf(execs[..i])
        invariant forall e <- execs[..i] :: e.price > 0.0
      {
        if execs[i].price <= 0.0 {
          assert execs[i] in execs;
          return false;
        }
        assert execs[..i + 1] == execs[..i] + [execs[i]];
        executions := executions
          + [Execution(execs[i].buyOrderID, execs[i].sellOrderID, execs[i].buyerUserID, execs[i].sellerUserID,
                       execs[i].quantity, execs[i].price)];
      }
      assert execs[..|execs|] == execs;
      return true;
    }

    /** Writes quantities and status; the average comes from the execution rows. */
    method PersistOrderState(id: nat, row: Order)
      requires id < |orders|
      modifies this`orders
      ensures orders == old(orders)[id := Persisted(old(orders[id]).(filled := row.filled, remaining := row.remaining,
                                                                    status := row.status), id, executions)]
    {
      var o := orders[id].(filled := row.filled, remaining := row.remaining, status := row.status,
                           average := BatchAverage(executions, id), version := orders[id].version + 1);
      orders := orders[id := o];
    }

    method PersistAll(ids: seq<nat>, changed: seq<Order>)
      requires |changed| == |ids| && NoDuplicates(ids)
      requires forall i :: 0 <= i < |ids| ==>
                 && ids[i] < |orders|
                 && changed[i] == orders[ids[i]].(filled := changed[i].filled, remaining := changed[i].remaining,
                                                  status := changed[i].status)
      modifies this`orders
      ensures Written(old(orders), orders, ids, changed, executions)
    {
      ghost var was := orders;
      for n := 0 to |ids|
        invariant Written(was, orders, ids[..n], changed, executions)
      {
        assert ids[n] !in ids[..n];
        PersistOrderState(ids[n], changed[n]);
        assert ids[..n + 1] == ids[..n] + [ids[n]];
      }
      assert ids[..|ids|] == ids;
    }

    // ----- the match inside a transaction -----

    /** The book's rows and the incoming order, copied for the engine; a missing price among
        several rows would stop the sort. */
    method CopyBook(id: nat) returns (sortable: bool, resting: seq<B.Order>, incoming: B.Order)
      requires id < |orders| && orders[id].remaining >= 0.0
      ensures sortable ==> Ready(orders, id, resting, incoming)
      ensures forall i :: 0 <= i < |resting| ==> fresh(resting[i].filled) && fresh(resting[i].remaining)
      ensures fresh(incoming.filled) && fresh(incoming.remaining)
      ensures !sortable ==> !L.Sortable(orders, id)
    {
      var ids;
      ids, resting := LoadRestingOrders(id);
      incoming := FromDomain(orders[id], id);
      sortable := |ids| <= 1 || forall j <- ids :: orders[j].limit.Some?;
      if sortable {
        assert |ids| > 1 ==> forall i :: 0 <= i < |ids| ==> ids[i] in ids;
        CopiesReady(orders, id, ids, resting, incoming);
      } else {
        Unsortable(orders, id, ids);
      }
    }

    /** Stores the executions, then the other rows, then the incoming row. */
    method WriteBack(id: nat, out: Outcome) returns (ok: bool, ghost written: seq<Order>)
      requires id < |orders| && |out.changed| == |out.ids| && NoDuplicates(out.ids) && id !in out.ids
      requires forall i :: 0 <= i < |out.ids| ==>
                 && out.ids[i] < |orders|
                 && out.changed[i] == orders[out.ids[i]].(filled := out.changed[i].filled,
                                                          remaining := out.changed[i].remaining,
                                                          status := out.changed[i].status)
      requires out.row == orders[id].(filled := out.row.filled, remaining := out.row.remaining,
                                      status := out.row.status)
      modifies this
      ensures ok <==> forall e <- out.execs :: e.price > 0.0
      ensures ok ==> executions == old(executions) + RowsOf(out.execs)
      ensures ok ==> Written(old(orders), written, out.ids, out.changed, executions)
      ensures ok ==> orders == written[id := if out.execs != [] || out.cancelled then Persisted(out.row, id, executions)
                                             else old(orders[id])]
    {
      ok := InsertExecutions(out.execs);
      written := orders;
      if !ok { return; }
      PersistAll(out.ids, out.changed);
      written := orders;
      if out.execs != [] || out.cancelled {
        PersistOrderState(id, out.row);
      }
    }

    /** Loads the book, runs the engine and writes everything back.  Fails when the sort meets a
        missing price or an execution row is refused; the caller then rolls back. */
    method MatchAcceptedOrder(id: nat, now: int) returns (ok: bool, ghost candidates: seq<nat>)
      requires id < |orders| && orders[id].remaining >= 0.0
      modifies this
      ensures ok <==> Book(old(orders), id, candidates) && Commits(old(orders), id, candidates)
      ensures ok ==> View() == Matched(old(View()), id, candidates)
      ensures Ranks(old(orders), id, candidates)
    {
      ghost var s := View();
      var sortable, resting, incoming := CopyBook(id);
      if !sortable {
        if Book(orders, id, []) { L.BookIsSortable(orders, id, []); }
        return false, [];
      }
      var out;
      ghost var fills, killed, written;
      out, candidates, fills, killed := RunEngine(orders, id, resting, incoming, now);
      PendingShape(s.orders, id, candidates, fills, killed, out);
      ok, written := WriteBack(id, out);
      if ok { WrittenIsMatched(s, id, candidates, fills, killed, out, written, View()); }
    }

    // ----- the transactions -----

    /** Puts the table back as the transaction found it. */
    method Rollback(s: State)
      modifies this
      ensures View() == s
    {
      orders, executions := s.orders, s.executions;
    }

    /** Builds the order a request asks for, stores it and, if it is accepted, matches it. */
    method CreateOrder(r: Request, riskEnabled: bool, dayExpiry: int, now: int)
      returns (ok: bool, ghost candidates: seq<nat>)
      requires Valid()
      modifies this
      ensures Valid() && View() == Apply(old(View()), Submit(r, riskEnabled, dayExpiry, now, candidates))
      ensures ok <==> Enabled(old(View()), Submit(r, riskEnabled, dayExpiry, now, candidates))
      ensures WellChosen(old(View()), Submit(r, riskEnabled, dayExpiry, now, candidates))
    {
      var s := View();
      candidates := [];
      var o := BuildOrder(r, riskEnabled, dayExpiry, now);
      if o.quantity <= 0.0 { return false, []; }
      orders := orders + [o];
      ok := true;
      if o.status.Accepted? {
        ok, candidates := MatchAcceptedOrder(|s.orders|, now);
        if !ok { Rollback(s); }
      }
      StepKeeps(s, Submit(r, riskEnabled, dayExpiry, now, candidates));
    }

    /** A second decision for the same order finds it no longer pending and changes nothing. */
    method ApplyRiskDecision(id: nat, decision: Decision, now: int) returns (ok: bool, ghost candidates: seq<nat>)
      requires Valid()
      modifies this
      ensures Valid() && View() == Apply(old(View()), Decide(id, decision, candidates))
      ensures ok <==> Enabled(old(View()), Decide(id, decision, candidates))
      ensures WellChosen(old(View()), Decide(id, decision, candidates))
      ensures ok && !decision.Approve? ==>
                OnlyRow(old(orders), orders, id) && executions == old(executions)
                && orders[id] == old(orders[id]).(status := if decision.Reject? then RiskRejected else RiskError,
                                                  version := old(orders[id]).version + 1)
    {
      ghost var s := View();
      candidates := [];
      if id >= |orders| || !orders[id].status.RiskPending? { return false, []; }
      ok := true;
      if decision.Approve? {
        ok, candidates := AcceptAndMatch(id, now);
      } else {
        orders := orders[id := orders[id].(status := if decision.Reject? then RiskRejected else RiskError,
                                           version := orders[id].version + 1)];
      }
      StepKeeps(s, Decide(id, decision, candidates));
    }

    method AcceptAndMatch(id: nat, now: int) returns (ok: bool, ghost candidates: seq<nat>)
      requires Valid() && id < |orders| && orders[id].status.RiskPending?
      modifies this
      ensures View() == Apply(old(View()), Decide(id, Approve, candidates))
      ensures ok <==> Enabled(old(View()), Decide(id, Approve, candidates))
      ensures WellChosen(old(View()), Decide(id, Approve, candidates))
    {
      var s := View();
      assert OrderOk(s.orders[id], id, s.executions);
      orders := orders[id := orders[id].(status := Accepted, version := orders[id].version + 1)];
      ghost var p := View();
      ok, candidates := MatchAcceptedOrder(id, now);
      if !ok { Rollback(s); }
      ApprovalIsMatch(s, id, p, candidates);
    }

    method CancelOrder(id: nat) returns (found: bool)
      requires Valid()
      modifies this
      ensures Valid() && View() == Apply(old(View()), Cancel(id))
      ensures found <==> Enabled(old(View()), Cancel(id))
    {
      StepKeeps(View(), Cancel(id));
      found := id < |orders| && IsLive(orders[id].status);
      if found {
        orders := orders[id := orders[id].(status := Cancelled, remaining := 0.0, version := orders[id].version + 1)];
      }
    }

    /** Succeeds only for the version the caller has seen. */
    method AmendOrder(id: nat, expectedVersion: nat, quantity: Option<real>, limit: Option<real>, stop: Option<real>,
                      expiresAt: Option<int>) returns (found: bool)
      requires Valid()
      modifies this
      ensures Valid() && View() == Apply(old(View()), Amend(id, expectedVersion, quantity, limit, stop, expiresAt))
      ensures found <==> Enabled(old(View()), Amend(id, expectedVersion, quantity, limit, stop, expiresAt))
    {
      ghost var s, a := View(), Amend(id, expectedVersion, quantity, limit, stop, expiresAt);
      StepKeeps(s, a);
      found := id < |orders| && orders[id].version == expectedVersion && IsLive(orders[id].status)
        && (quantity.Some? ==> quantity.value >= orders[id].filled && quantity.value > 0.0);
      if found {
        var o := orders[id];
        var total := if quantity.Some? then quantity.value else o.quantity;
        orders := orders[id := o.(quantity := total, remaining := total - o.filled, limit := limit, stop := stop,
                                  expiresAt := expiresAt, version := o.version + 1)];
      }
      assert View() == Apply(s, a);
    }

    method ExpireLockedOrder(id: nat, now: int) returns (found: bool)
      requires Valid()
      modifies this
      ensures Valid() && View() == Apply(old(View()), Expire(id, now))
      ensures found <==> Enabled(old(View()), Expire(id, now))
      ensures CountExpired(orders) == CountExpired(old(orders)) + if found then 1 else 0
      ensures OnlyRow(old(orders), orders, id)
    {
      ghost var s := View();
      StepKeeps(s, Expire(id, now));
      found := id < |orders| && IsLive(orders[id].status) && orders[id].remaining > 0.0
        && orders[id].expiresAt.Some? && orders[id].expiresAt.value <= now
        && (orders[id].tif.Day? || orders[id].tif.GTD?);
      if found {
        orders := orders[id := orders[id].(status := Expired, version := orders[id].version + 1)];
      }
      assert View() == Apply(s, Expire(id, now));
      ExpiryCounts(s, id, now);
    }

    /** The next row of a batch is still eligible, and the rows after it stay so. */
    method ExpireNext(due: seq<nat>, i: nat, now: int) returns (found: bool)
      requires Valid() && i < |due| && NoDuplicates(due) && AllDue(orders, due[i..], now)
      modifies this
      ensures Valid() && View() == Apply(old(View()), Expire(due[i], now)) && AllDue(orders, due[i + 1..], now)
      ensures found && CountExpired(orders) == CountExpired(old(orders)) + 1
    {
      ghost var before := orders;
      assert due[i..][0] == due[i];
      found := ExpireLockedOrder(due[i], now);
      OthersStillDue(before, orders, due, i, now);
    }

    /** Expires rows that are due one after the other, counting those that are no longer eligible. */
    method ExpireAll(due: seq<nat>, now: int) returns (expired: int, conflicts: int)
      requires Valid() && NoDuplicates(due) && AllDue(orders, due, now)
      modifies this
      ensures Valid() && View() == Run(old(View()), Expiries(due, now))
      ensures expired == |due| && conflicts == 0 && CountExpired(orders) == CountExpired(old(orders)) + expired
    {
      ghost var s := View();
      expired, conflicts := 0, 0;
      for i := 0 to |due|
        invariant Valid() && View() == Run(s, Expiries(due[..i], now)) && AllDue(orders, due[i..], now)
        invariant expired == i && conflicts == 0 && CountExpired(orders) == CountExpired(s.orders) + expired
      {
        var found := ExpireNext(due, i, now);
        if found { expired := expired + 1; } else { conflicts := conflicts + 1; }
        OneMoreExpiry(s, due, i, now);
      }
      assert due[..|due|] == due;
    }

    /** Expires the first due rows, by the time they expire at.  They stay locked in between, so none
        of them turns out to be no longer eligible.  `skip` are the rows that others hold locked. */
    method ExpireDueBatch(limit: nat, now: int, skip: set<nat>) returns (due: seq<nat>, expired: int, conflicts: int)
      requires Valid()
      modifies this
      ensures Selected(Due(old(orders), now, skip), ExpiryTime(old(orders)), limit, due)
      ensures Valid() && View() == Run(old(View()), Expiries(due, now))
      ensures BatchExpires(old(orders), orders, now, skip, limit, due)
      ensures expired == |due| && conflicts == 0 && CountExpired(orders) == CountExpired(old(orders)) + expired
    {
      ghost var s := View();
      due := SelectFirst(Due(orders, now, skip), ExpiryTime(orders), |orders|, limit);
      DueRows(orders, now, skip, due);
      ExpiryBatch(s, now, skip, limit, due);
      expired, conflicts := ExpireAll(due, now);
    }

    // ----- stop triggers -----

    /** The first waiting rows with a current price, by the time they were placed, as they stand. */
    method LoadCandidates(limit: nat, now: int, maxAge: nat, prices: map<Key, ReferencePrice>, skip: set<nat>)
      returns (due: seq<TriggerCandidate>)
      ensures Selected(Waiting(orders, prices, now - maxAge, skip), PlacedAt(orders), limit, IdsIn(due))
      ensures forall i :: 0 <= i < |due| ==> ReadFrom(due[i], orders, prices)
      ensures ReadsWaiting(orders, prices, now - maxAge, skip, limit, due)
    {
      var rows := SelectFirst(Waiting(orders, prices, now - maxAge, skip), PlacedAt(orders), |orders|, limit);
      due := [];
      for i := 0 to |rows|
        invariant |due| == i
        invariant forall k :: 0 <= k < i ==> due[k].id == rows[k] && ReadFrom(due[k], orders, prices)
      {
        assert Waiting(orders, prices, now - maxAge, skip)(rows[i]);
        var o := orders[rows[i]];
        due := due + [TriggerCandidate(rows[i], o.side, o.orderType, o.stop.value, prices[o.key].price)];
      }
      assert IdsIn(due) == rows;
      LoadedIsRead(orders, prices, now - maxAge, skip, limit, due);
    }

    /** The guarded activation of one stop order, and its match. */
    method ActivateLockedStopOrder(c: TriggerCandidate, now: int)
      returns (found: bool, ok: bool, ghost candidates: seq<nat>)
      requires Valid() && c.id < |orders| && ShouldTrigger(c.side, c.originalType, c.stop, c.reference)
      requires Describes(c, orders[c.id])
      modifies this
      ensures View() == Apply(old(View()), Trigger(c.id, c.reference, candidates))
      ensures found <==> Guard(old(View()), Trigger(c.id, c.reference, candidates))
      ensures found && ok <==> Enabled(old(View()), Trigger(c.id, c.reference, candidates))
      ensures !found ==> ok
      ensures WellChosen(old(View()), Trigger(c.id, c.reference, candidates))
    {
      var s := View();
      var o := orders[c.id];
      candidates := [];
      found := (o.orderType.Stop? || o.orderType.StopLimit?) && !o.triggered && IsLive(o.status) && o.remaining > 0.0;
      ActivationIsGuard(s, c);
      if !found { return false, true, []; }
      var activated := ActivatedType(c.originalType);
      orders := orders[c.id := o.(orderType := activated, triggered := true, version := o.version + 1)];
      assert View() == Prepared(s, Trigger(c.id, c.reference, []));
      ok, candidates := MatchAcceptedOrder(c.id, now);
      if !ok { Rollback(s); }
    }

    /** One candidate of a batch: skipped at this price, or activated and matched. */
    method TriggerOne(c: TriggerCandidate, now: int) returns (found: bool, ok: bool, ghost a: Action)
      requires Valid() && c.id < |orders| && IsWaiting(orders[c.id]) && Describes(c, orders[c.id])
      modifies this
      ensures Valid() && View() == Apply(old(View()), a) && OnlyBookTouched(old(orders), orders, c.id)
      ensures a.Trigger? && a.id == c.id && a.referencePrice == c.reference
      ensures found <==> ShouldTrigger(c.side, c.originalType, c.stop, c.reference)
      ensures found ==> Guard(old(View()), a)
      ensures found && ok <==> Enabled(old(View()), a)
      ensures !found ==> ok
      ensures WellChosen(old(View()), a)
    {
      ghost var s, candidates := View(), [];
      found, ok := false, true;
      if ShouldTrigger(c.side, c.originalType, c.stop, c.reference) {
        found, ok, candidates := ActivateLockedStopOrder(c, now);
      }
      a := Trigger(c.id, c.reference, candidates);
      StepKeeps(s, a);
      TriggerTouchesBook(s, a);
    }

    /** The next candidate of a batch, which leaves those after it waiting. */
    method TriggerNext(due: seq<TriggerCandidate>, i: nat, now: int) returns (found: bool, ok: bool, ghost a: Action)
      requires Valid() && i < |due| && AllWaiting(orders, due[i..]) && DistinctRows(due)
      modifies this
      ensures Valid() && View() == Apply(old(View()), a) && AllWaiting(orders, due[i + 1..])
      ensures a.Trigger? && a.id == due[i].id && a.referencePrice == due[i].reference
      ensures CountTriggers(due[..i + 1]) == CountTriggers(due[..i]) + if found then 1 else 0
      ensures !ok ==> Guard(old(View()), a) && WellChosen(old(View()), a) && !Enabled(old(View()), a)
    {
      ghost var before := orders;
      assert due[i..][0] == due[i];
      found, ok, a := TriggerOne(due[i], now);
      OthersStillWait(before, orders, due, i);
      OneMoreCounted(due, i);
    }

    /** Triggers the candidates one after the other, up to the first whose match fails. */
    method TriggerAll(due: seq<TriggerCandidate>, now: int)
      returns (ok: bool, triggered: nat, skipped: nat, ghost acts: seq<Action>)
      requires Valid() && AllWaiting(orders, due) && DistinctRows(due)
      modifies this
      ensures ok ==> Valid() && View() == Run(old(View()), acts) && TriggersFor(acts, due)
      ensures ok ==> triggered == CountTriggers(due) && triggered + skipped == |due|
      ensures !ok ==> BrokeOff(old(View()), acts)
    {
      ghost var s := View();
      ok, triggered, skipped, acts := true, 0, 0, [];
      for i := 0 to |due|
        invariant Valid() && View() == Run(s, acts) && AllWaiting(orders, due[i..])
        invariant |acts| == i == triggered + skipped && TriggersFor(acts, due[..i])
                  && triggered == CountTriggers(due[..i])
      {
        var found;
        ghost var a;
        found, ok, a := TriggerNext(due, i, now);
        OneMoreTrigger(s, acts, due, a);
        acts := acts + [a];
        if !ok { return; }
        if found { triggered := triggered + 1; } else { skipped := skipped + 1; }
      }
      assert due[..|due|] == due;
    }

    /** Triggers and matches the due stop orders of one batch, all in one transaction. */
    method TriggerDueStopOrders(limit: nat, now: int, maxAge: nat, prices: map<Key, ReferencePrice>, skip: set<nat>)
      returns (ok: bool, triggered: nat, skipped: nat, ghost due: seq<TriggerCandidate>, ghost acts: seq<Action>)
      requires Valid()
      modifies this
      ensures Valid()
      ensures Selected(Waiting(old(orders), prices, now - maxAge, skip), PlacedAt(old(orders)), limit, IdsIn(due))
      ensures forall i :: 0 <= i < |due| ==> ReadFrom(due[i], old(orders), prices)
      ensures ok ==> View() == Run(old(View()), acts) && TriggersFor(acts, due)
      ensures ok ==> triggered == CountTriggers(due) && triggered + skipped == |due|
      ensures !ok ==> View() == old(View()) && BrokeOff(View(), acts)
    {
      var s := View();
      var loaded := LoadCandidates(limit, now, maxAge, prices, skip);
      due := loaded;
      CandidatesWait(orders, prices, now - maxAge, skip, loaded);
      ok, triggered, skipped, acts := TriggerAll(loaded, now);
      if !ok { Rollback(s); }
    }
  }

  /** An approval accepts the pending order and matches it. */
  lemma ApprovalIsMatch(s: State, id: nat, p: State, candidates: seq<nat>)
    requires id < |s.orders| && s.orders[id].status.RiskPending?
    requires p == s.(orders := s.orders[id := s.orders[id].(status := Accepted, version := s.orders[id].version + 1)])
    ensures Enabled(s, Decide(id, Approve, candidates)) <==>
              Book(p.orders, id, candidates) && Commits(p.orders, id, candidates)
    ensures Apply(s, Decide(id, Approve, candidates)) ==
              if Book(p.orders, id, candidates) && Commits(p.orders, id, candidates) then Matched(p, id, candidates)
              else s
    ensures Ranks(p.orders, id, candidates) ==> WellChosen(s, Decide(id, Approve, candidates))
  {
    var a := Decide(id, Approve, candidates);
    assert Prepared(s, a) == p && ToMatch(s, a) == Some(id) && CandidatesOf(a) == candidates && Guard(s, a);
    assert Ranks(p.orders, id, candidates) ==> WellChosen(s, a);
    if Enabled(s, a) { assert Effect(s, a) == Matched(p, id, candidates); }
  }

  // ----- building an order -----

  /** The first reason to refuse the request, if there is one. */
  method ValidateOrder(r: Request, now: int) returns (reason: Option<string>)
    ensures reason.None? <==> ValidRequest(r, now)
  {
    if r.key.symbol == "" { return Some("symbol is required"); }
    if r.quantity <= 0.0 { return Some("quantity must be greater than zero"); }
    if r.orderType.Limit? && !Positive(r.limit) { return Some("LIMIT order requires limitPrice greater than zero"); }
    if (r.orderType.Stop? || r.orderType.StopLoss?) && !Positive(r.stop) {
      return Some("STOP order requires stopPrice greater than zero");
    }
    if r.orderType.StopLimit? {
      if !Positive(r.stop) { return Some("STOP_LIMIT order requires stopPrice greater than zero"); }
      if !Positive(r.limit) { return Some("STOP_LIMIT order requires limitPrice greater than zero"); }
    }
    if r.tif.GTD? && (r.expiresAt.None? || r.expiresAt.value <= now) {
      return Some("GTD orders require future expiresAt");
    }
    if !r.tif.GTD? && r.expiresAt.Some? { return Some("expiresAt is only valid for GTD orders"); }
    return None;
  }

  method BuildOrder(r: Request, riskEnabled: bool, dayExpiry: int, now: int) returns (o: Order)
    ensures o == NewOrder(r, if !ValidRequest(r, now) then Rejected else if riskEnabled then RiskPending else Accepted,
                          if ValidRequest(r, now) && r.tif.Day? then Some(dayExpiry) else r.expiresAt, now)
  {
    o := NewOrder(r, Created, r.expiresAt, now);
    var reason := ValidateOrder(r, now);
    if reason.Some? {
      o := o.(status := Rejected);
      return;
    }
    if o.tif.Day? { o := o.(expiresAt := Some(dayExpiry)); }
    o := o.(status := if riskEnabled then RiskPending else Accepted);
  }
}
