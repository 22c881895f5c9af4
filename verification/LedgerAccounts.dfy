/** Reconciliation, conservation and redelivery over every run of the ledger. */
module LedgerAccounts {
  import opened Options
  import opened Sequences
  import opened Sums
  import opened LedgerModel
  import opened LedgerTheorems

  // ----- what the tables add up to -----

  function NetCash(p: nat): Transaction -> real {
    (t: Transaction) => if t.portfolio == p then t.netCash else 0.0
  }

  function Gains(p: nat): Transaction -> real {
    (t: Transaction) => if t.portfolio == p then t.pnl else 0.0
  }

  function Booked(p: nat): Gain -> real {
    (g: Gain) => if g.portfolio == p then g.realized else 0.0
  }

  /** Shares bought less shares sold. */
  function NetShares(p: nat, symbol: string): Transaction -> real {
    (t: Transaction) =>
      if t.portfolio == p && t.symbol == symbol then (if t.side.Buy? then t.quantity else -t.quantity) else 0.0
  }

  function HeldIn(p: nat, symbol: string): Holding -> real {
    (h: Holding) => if h.portfolio == p && h.symbol == symbol then h.quantity else 0.0
  }

  function HeldBy(tenant: string, symbol: string): Holding -> real {
    (h: Holding) => if h.tenant == tenant && h.symbol == symbol then h.quantity else 0.0
  }

  /** A tenant's cash beyond what its portfolios were opened with. */
  function CashBeyond(tenant: string, initialCash: real): Portfolio -> real {
    (p: Portfolio) => if p.tenant == tenant then p.cash - initialCash else 0.0
  }

  /** The part of a balance that the transaction rows do not explain, and the part of the realized
      gain that the rows of gains do not. */
  datatype Unexplained = Unexplained(cash: real, pnl: real, gains: real, shares: real)

  function Rest(l: Ledger, p: nat, symbol: string): Unexplained
    requires p < |l.portfolios|
  {
    Unexplained(l.portfolios[p].cash - Total(l.transactions, NetCash(p)),
                l.portfolios[p].pnl - Total(l.transactions, Gains(p)),
                l.portfolios[p].pnl - Total(l.gains, Booked(p)),
                Total(l.holdings, HeldIn(p, symbol)) - Total(l.transactions, NetShares(p, symbol)))
  }

  // ----- reconciliation -----

  lemma {:induction false} NothingThere<T>(rows: seq<T>, w: T -> real)
    requires forall i :: 0 <= i < |rows| ==> w(rows[i]) == 0.0
    ensures Total(rows, w) == 0.0
  {
    if rows != [] { NothingThere(rows[..|rows| - 1], w); }
  }

  lemma OpenedRest(l: Ledger, o: Ledger, initialCash: real, p: nat, symbol: string)
    requires HoldingsOk(l) && TransactionsOk(l) && GainsOk(l) && Extends(l, o, initialCash) && p < |o.portfolios|
    ensures Rest(o, p, symbol) == if p < |l.portfolios| then Rest(l, p, symbol)
                                  else Unexplained(initialCash, 0.0, 0.0, 0.0)
  {
    AddedNothing(l.holdings, o.holdings, HeldIn(p, symbol));
    if p >= |l.portfolios| {
      NothingThere(l.holdings, HeldIn(p, symbol));
      NothingThere(l.transactions, NetCash(p));
      NothingThere(l.transactions, Gains(p));
      NothingThere(l.gains, Booked(p));
      NothingThere(l.transactions, NetShares(p, symbol));
    }
  }

  lemma TwoMore<T>(rows: seq<T>, a: T, b: T, w: T -> real)
    ensures Total(rows + [a, b], w) == Total(rows, w) + w(a) + w(b)
  {
    TotalSnoc(rows, a, w);
    TotalSnoc(rows + [a], b, w);
    assert rows + [a] + [b] == rows + [a, b];
  }

  lemma SettledRest(l: Ledger, o: Ledger, r: Rows, t: Trade, initialCash: real, p: nat, symbol: string)
    requires TransactionsOk(l) && AppliedShape(l, o, r, t, initialCash) && p < |o.portfolios|
    ensures p < |Settled(o, r, t).portfolios| && Rest(Settled(o, r, t), p, symbol) == Rest(o, p, symbol)
  {
    var buy, sell := TransactionOf(o, r, t, Buy), TransactionOf(o, r, t, Sell);
    BothRecorded(l, o, r, t, initialCash);
    TwoMore(l.transactions, buy, sell, NetCash(p));
    TwoMore(l.transactions, buy, sell, Gains(p));
    TotalSnoc(l.gains, GainOf(o, r, t), Booked(p));
    TwoMore(l.transactions, buy, sell, NetShares(p, symbol));
    MovedHoldings(o, r, t, HeldIn(p, symbol));
    MovedPortfolios(o, r, t);
  }

  /** Every balance, realized gain and share count is what it was at the start, or what the
      portfolio was opened with, plus the transaction rows added since. */
  lemma {:induction false} Reconciled(l: Ledger, trades: seq<Trade>, initialCash: real, p: nat, symbol: string)
    requires WellFormed(l) && initialCash >= 0.0 && p < |Run(l, trades, initialCash).portfolios|
    ensures Rest(Run(l, trades, initialCash), p, symbol)
         == if p < |l.portfolios| then Rest(l, p, symbol) else Unexplained(initialCash, 0.0, 0.0, 0.0)
    decreases trades
  {
    if trades != [] {
      var d := Deliver(l, trades[0], initialCash);
      DeliverKeeps(l, trades[0], initialCash);
      PortfoliosStay(l, trades[0], initialCash);
      Reconciled(d, trades[1..], initialCash, p, symbol);
      if p < |d.portfolios| { DeliverRest(l, trades[0], initialCash, p, symbol); }
    }
  }

  lemma DeliverRest(l: Ledger, t: Trade, initialCash: real, p: nat, symbol: string)
    requires WellFormed(l) && initialCash >= 0.0 && p < |Deliver(l, t, initialCash).portfolios|
    ensures Rest(Deliver(l, t, initialCash), p, symbol)
         == if p < |l.portfolios| then Rest(l, p, symbol) else Unexplained(initialCash, 0.0, 0.0, 0.0)
  {
    if Acceptable(Normal(t)) && OutcomeOf(l, Normal(t), initialCash).Applied? {
      var o, r := AppliedHasShape(l, t, initialCash);
      OpenedRest(l, o, initialCash, p, symbol);
      SettledRest(l, o, r, Normal(t), initialCash, p, symbol);
    }
  }

  /** What a portfolio had before any of its rows: at the start of a ledger without rows, or when it
      was opened. */
  function Opening(l: Ledger, initialCash: real, p: nat, symbol: string): Unexplained {
    if p < |l.portfolios| then
      var o := l.portfolios[p];
      Unexplained(o.cash, o.pnl, o.pnl, Total(l.holdings, HeldIn(p, symbol)))
    else Unexplained(initialCash, 0.0, 0.0, 0.0)
  }

  /** In a ledger seeded without transaction and gain rows, or for a portfolio opened on the way,
      the rows explain every balance completely. */
  lemma RowsExplainBalances(l: Ledger, trades: seq<Trade>, initialCash: real, p: nat, symbol: string)
    requires WellFormed(l) && initialCash >= 0.0 && p < |Run(l, trades, initialCash).portfolios|
    requires p >= |l.portfolios| || (l.transactions == [] && l.gains == [])
    ensures var e, o := Run(l, trades, initialCash), Opening(l, initialCash, p, symbol);
            && e.portfolios[p].cash == o.cash + Total(e.transactions, NetCash(p))
            && e.portfolios[p].pnl == o.pnl + Total(e.transactions, Gains(p)) == o.gains + Total(e.gains, Booked(p))
            && Total(e.holdings, HeldIn(p, symbol)) == o.shares + Total(e.transactions, NetShares(p, symbol))
  {
    Reconciled(l, trades, initialCash, p, symbol);
  }

  // ----- conservation -----

  lemma SettledConserves(l: Ledger, o: Ledger, r: Rows, t: Trade, initialCash: real, tenant: string, symbol: string)
    requires AppliedShape(l, o, r, t, initialCash)
    ensures Total(Settled(o, r, t).portfolios, CashBeyond(tenant, initialCash))
            == Total(l.portfolios, CashBeyond(tenant, initialCash))
    ensures Total(Settled(o, r, t).holdings, HeldBy(tenant, symbol)) == Total(l.holdings, HeldBy(tenant, symbol))
  {
    AddedNothing(l.portfolios, o.portfolios, CashBeyond(tenant, initialCash));
    AddedNothing(l.holdings, o.holdings, HeldBy(tenant, symbol));
    MovedHoldings(o, r, t, HeldBy(tenant, symbol));
    MovedCash(o, r, t, tenant, initialCash);
  }

  lemma MovedCash(o: Ledger, r: Rows, t: Trade, tenant: string, initialCash: real)
    requires RowsMatch(o, r, t)
    ensures Total(Moved(o, r, t).portfolios, CashBeyond(tenant, initialCash))
            == Total(o.portfolios, CashBeyond(tenant, initialCash))
  {
    var w := CashBeyond(tenant, initialCash);
    var paid := o.portfolios[r.buyer].(cash := o.portfolios[r.buyer].cash - Gross(t));
    var ps := o.portfolios[r.buyer := paid];
    TotalUpdate(o.portfolios, r.buyer, paid, w);
    MovedPortfolios(o, r, t);
    TotalUpdate(ps, r.seller, Moved(o, r, t).portfolios[r.seller], w);
    assert ps[r.seller := Moved(o, r, t).portfolios[r.seller]] == Moved(o, r, t).portfolios;
  }

  /** Money and shares only change hands: over every run a tenant's cash is what it was plus the
      initial cash of the portfolios opened, and its shares of every symbol are what they were. */
  lemma {:induction false} Conserved(l: Ledger, trades: seq<Trade>, initialCash: real, tenant: string, symbol: string)
    requires WellFormed(l) && initialCash >= 0.0
    ensures Total(Run(l, trades, initialCash).portfolios, CashBeyond(tenant, initialCash))
         == Total(l.portfolios, CashBeyond(tenant, initialCash))
    ensures Total(Run(l, trades, initialCash).holdings, HeldBy(tenant, symbol))
            == Total(l.holdings, HeldBy(tenant, symbol))
    decreases trades
  {
    if trades != [] {
      var t := trades[0];
      DeliverKeeps(l, t, initialCash);
      Conserved(Deliver(l, t, initialCash), trades[1..], initialCash, tenant, symbol);
      if Acceptable(Normal(t)) && OutcomeOf(l, Normal(t), initialCash).Applied? {
        var o, r := AppliedHasShape(l, t, initialCash);
        SettledConserves(l, o, r, Normal(t), initialCash, tenant, symbol);
      }
    }
  }

  // ----- redelivery -----

  /** The execution a delivery carries has been applied. */
  predicate Seen(l: Ledger, t: Trade) {
    IsProcessed(l, Normal(t).tenant, IdempotencyKey(Normal(t)))
  }

  lemma OnceSeen(l: Ledger, t: Trade, again: Trade, initialCash: real)
    requires Seen(l, again)
    ensures Seen(Deliver(l, t, initialCash), again)
  {
    if Deliver(l, t, initialCash) != l {
      StaysProcessed(l.processed, Deliver(l, t, initialCash).processed, Normal(again).tenant,
                     IdempotencyKey(Normal(again)));
    }
  }

  lemma {:induction false} OnceSeenAlways(l: Ledger, trades: seq<Trade>, again: Trade, initialCash: real)
    requires Seen(l, again)
    ensures Seen(Run(l, trades, initialCash), again)
    decreases trades
  {
    if trades != [] {
      OnceSeen(l, trades[0], again, initialCash);
      OnceSeenAlways(Deliver(l, trades[0], initialCash), trades[1..], again, initialCash);
    }
  }

  /** After a delivery has been applied, its execution has been seen. */
  lemma AppliedIsSeen(l: Ledger, t: Trade, initialCash: real)
    requires Acceptable(Normal(t)) && OutcomeOf(l, Normal(t), initialCash).Applied?
    ensures Seen(Deliver(l, t, initialCash), t)
  {
    var n := Normal(t);
    NowProcessed(l.processed, Processed(n.tenant, n.eventId, IdempotencyKey(n), Some(PayloadOf(n))));
  }

  /** The deliveries that are no redeliveries, given which executions were applied before each. */
  function FirstDeliveries(l: Ledger, trades: seq<Trade>, initialCash: real): seq<Trade>
    decreases trades
  {
    if trades == [] then []
    else
      var rest := FirstDeliveries(Deliver(l, trades[0], initialCash), trades[1..], initialCash);
      if Seen(l, trades[0]) then rest else [trades[0]] + rest
  }

  /** Any number of redeliveries anywhere in a stream, with the same or a conflicting payload,
      leave the ledger as it is without them. */
  lemma {:induction false} RedeliveryHarmless(l: Ledger, trades: seq<Trade>, initialCash: real)
    ensures Run(l, trades, initialCash) == Run(l, FirstDeliveries(l, trades, initialCash), initialCash)
    decreases trades
  {
    if trades != [] {
      var d := Deliver(l, trades[0], initialCash);
      RedeliveryHarmless(d, trades[1..], initialCash);
      if Seen(l, trades[0]) {
        SeenChangesNothing(l, trades[0], initialCash);
      } else {
        RunCons(l, trades[0], FirstDeliveries(d, trades[1..], initialCash), initialCash);
      }
    }
  }

  lemma {:induction false} RunConcat(l: Ledger, xs: seq<Trade>, ys: seq<Trade>, initialCash: real)
    ensures Run(l, xs + ys, initialCash) == Run(Run(l, xs, initialCash), ys, initialCash)
    decreases xs
  {
    if xs == [] {
      assert xs + ys == ys;
    } else {
      assert (xs + ys)[0] == xs[0] && (xs + ys)[1..] == xs[1..] + ys;
      RunConcat(Deliver(l, xs[0], initialCash), xs[1..], ys, initialCash);
    }
  }

  lemma RunCons(l: Ledger, t: Trade, rest: seq<Trade>, initialCash: real)
    ensures Run(l, [t] + rest, initialCash) == Run(Deliver(l, t, initialCash), rest, initialCash)
  {
    assert ([t] + rest)[1..] == rest;
  }

  /** Once a trade has been applied, a later delivery of its execution can be inserted anywhere. */
  lemma InsertRedelivery(
      l: Ledger, before: seq<Trade>, t: Trade, between: seq<Trade>, again: Trade, after: seq<Trade>, initialCash: real)
    requires var b := Run(l, before, initialCash);
             Acceptable(Normal(t)) && OutcomeOf(b, Normal(t), initialCash).Applied?
    requires Normal(again).tenant == Normal(t).tenant && IdempotencyKey(Normal(again)) == IdempotencyKey(Normal(t))
    ensures Run(l, before + ([t] + (between + ([again] + after))), initialCash)
         == Run(l, before + ([t] + (between + after)), initialCash)
  {
    var b := Run(l, before, initialCash);
    AppliedIsSeen(b, t, initialCash);
    var m := Run(Deliver(b, t, initialCash), between, initialCash);
    OnceSeenAlways(Deliver(b, t, initialCash), between, again, initialCash);
    SeenChangesNothing(m, again, initialCash);
    AfterTrade(l, before, t, between, [again] + after, initialCash);
    AfterTrade(l, before, t, between, after, initialCash);
    RunCons(m, again, after, initialCash);
  }

  lemma SeenChangesNothing(l: Ledger, t: Trade, initialCash: real)
    requires Seen(l, t)
    ensures Deliver(l, t, initialCash) == l
  {}

  lemma AfterTrade(
      l: Ledger, before: seq<Trade>, t: Trade, between: seq<Trade>, after: seq<Trade>, initialCash: real)
    ensures Run(l, before + ([t] + (between + after)), initialCash)
         == Run(Run(Deliver(Run(l, before, initialCash), t, initialCash), between, initialCash), after, initialCash)
  {
    RunConcat(l, before, [t] + (between + after), initialCash);
    RunCons(Run(l, before, initialCash), t, between + after, initialCash);
    RunConcat(Deliver(Run(l, before, initialCash), t, initialCash), between, after, initialCash);
  }

  /** Every applied trade leaves one processed row, one gain, one snapshot, one outbox row and two
      transactions, and nothing else leaves any. */
  lemma {:induction false} RowsInStep(l: Ledger, trades: seq<Trade>, initialCash: real)
    requires WellFormed(l) && initialCash >= 0.0
    ensures var e := Run(l, trades, initialCash);
            && |e.processed| - |l.processed| == |e.outbox| - |l.outbox| >= 0
            && |e.processed| - |l.processed| == |e.gains| - |l.gains| == |e.snapshots| - |l.snapshots|
            && |e.transactions| - |l.transactions| == 2 * (|e.processed| - |l.processed|)
    decreases trades
  {
    if trades != [] {
      var t := trades[0];
      DeliverKeeps(l, t, initialCash);
      RowsInStep(Deliver(l, t, initialCash), trades[1..], initialCash);
      if Acceptable(Normal(t)) && OutcomeOf(l, Normal(t), initialCash).Applied? {
        var o, r := AppliedHasShape(l, t, initialCash);
        BothRecorded(l, o, r, Normal(t), initialCash);
      }
    }
  }

  // ----- what is announced -----

  /** A snapshot and an announcement of the same healthy portfolio: worth what its books balance to
      and its gains, with cash that is not overdrawn and a position in what it just bought. */
  ghost predicate Agree(a: Snapshot, u: Update, opening: real) {
    && (a.tenant, a.portfolio, a.user, a.cash, a.totalValue, a.pnl)
       == (u.tenant, u.portfolio, u.user, u.cash, u.totalValue, u.pnl)
    && u.totalValue == opening + u.pnl && u.cash >= 0.0 && u.cashDelta < 0.0
    && u.position.Some? && u.position.value.quantity > 0.0
  }

  /** The i-th snapshot and the i-th announcement since l. */
  ghost predicate AgreeAt(l: Ledger, e: Ledger, initialCash: real, i: nat)
    requires |l.snapshots| + i < |e.snapshots| && |l.outbox| + i < |e.outbox|
  {
    var u := e.outbox[|l.outbox| + i];
    Agree(e.snapshots[|l.snapshots| + i], u, OpeningBook(l, initialCash, u.portfolio))
  }

  /** As many snapshots as announcements have been made since l, and they agree one by one. */
  ghost predicate AllAgree(l: Ledger, e: Ledger, initialCash: real) {
    && |e.snapshots| - |l.snapshots| == |e.outbox| - |l.outbox| >= 0
    && forall i: nat :: i < |e.outbox| - |l.outbox| ==> AgreeAt(l, e, initialCash, i)
  }

  /** Leaving out empty holdings does not change what the holdings are worth. */
  lemma {:induction false} HeldIsBooked(hs: seq<Holding>, p: nat)
    requires forall i :: 0 <= i < |hs| ==> hs[i].quantity >= 0.0
    ensures Total(hs, HeldValue(p)) == Total(hs, BookedValue(p))
  {
    if hs != [] { HeldIsBooked(hs[..|hs| - 1], p); }
  }

  lemma SettledAgrees(l: Ledger, o: Ledger, r: Rows, t: Trade, initialCash: real, opening: real)
    requires AppliedShape(l, o, r, t, initialCash) && NonNegative(l) && initialCash >= 0.0
    requires r.buyer < |Settled(o, r, t).portfolios|
             && TotalValue(Settled(o, r, t), r.buyer) == opening + Settled(o, r, t).portfolios[r.buyer].pnl
    ensures var d := Settled(o, r, t);
            exists a, u :: d.snapshots == l.snapshots + [a] && d.outbox == l.outbox + [u]
                           && u.portfolio == r.buyer && Agree(a, u, opening)
  {
    var d := Settled(o, r, t);
    SettledNonNegative(l, o, r, t, initialCash);
    HeldIsBooked(d.holdings, r.buyer);
    GrossPositive(t);
    assert d.holdings[r.bought] == Bought(o.holdings[r.bought], t.quantity, t.price);
    assert o.holdings[r.bought].quantity >= 0.0 by {
      if r.bought < |l.holdings| { assert o.holdings[r.bought] == l.holdings[r.bought]; }
    }
    var a, u := SnapshotOf(d.portfolios, d.holdings, r.buyer), UpdateOf(Moved(o, r, t), r, t);
    assert d.snapshots == l.snapshots + [a] && d.outbox == l.outbox + [u];
    assert Agree(a, u, opening);
  }

  /** From every well-formed ledger on, each snapshot and the announcement made with it say the same,
      and what they say is that the books balance. */
  lemma {:induction false} AnnouncedBalances(l: Ledger, trades: seq<Trade>, initialCash: real)
    requires WellFormed(l) && initialCash >= 0.0
    ensures AllAgree(l, Run(l, trades, initialCash), initialCash)
  {
    if trades != [] {
      var n := |trades| - 1;
      AnnouncedBalances(l, trades[..n], initialCash);
      AllButLast(trades);
      NextAnnounced(l, trades[..n], trades[n], trades, initialCash);
    }
  }

  lemma NextAnnounced(
      l: Ledger, before: seq<Trade>, t: Trade, trades: seq<Trade>, initialCash: real)
    requires WellFormed(l) && initialCash >= 0.0 && AllAgree(l, Run(l, before, initialCash), initialCash)
    requires trades == before + [t]
    ensures AllAgree(l, Run(l, trades, initialCash), initialCash)
  {
    RunKeeps(l, before, initialCash);
    LastDelivery(l, before, t, initialCash);
    DeliveryAgrees(l, Run(l, before, initialCash), trades, t, initialCash);
  }

  lemma LastDelivery(l: Ledger, before: seq<Trade>, t: Trade, initialCash: real)
    ensures Run(l, before + [t], initialCash) == Deliver(Run(l, before, initialCash), t, initialCash)
  {
    RunConcat(l, before, [t], initialCash);
    assert [t] + [] == [t];
    RunCons(Run(l, before, initialCash), t, [], initialCash);
  }

  /** The delivery of t to e, which is the last of these trades. */
  lemma DeliveryAgrees(l: Ledger, e: Ledger, trades: seq<Trade>, t: Trade, initialCash: real)
    requires WellFormed(l) && WellFormed(e) && initialCash >= 0.0 && AllAgree(l, e, initialCash)
    requires Run(l, trades, initialCash) == Deliver(e, t, initialCash)
    ensures AllAgree(l, Deliver(e, t, initialCash), initialCash)
  {
    if Acceptable(Normal(t)) && OutcomeOf(e, Normal(t), initialCash).Applied? {
      var o, r := AppliedHasShape(e, t, initialCash);
      TotalValueExplained(l, trades, initialCash, r.buyer);
      SettledAgrees(e, o, r, Normal(t), initialCash, OpeningBook(l, initialCash, r.buyer));
      var d := Deliver(e, t, initialCash);
      var a, u :| d.snapshots == e.snapshots + [a] && d.outbox == e.outbox + [u]
                  && u.portfolio == r.buyer && Agree(a, u, OpeningBook(l, initialCash, r.buyer));
      OneMoreAgrees(l, e, d, initialCash, a, u);
    }
  }

  lemma OneMoreAgrees(l: Ledger, e: Ledger, d: Ledger, initialCash: real, a: Snapshot, u: Update)
    requires AllAgree(l, e, initialCash) && d.snapshots == e.snapshots + [a] && d.outbox == e.outbox + [u]
    requires Agree(a, u, OpeningBook(l, initialCash, u.portfolio))
    ensures AllAgree(l, d, initialCash)
  {
    forall i: nat | i < |d.outbox| - |l.outbox| ensures AgreeAt(l, d, initialCash, i) {
      if i < |e.outbox| - |l.outbox| {
        assert AgreeAt(l, e, initialCash, i);
      }
    }
  }
}
