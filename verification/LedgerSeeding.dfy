/** Shares enter the ledger by seeding only: without any, no trade is ever booked, and with some,
    a first trade is. */
module LedgerSeeding {
  import opened Options
  import opened Sums
  import opened LedgerModel
  import opened LedgerTheorems
  import opened LedgerAccounts

  /** Nobody in the tenant has any of the symbol. */
  ghost predicate NoneHeld(l: Ledger, tenant: string, symbol: string) {
    forall i :: 0 <= i < |l.holdings| && l.holdings[i].tenant == tenant && l.holdings[i].symbol == symbol ==>
      l.holdings[i].quantity <= 0.0
  }

  lemma SoldWasHeld(l: Ledger, o: Ledger, r: Rows, t: Trade, initialCash: real)
    requires AppliedShape(l, o, r, t, initialCash)
    ensures !NoneHeld(l, t.tenant, t.symbol)
  {
    assert r.sold < |l.holdings| && l.holdings[r.sold] == o.holdings[r.sold];
  }

  /** A trade in a symbol that nobody in its tenant holds is not booked. */
  lemma UnheldRefused(l: Ledger, t: Trade, initialCash: real)
    requires WellFormed(l) && NoneHeld(l, Normal(t).tenant, Normal(t).symbol)
    ensures Deliver(l, t, initialCash) == l
  {
    if Acceptable(Normal(t)) && OutcomeOf(l, Normal(t), initialCash).Applied? {
      var o, r := AppliedHasShape(l, t, initialCash);
      SoldWasHeld(l, o, r, Normal(t), initialCash);
    }
  }

  /** Without shares in anybody's hands no run changes anything. */
  lemma {:induction false} NothingFromNothing(l: Ledger, trades: seq<Trade>, initialCash: real)
    requires WellFormed(l) && forall i :: 0 <= i < |l.holdings| ==> l.holdings[i].quantity <= 0.0
    ensures Run(l, trades, initialCash) == l
    decreases trades
  {
    if trades != [] {
      UnheldRefused(l, trades[0], initialCash);
      NothingFromNothing(l, trades[1..], initialCash);
    }
  }

  // ----- a first trade -----

  /** One user with some shares at a cost, and nobody else. */
  function Seeded(quantity: real, average: real): Ledger {
    Ledger([Portfolio("t", "s", 0.0, 0.0)], [Holding("t", 0, "X", quantity, average)], [], [], [], [], [])
  }

  function FirstTrade(quantity: real, price: real): Trade {
    Trade("e", "1.0", "t", "x", "", "B", "S", "b", "s", "X", quantity, price, "USD", Some(0))
  }

  lemma Normal1(c: char)
    requires !IsSpace(c)
    ensures Trim([c]) == [c]
  {}

  lemma FirstTradeIsNormal(quantity: real, price: real)
    ensures Normal(FirstTrade(quantity, price)) == FirstTrade(quantity, price)
  {
    Normal1('t'); Normal1('x'); Normal1('B'); Normal1('S'); Normal1('b'); Normal1('s'); Normal1('X');
    assert Trim("1.0") == "1.0" && Trim("USD") == "USD" && Upper("USD") == "USD" && Upper("X") == "X";
  }

  function BothOpen(quantity: real, average: real, initialCash: real): Ledger {
    Ledger([Portfolio("t", "s", 0.0, 0.0), Portfolio("t", "b", initialCash, 0.0)],
           [Holding("t", 0, "X", quantity, average), Holding("t", 1, "X", 0.0, 0.0)], [], [], [], [], [])
  }

  lemma PortfoliosFound(ps: seq<Portfolio>)
    requires |ps| == 2 && ps[0].tenant == ps[1].tenant == "t" && ps[0].user == "s" && ps[1].user == "b"
    ensures FindPortfolio(ps, "t", "s") == 0 && FindPortfolio(ps, "t", "b") == 1
    ensures FindPortfolio(ps[..1], "t", "b") == 1
  {
    assert "s"[0] != "b"[0];
  }

  lemma HoldingsFound(hs: seq<Holding>)
    requires |hs| == 2 && hs[0].symbol == hs[1].symbol == "X" && hs[0].portfolio == 0 && hs[1].portfolio == 1
    ensures FindHolding(hs, 0, "X") == 0 && FindHolding(hs, 1, "X") == 1
    ensures FindHolding(hs[..1], 0, "X") == 0 && FindHolding(hs[..1], 1, "X") == 1
  {}

  lemma FirstTradeOpens(quantity: real, average: real, price: real, initialCash: real)
    ensures var l, t := Seeded(quantity, average), FirstTrade(quantity, price);
            var o := BothOpen(quantity, average, initialCash);
            Opened(l, t, initialCash) == o && RowsFor(o, t) == Rows(1, 0, 1, 0)
  {
    var l, o := Seeded(quantity, average), BothOpen(quantity, average, initialCash);
    PortfoliosFound(o.portfolios);
    HoldingsFound(o.holdings);
    assert o.portfolios[..1] == l.portfolios && o.holdings[..1] == l.holdings;
    assert o.portfolios == l.portfolios + [o.portfolios[1]] && o.holdings == l.holdings + [o.holdings[1]];
  }

  lemma FirstTradeOutcome(quantity: real, average: real, price: real, initialCash: real)
    requires quantity > 0.0 && price > 0.0 && initialCash >= Product(quantity, price)
    ensures OutcomeOf(Seeded(quantity, average), FirstTrade(quantity, price), initialCash) == Applied
  {
    FirstTradeOpens(quantity, average, price, initialCash);
  }

  lemma FirstTradeSettles(quantity: real, average: real, price: real, initialCash: real)
    requires quantity > 0.0 && price > 0.0 && initialCash >= Product(quantity, price)
    ensures Deliver(Seeded(quantity, average), FirstTrade(quantity, price), initialCash)
         == Settled(BothOpen(quantity, average, initialCash), Rows(1, 0, 1, 0), FirstTrade(quantity, price))
  {
    FirstTradeIsNormal(quantity, price);
    FirstTradeOpens(quantity, average, price, initialCash);
    FirstTradeOutcome(quantity, average, price, initialCash);
  }

  /** The buyer has paid, the seller has been paid and has booked the gain, and the purchase has
      been announced. */
  ghost predicate SharesSold(e: Ledger, quantity: real, average: real, price: real, initialCash: real) {
    && |e.portfolios| == 2 && e.portfolios[0].user == "s" && e.portfolios[1].user == "b"
    && e.portfolios[0].cash == Product(quantity, price) && e.portfolios[0].pnl == Product(price - average, quantity)
    && e.portfolios[1].cash == initialCash - Product(quantity, price)
    && |e.outbox| == |e.snapshots| == 1 && e.outbox[0].portfolio == 1
  }

  lemma SettledSold(quantity: real, average: real, price: real, initialCash: real)
    ensures SharesSold(Settled(BothOpen(quantity, average, initialCash), Rows(1, 0, 1, 0), FirstTrade(quantity, price)),
                 quantity, average, price, initialCash)
  {
    var o, t := BothOpen(quantity, average, initialCash), FirstTrade(quantity, price);
    assert RowsMatch(o, Rows(1, 0, 1, 0), t);
    MovedPortfolios(o, Rows(1, 0, 1, 0), t);
  }

  lemma SeededWellFormed(quantity: real, average: real)
    requires quantity >= 0.0
    ensures WellFormed(Seeded(quantity, average))
  {}

  /** From a ledger in which one user has shares, their sale to a user without a portfolio goes
      through: it opens one. */
  lemma FirstTradeApplies(quantity: real, average: real, price: real, initialCash: real)
    requires quantity > 0.0 && price > 0.0 && initialCash >= Product(quantity, price)
    ensures WellFormed(Seeded(quantity, average))
    ensures SharesSold(Run(Seeded(quantity, average), [FirstTrade(quantity, price)], initialCash),
                 quantity, average, price, initialCash)
  {
    SeededWellFormed(quantity, average);
    FirstTradeSettles(quantity, average, price, initialCash);
    SettledSold(quantity, average, price, initialCash);
    LastDelivery(Seeded(quantity, average), [], FirstTrade(quantity, price), initialCash);
    assert [] + [FirstTrade(quantity, price)] == [FirstTrade(quantity, price)];
  }
}
