/** What one booked trade writes, table by table, and what a second delivery of it comes to. */
module LedgerDeliveries {
  import opened Options
  import opened Sequences
  import opened Sums
  import opened LedgerModel
  import opened LedgerTheorems
  import opened LedgerAccounts

  // ----- money, shares and rows of one trade -----

  /** A portfolio that was not there had the initial cash and nothing else. */
  function Before(l: Ledger, o: Portfolio, i: nat, initialCash: real): Portfolio {
    if i < |l.portfolios| then l.portfolios[i] else o.(cash := initialCash, pnl := 0.0)
  }

  function HeldBefore(l: Ledger, o: Holding, i: nat): Holding {
    if i < |l.holdings| then l.holdings[i] else o.(quantity := 0.0, average := 0.0)
  }

  /** The row was there, and is as it was. */
  predicate Kept<T(==)>(was: seq<T>, now: seq<T>, i: nat) {
    i < |was| && i < |now| && now[i] == was[i]
  }

  /** The buyer has paid quantity times price. */
  ghost predicate Paid(l: Ledger, d: Ledger, n: Trade, initialCash: real, b: nat) {
    && b < |d.portfolios|
    && var was, p := Before(l, d.portfolios[b], b, initialCash), d.portfolios[b];
       && p.tenant == n.tenant && p.user == n.buyer
       && p.cash == was.cash - Product(n.quantity, n.price) && p.pnl == was.pnl
  }

  /** The seller has got it, and gained the difference to what its shares cost on average. */
  ghost predicate Received(l: Ledger, d: Ledger, n: Trade, initialCash: real, s: nat, average: real) {
    && s < |d.portfolios|
    && var was, p := Before(l, d.portfolios[s], s, initialCash), d.portfolios[s];
       && p.tenant == n.tenant && p.user == n.seller && p.cash == was.cash + Product(n.quantity, n.price)
       && p.pnl == was.pnl + Product(n.price - average, n.quantity)
  }

  /** The money has changed hands, and no other portfolio has changed. */
  ghost predicate CashMoved(l: Ledger, d: Ledger, n: Trade, initialCash: real, r: Rows) {
    && r.buyer != r.seller && r.sold < |d.holdings| && |l.portfolios| <= |d.portfolios|
    && Paid(l, d, n, initialCash, r.buyer) && Received(l, d, n, initialCash, r.seller, d.holdings[r.sold].average)
    && (forall i: nat :: i < |d.portfolios| && i != r.buyer && i != r.seller ==> Kept(l.portfolios, d.portfolios, i))
  }

  /** The buyer has the shares, averaged in, the seller has them no more, and the average of what the
      seller has left is what it was; no other holding has changed. */
  ghost predicate SharesMoved(l: Ledger, d: Ledger, n: Trade, r: Rows) {
    && r.bought < |d.holdings| && r.sold < |d.holdings| && r.bought != r.sold && |l.holdings| <= |d.holdings|
    && (var was, h := HeldBefore(l, d.holdings[r.bought], r.bought), d.holdings[r.bought];
        && h.portfolio == r.buyer && h.symbol == n.symbol && h.tenant == n.tenant
        && h.quantity == was.quantity + n.quantity
        && Product(h.quantity, h.average) == Product(was.quantity, was.average) + Product(n.quantity, n.price))
    && (var was, h := HeldBefore(l, d.holdings[r.sold], r.sold), d.holdings[r.sold];
        && h.portfolio == r.seller && h.symbol == n.symbol && h.tenant == n.tenant
        && was.quantity >= n.quantity && h.quantity == was.quantity - n.quantity && h.average == was.average)
    && (forall i: nat :: i < |d.holdings| && i != r.bought && i != r.sold ==> Kept(l.holdings, d.holdings, i))
  }

  /** One transaction row for each side, and a row for the gain of the sale. */
  ghost predicate RowsAdded(l: Ledger, d: Ledger, n: Trade, r: Rows) {
    && |d.transactions| == |l.transactions| + 2 && d.transactions[..|l.transactions|] == l.transactions
    && |d.gains| == |l.gains| + 1 && d.gains[..|l.gains|] == l.gains && r.sold < |d.holdings|
    && (var x := d.transactions[|l.transactions|];
        && x.tenant == n.tenant && x.portfolio == r.buyer && x.user == n.buyer && x.order == n.buyOrder && x.side == Buy
        && x.execution == n.execution && x.symbol == n.symbol && x.quantity == n.quantity && x.price == n.price
        && x.netCash == -Product(n.quantity, n.price) && x.pnl == 0.0)
    && (var x := d.transactions[|l.transactions| + 1];
        && x.tenant == n.tenant && x.portfolio == r.seller && x.user == n.seller && x.order == n.sellOrder
        && x.side == Sell && x.execution == n.execution && x.symbol == n.symbol && x.quantity == n.quantity
        && x.price == n.price && x.netCash == Product(n.quantity, n.price)
        && x.pnl == Product(n.price - d.holdings[r.sold].average, n.quantity))
    && (var g := d.gains[|l.gains|];
        && g.tenant == n.tenant && g.portfolio == r.seller && g.user == n.seller && g.order == n.sellOrder
        && g.symbol == n.symbol && g.quantity == n.quantity && g.price == n.price
        && g.average == d.holdings[r.sold].average && g.realized == Product(n.price - g.average, n.quantity))
  }

  /** The announcement is of the buyer's portfolio as it now is, with its position in the symbol, and
      names the trade. */
  ghost predicate Announces(d: Ledger, n: Trade, u: Update) {
    && u.portfolio < |d.portfolios|
    && d.portfolios[u.portfolio].tenant == u.tenant == n.tenant && d.portfolios[u.portfolio].user == u.user == n.buyer
    && u.cash == d.portfolios[u.portfolio].cash && u.pnl == d.portfolios[u.portfolio].pnl
    && u.symbol == n.symbol && u.cashDelta == -Product(n.quantity, n.price)
    && u.event == n.eventId && u.execution == n.execution
    && exists h :: 0 <= h < |d.holdings| && IsPosition(d.holdings[h], u)
  }

  predicate IsPosition(h: Holding, u: Update) {
    h.portfolio == u.portfolio && h.symbol == u.symbol && u.position == Some(Position(h.quantity, h.average))
  }

  /** The snapshot is of the same portfolio. */
  ghost predicate Snaps(d: Ledger, n: Trade, a: Snapshot) {
    && a.portfolio < |d.portfolios| && a.tenant == n.tenant && a.user == n.buyer
    && d.portfolios[a.portfolio].tenant == n.tenant && d.portfolios[a.portfolio].user == n.buyer
    && a.cash == d.portfolios[a.portfolio].cash && a.pnl == d.portfolios[a.portfolio].pnl
    && a.totalValue == a.cash + a.holdingsValue
  }

  ghost predicate Remembered(l: Ledger, d: Ledger, n: Trade) {
    && |d.processed| == |l.processed| + 1 && d.processed[..|l.processed|] == l.processed
    && (var p := d.processed[|l.processed|]; p.tenant == n.tenant && p.eventId == n.eventId && p.payload.Some?)
    && |d.outbox| == |l.outbox| + 1 && d.outbox[..|l.outbox|] == l.outbox && Announces(d, n, d.outbox[|l.outbox|])
    && |d.snapshots| == |l.snapshots| + 1 && d.snapshots[..|l.snapshots|] == l.snapshots
    && Snaps(d, n, d.snapshots[|l.snapshots|])
  }

  lemma SettledCash(l: Ledger, o: Ledger, r: Rows, t: Trade, initialCash: real)
    requires AppliedShape(l, o, r, t, initialCash) && r == RowsFor(o, t)
    requires OnlyNew(|l.portfolios|, |o.portfolios|, r.buyer, r.seller)
    ensures CashMoved(l, Settled(o, r, t), t, initialCash, r)
  {
    var d := Settled(o, r, t);
    MovedPortfolios(o, r, t);
    SettledPaid(l, o, d, r, t, initialCash);
    SettledReceived(l, o, d, r, t, initialCash);
    OthersStay(l.portfolios, o.portfolios, d.portfolios, r.buyer, r.seller);
  }

  lemma SettledPaid(l: Ledger, o: Ledger, d: Ledger, r: Rows, t: Trade, initialCash: real)
    requires AppliedShape(l, o, r, t, initialCash) && r == RowsFor(o, t) && d == Settled(o, r, t)
    ensures Paid(l, d, t, initialCash, r.buyer)
  {
    MovedPortfolios(o, r, t);
    assert o.portfolios[r.buyer].user == t.buyer;
    OpenedPortfolio(l, o, initialCash, r.buyer);
  }

  lemma SettledReceived(l: Ledger, o: Ledger, d: Ledger, r: Rows, t: Trade, initialCash: real)
    requires AppliedShape(l, o, r, t, initialCash) && r == RowsFor(o, t) && d == Settled(o, r, t)
    ensures r.sold < |d.holdings| && Received(l, d, t, initialCash, r.seller, d.holdings[r.sold].average)
  {
    MovedPortfolios(o, r, t);
    assert o.portfolios[r.seller].user == t.seller;
    OpenedPortfolio(l, o, initialCash, r.seller);
  }

  lemma OthersStay<T>(was: seq<T>, more: seq<T>, now: seq<T>, a: nat, b: nat)
    requires was <= more && |now| == |more| && OnlyNew(|was|, |more|, a, b)
    requires forall i :: 0 <= i < |now| && i != a && i != b ==> now[i] == more[i]
    ensures forall i: nat :: i < |now| && i != a && i != b ==> Kept(was, now, i)
  {
    forall i: nat | i < |now| && i != a && i != b ensures Kept(was, now, i) {
      assert i >= |was| ==> Among(i, a, b);
      assert more[i] == was[i];
    }
  }

  predicate Among(i: nat, a: nat, b: nat) {
    i == a || i == b
  }

  /** Of the rows added, none is another than these two. */
  ghost predicate OnlyNew(from: nat, to: nat, a: nat, b: nat) {
    forall i: nat :: from <= i < to ==> Among(i, a, b)
  }

  lemma OpenedPortfolio(l: Ledger, o: Ledger, initialCash: real, i: nat)
    requires Extends(l, o, initialCash) && i < |o.portfolios|
    ensures o.portfolios[i].cash == Before(l, o.portfolios[i], i, initialCash).cash
    ensures o.portfolios[i].pnl == Before(l, o.portfolios[i], i, initialCash).pnl
  {}

  lemma OpenedHolding(l: Ledger, o: Ledger, initialCash: real, i: nat)
    requires Extends(l, o, initialCash) && i < |o.holdings| && NonNegative(l)
    ensures o.holdings[i] == HeldBefore(l, o.holdings[i], i) && o.holdings[i].quantity >= 0.0
  {
    if i < |l.holdings| { assert o.holdings[i] == l.holdings[i]; }
  }

  lemma SettledShares(l: Ledger, o: Ledger, r: Rows, t: Trade, initialCash: real)
    requires AppliedShape(l, o, r, t, initialCash) && NonNegative(l)
    requires OnlyNew(|l.holdings|, |o.holdings|, r.bought, r.sold)
    ensures SharesMoved(l, Settled(o, r, t), t, r)
  {
    var d := Settled(o, r, t);
    OpenedHolding(l, o, initialCash, r.bought);
    OpenedHolding(l, o, initialCash, r.sold);
    BoughtWorth(o.holdings[r.bought], t.quantity, t.price);
    assert d.holdings[r.bought] == Bought(o.holdings[r.bought], t.quantity, t.price);
    assert d.holdings[r.sold] == Sold(o.holdings[r.sold], t.quantity);
    OwnedBoth(o, r, t);
    OthersStay(l.holdings, o.holdings, d.holdings, r.bought, r.sold);
  }

  lemma OwnedBoth(o: Ledger, r: Rows, t: Trade)
    requires RowsMatch(o, r, t) && HoldingsOk(o)
    ensures o.holdings[r.bought].tenant == t.tenant && o.holdings[r.sold].tenant == t.tenant
  {}

  lemma SettledRows(l: Ledger, o: Ledger, r: Rows, t: Trade, initialCash: real)
    requires TransactionsOk(l) && AppliedShape(l, o, r, t, initialCash)
    ensures RowsAdded(l, Settled(o, r, t), t, r)
  {
    BothRecorded(l, o, r, t, initialCash);
  }

  lemma SettledAnnounces(l: Ledger, o: Ledger, r: Rows, t: Trade, initialCash: real)
    requires AppliedShape(l, o, r, t, initialCash) && NonNegative(l) && r == RowsFor(o, t)
    ensures Remembered(l, Settled(o, r, t), t)
  {
    var d := Settled(o, r, t);
    OpenedHolding(l, o, initialCash, r.bought);
    assert d.holdings[r.bought].quantity > 0.0;
    assert IsPosition(d.holdings[r.bought], d.outbox[|l.outbox|]);
  }

  lemma AddedPortfolio(ps: seq<Portfolio>, tenant: string, user: string, initialCash: real)
    ensures var qs := WithPortfolio(ps, tenant, user, initialCash);
            var i := FindPortfolio(qs, tenant, user); ps <= qs && i < |qs| && OnlyNew(|ps|, |qs|, i, i)
  {
    PortfolioThere(ps, tenant, user, initialCash);
  }

  lemma AddedHolding(hs: seq<Holding>, tenant: string, portfolio: nat, symbol: string)
    ensures var gs := WithHolding(hs, tenant, portfolio, symbol);
            var i := FindHolding(gs, portfolio, symbol); hs <= gs && i < |gs| && OnlyNew(|hs|, |gs|, i, i)
  {
    HoldingThere(hs, tenant, portfolio, symbol);
  }

  lemma OnlyNewTwice(from: nat, via: nat, to: nat, a: nat, b: nat)
    requires from <= via <= to && OnlyNew(from, via, a, a) && OnlyNew(via, to, b, b)
    ensures OnlyNew(from, to, a, b) && OnlyNew(from, to, b, a)
  {
    forall i: nat | from <= i < to ensures Among(i, a, b) && Among(i, b, a) {
      assert if i < via then Among(i, a, a) else Among(i, b, b);
    }
  }

  lemma PortfoliosAdded(ps: seq<Portfolio>, tenant: string, x: string, y: string, initialCash: real)
    ensures var qs := WithPortfolio(WithPortfolio(ps, tenant, x, initialCash), tenant, y, initialCash);
            OnlyNew(|ps|, |qs|, FindPortfolio(qs, tenant, x), FindPortfolio(qs, tenant, y))
  {
    var via := WithPortfolio(ps, tenant, x, initialCash);
    var qs := WithPortfolio(via, tenant, y, initialCash);
    AddedPortfolio(ps, tenant, x, initialCash);
    AddedPortfolio(via, tenant, y, initialCash);
    StillThere(via, qs, tenant, x);
    OnlyNewTwice(|ps|, |via|, |qs|, FindPortfolio(qs, tenant, x), FindPortfolio(qs, tenant, y));
  }

  lemma HoldingsAdded(hs: seq<Holding>, tenant: string, p: nat, q: nat, symbol: string)
    ensures var gs := WithHolding(WithHolding(hs, tenant, p, symbol), tenant, q, symbol);
            && OnlyNew(|hs|, |gs|, FindHolding(gs, p, symbol), FindHolding(gs, q, symbol))
            && OnlyNew(|hs|, |gs|, FindHolding(gs, q, symbol), FindHolding(gs, p, symbol))
  {
    var via := WithHolding(hs, tenant, p, symbol);
    var gs := WithHolding(via, tenant, q, symbol);
    AddedHolding(hs, tenant, p, symbol);
    AddedHolding(via, tenant, q, symbol);
    HoldingStillThere(via, gs, p, symbol);
    OnlyNewTwice(|hs|, |via|, |gs|, FindHolding(gs, p, symbol), FindHolding(gs, q, symbol));
  }

  /** Only the two portfolios and the two holdings of a trade are opened. */
  lemma OnlyTheirsOpened(l: Ledger, t: Trade, initialCash: real)
    ensures var o := Opened(l, t, initialCash);
            var r := RowsFor(o, t);
            && OnlyNew(|l.portfolios|, |o.portfolios|, r.buyer, r.seller)
            && OnlyNew(|l.holdings|, |o.holdings|, r.bought, r.sold)
  {
    PortfoliosAdded(l.portfolios, t.tenant, t.buyer, t.seller, initialCash);
    var ps := Opened(l, t, initialCash).portfolios;
    var b, s := FindPortfolio(ps, t.tenant, t.buyer), FindPortfolio(ps, t.tenant, t.seller);
    HoldingsAdded(l.holdings, t.tenant, if b <= s then b else s, if b <= s then s else b, t.symbol);
  }

  /** A booked trade moves the money and the shares between its two users, adds its rows and announces
      the purchase. */
  lemma DeliveryWrites(l: Ledger, t: Trade, initialCash: real) returns (r: Rows)
    requires WellFormed(l) && Acceptable(Normal(t)) && OutcomeOf(l, Normal(t), initialCash).Applied?
    ensures var d, n := Deliver(l, t, initialCash), Normal(t);
            && CashMoved(l, d, n, initialCash, r) && SharesMoved(l, d, n, r)
            && RowsAdded(l, d, n, r) && Remembered(l, d, n)
  {
    var o;
    o, r := AppliedHasShape(l, t, initialCash);
    SettledWrites(l, o, r, Normal(t), initialCash);
  }

  lemma SettledWrites(l: Ledger, o: Ledger, r: Rows, n: Trade, initialCash: real)
    requires WellFormed(l) && AppliedShape(l, o, r, n, initialCash)
    requires o == Opened(l, n, initialCash) && r == RowsFor(o, n)
    ensures var d := Settled(o, r, n);
            && CashMoved(l, d, n, initialCash, r) && SharesMoved(l, d, n, r)
            && RowsAdded(l, d, n, r) && Remembered(l, d, n)
  {
    OnlyTheirsOpened(l, n, initialCash);
    SettledCash(l, o, r, n, initialCash);
    SettledShares(l, o, r, n, initialCash);
    SettledRows(l, o, r, n, initialCash);
    SettledAnnounces(l, o, r, n, initialCash);
  }

  // ----- every announcement of a run -----

  /** The announcement with this number was made by delivery k: it is the next one before it, and what
      it says is what the ledger held right after it. */
  ghost predicate MadeBy(l: Ledger, trades: seq<Trade>, initialCash: real, k: nat, number: nat, u: Update)
    requires k < |trades|
  {
    && |Run(l, trades[..k], initialCash).outbox| == number
    && Announces(Run(l, trades[..k + 1], initialCash), Normal(trades[k]), u)
  }

  ghost predicate Made(l: Ledger, trades: seq<Trade>, initialCash: real, number: nat, u: Update) {
    exists k: nat :: k < |trades| && MadeBy(l, trades, initialCash, k, number, u)
  }

  ghost predicate AllMade(l: Ledger, trades: seq<Trade>, initialCash: real, e: Ledger) {
    forall i :: |l.outbox| <= i < |e.outbox| ==> Made(l, trades, initialCash, i, e.outbox[i])
  }

  lemma StillMade(l: Ledger, before: seq<Trade>, trades: seq<Trade>, initialCash: real, number: nat, u: Update)
    requires before <= trades && Made(l, before, initialCash, number, u)
    ensures Made(l, trades, initialCash, number, u)
  {
    var k: nat :| k < |before| && MadeBy(l, before, initialCash, k, number, u);
    assert trades[..k] == before[..k] && trades[..k + 1] == before[..k + 1];
    assert MadeBy(l, trades, initialCash, k, number, u);
  }

  lemma LastMade(l: Ledger, trades: seq<Trade>, initialCash: real, number: nat, u: Update)
    requires trades != [] && |Run(l, trades[..|trades| - 1], initialCash).outbox| == number
    requires Announces(Run(l, trades, initialCash), Normal(trades[|trades| - 1]), u)
    ensures Made(l, trades, initialCash, number, u)
  {
    assert trades[..|trades|] == trades;
    assert MadeBy(l, trades, initialCash, |trades| - 1, number, u);
  }

  /** Over every run, each announcement is that of one of its trades: the position and the balance are
      those of the buyer right after that trade, and the change of cash, the symbol, the event and the
      execution are the trade's. */
  lemma {:induction false} AnnouncementsAreTrades(l: Ledger, trades: seq<Trade>, initialCash: real)
    requires WellFormed(l) && initialCash >= 0.0
    ensures AllMade(l, trades, initialCash, Run(l, trades, initialCash))
  {
    if trades != [] {
      var n := |trades| - 1;
      AnnouncementsAreTrades(l, trades[..n], initialCash);
      AllButLast(trades);
      RunKeeps(l, trades[..n], initialCash);
      LastDelivery(l, trades[..n], trades[n], initialCash);
      var e := Run(l, trades[..n], initialCash);
      var us := DeliveryAnnounces(e, trades[n], initialCash);
      OneMoreMade(l, trades, n, e, Run(l, trades, initialCash), us, initialCash);
    }
  }

  /** A delivery makes one announcement or none. */
  lemma DeliveryAnnounces(e: Ledger, t: Trade, initialCash: real) returns (us: seq<Update>)
    requires WellFormed(e)
    ensures Deliver(e, t, initialCash).outbox == e.outbox + us && |us| <= 1
    ensures us != [] ==> Announces(Deliver(e, t, initialCash), Normal(t), us[0])
  {
    us := [];
    if Acceptable(Normal(t)) && OutcomeOf(e, Normal(t), initialCash).Applied? {
      var r := DeliveryWrites(e, t, initialCash);
      us := [Deliver(e, t, initialCash).outbox[|e.outbox|]];
      AllButLast(Deliver(e, t, initialCash).outbox);
    }
  }

  lemma OneMoreMade(
      l: Ledger, trades: seq<Trade>, n: nat, e: Ledger, d: Ledger, us: seq<Update>, initialCash: real)
    requires |trades| == n + 1 && AllMade(l, trades[..n], initialCash, e)
    requires e == Run(l, trades[..n], initialCash) && d == Run(l, trades, initialCash)
    requires d.outbox == e.outbox + us && |us| <= 1 && (us != [] ==> Announces(d, Normal(trades[n]), us[0]))
    ensures AllMade(l, trades, initialCash, d)
  {
    forall i | |l.outbox| <= i < |d.outbox| ensures Made(l, trades, initialCash, i, d.outbox[i]) {
      if i < |e.outbox| {
        StillMade(l, trades[..n], trades, initialCash, i, e.outbox[i]);
      } else {
        LastMade(l, trades, initialCash, i, d.outbox[i]);
      }
    }
  }

  // ----- what a delivery comes to -----

  /** What a user can spend: the initial cash without a portfolio. */
  function CashOf(l: Ledger, tenant: string, user: string, initialCash: real): real {
    var i := FindPortfolio(l.portfolios, tenant, user);
    if i < |l.portfolios| then l.portfolios[i].cash else initialCash
  }

  /** What a user can sell of a symbol. */
  function SharesOf(l: Ledger, tenant: string, user: string, symbol: string): real {
    var i := FindPortfolio(l.portfolios, tenant, user);
    var h := FindHolding(l.holdings, i, symbol);
    if i < |l.portfolios| && h < |l.holdings| then l.holdings[h].quantity else 0.0
  }

  /** A new execution is booked exactly when the buyer has the cash, the seller has the shares and its
      event is new; the first of the three that fails is the reason. */
  lemma OutcomeExactlyWhen(l: Ledger, n: Trade, initialCash: real)
    requires WellFormed(l) && n.buyer != n.seller && n.quantity > 0.0
    requires forall i :: 0 <= i < |l.processed| ==>
               !(l.processed[i].tenant == n.tenant && l.processed[i].key == IdempotencyKey(n))
    ensures OutcomeOf(l, n, initialCash) ==
              if CashOf(l, n.tenant, n.buyer, initialCash) < Product(n.quantity, n.price) then InsufficientCash
              else if SharesOf(l, n.tenant, n.seller, n.symbol) < n.quantity then InsufficientHoldings
              else if exists i :: 0 <= i < |l.processed| && l.processed[i].tenant == n.tenant
                                  && l.processed[i].eventId == n.eventId then EventReused
              else Applied
  {
    var o := Opened(l, n, initialCash);
    var r := RowsFor(o, n);
    OpenedExtends(l, n, initialCash);
    OpenedBuyerCash(l, n, o, r, initialCash);
    OpenedSellerShares(l, n, o, r, initialCash);
  }

  lemma OpenedBuyerCash(l: Ledger, n: Trade, o: Ledger, r: Rows, initialCash: real)
    requires o == Opened(l, n, initialCash) && r == RowsFor(o, n) && Extends(l, o, initialCash) && RowsExist(o, r)
    ensures o.portfolios[r.buyer].cash == CashOf(l, n.tenant, n.buyer, initialCash)
  {
    var i := FindPortfolio(l.portfolios, n.tenant, n.buyer);
    if i < |l.portfolios| {
      StillThere(l.portfolios, o.portfolios, n.tenant, n.buyer);
    } else {
      NotThereYet(l.portfolios, o.portfolios, n.tenant, n.buyer);
    }
  }

  lemma NotThereYet(ps: seq<Portfolio>, qs: seq<Portfolio>, tenant: string, user: string)
    requires ps <= qs && FindPortfolio(ps, tenant, user) == |ps|
    ensures FindPortfolio(qs, tenant, user) >= |ps|
  {
    assert forall k :: 0 <= k < |ps| ==> qs[k] == ps[k];
  }

  lemma HoldingNotThereYet(hs: seq<Holding>, gs: seq<Holding>, portfolio: nat, symbol: string)
    requires hs <= gs && FindHolding(hs, portfolio, symbol) == |hs|
    ensures FindHolding(gs, portfolio, symbol) >= |hs|
  {
    assert forall k :: 0 <= k < |hs| ==> gs[k] == hs[k];
  }

  lemma NoHoldingBeyond(l: Ledger, portfolio: nat, symbol: string)
    requires HoldingsOk(l) && portfolio >= |l.portfolios|
    ensures FindHolding(l.holdings, portfolio, symbol) == |l.holdings|
  {}

  lemma OpenedSellerShares(l: Ledger, n: Trade, o: Ledger, r: Rows, initialCash: real)
    requires HoldingsOk(l) && o == Opened(l, n, initialCash) && r == RowsFor(o, n)
    requires Extends(l, o, initialCash) && RowsExist(o, r)
    ensures o.holdings[r.sold].quantity == SharesOf(l, n.tenant, n.seller, n.symbol)
  {
    var i := FindPortfolio(l.portfolios, n.tenant, n.seller);
    if i < |l.portfolios| {
      StillThere(l.portfolios, o.portfolios, n.tenant, n.seller);
    } else {
      NotThereYet(l.portfolios, o.portfolios, n.tenant, n.seller);
      NoHoldingBeyond(l, r.seller, n.symbol);
    }
    var h := FindHolding(l.holdings, r.seller, n.symbol);
    if h < |l.holdings| {
      HoldingStillThere(l.holdings, o.holdings, r.seller, n.symbol);
    } else {
      HoldingNotThereYet(l.holdings, o.holdings, r.seller, n.symbol);
    }
  }

  /** A transaction row is kept out exactly by one of the same tenant, portfolio, execution and side. */
  lemma RecordedExactly(ts: seq<Transaction>, x: Transaction)
    ensures (exists i :: 0 <= i < |ts| && ts[i].tenant == x.tenant && ts[i].portfolio == x.portfolio
                         && ts[i].execution == x.execution && ts[i].side == x.side) ==> Recorded(ts, x) == ts
    ensures Recorded(ts, x) != ts + [x] ==>
              exists i :: 0 <= i < |ts| && ts[i].tenant == x.tenant && ts[i].portfolio == x.portfolio
                          && ts[i].execution == x.execution && ts[i].side == x.side
  {
    if i :| 0 <= i < |ts| && ts[i].tenant == x.tenant && ts[i].portfolio == x.portfolio
            && ts[i].execution == x.execution && ts[i].side == x.side {
      assert SameRow(ts[i], x);
    }
  }

  // ----- a second delivery -----

  /** What tells deliveries apart: the execution, without one the trade, without either the event. */
  lemma KeyExactly(t: Trade)
    ensures Trim(t.execution) != "" ==> IdempotencyKey(t) == "execution:" + Trim(t.execution)
    ensures Trim(t.execution) == "" != Trim(t.trade) ==> IdempotencyKey(t) == "trade:" + Trim(t.trade)
    ensures Trim(t.execution) == "" == Trim(t.trade) ==> IdempotencyKey(t) == "event:" + Trim(t.eventId)
  {}

  /** Everything about a trade that its payload hash covers. */
  predicate SameContent(a: Trade, b: Trade) {
    && a.execution == b.execution && a.buyOrder == b.buyOrder && a.sellOrder == b.sellOrder
    && a.buyer == b.buyer && a.seller == b.seller && a.symbol == b.symbol
    && a.quantity == b.quantity && a.price == b.price && a.currency == b.currency
  }

  /** Two acceptable trades are deliveries of the same thing exactly when they name one execution. */
  lemma SameKey(a: Trade, b: Trade)
    requires Acceptable(Normal(a)) && Acceptable(Normal(b))
    ensures IdempotencyKey(Normal(a)) == IdempotencyKey(Normal(b)) <==> Normal(a).execution == Normal(b).execution
  {
    TrimTwice(a.execution);
    TrimTwice(b.execution);
    var x, y := Normal(a).execution, Normal(b).execution;
    var p := "execution:";
    if p + x == p + y { assert (p + x)[|p|..] == x && (p + y)[|p|..] == y; }
  }

  lemma {:induction false} ProcessedGrows(l: Ledger, trades: seq<Trade>, initialCash: real)
    ensures l.processed <= Run(l, trades, initialCash).processed
    decreases trades
  {
    if trades != [] { ProcessedGrows(Deliver(l, trades[0], initialCash), trades[1..], initialCash); }
  }

  /** Once a trade is booked, a later delivery of its execution changes nothing: it is a duplicate if it
      says the same, and in conflict if it says anything else. */
  lemma RedeliveryOutcome(l: Ledger, t: Trade, between: seq<Trade>, again: Trade, initialCash: real)
    requires Acceptable(Normal(t)) && OutcomeOf(l, Normal(t), initialCash).Applied? && Acceptable(Normal(again))
    requires Normal(again).tenant == Normal(t).tenant && Normal(again).execution == Normal(t).execution
    ensures var m := Run(Deliver(l, t, initialCash), between, initialCash);
            && Deliver(m, again, initialCash) == m
            && OutcomeOf(m, Normal(again), initialCash)
                 == if SameContent(Normal(t), Normal(again)) then Duplicate else PayloadConflict
  {
    var n, d := Normal(t), Deliver(l, t, initialCash);
    var m := Run(d, between, initialCash);
    SameKey(t, again);
    BookedIsFound(l, t, initialCash);
    ProcessedGrows(d, between, initialCash);
    StaysProcessed(d.processed, m.processed, n.tenant, IdempotencyKey(n));
    FoundDecides(m, Normal(again), PayloadOf(n), initialCash);
  }

  /** A row from before the payload was hashed makes every later delivery a duplicate. */
  lemma UnhashedIsDuplicate(m: Ledger, n: Trade, initialCash: real)
    requires var i := FindProcessed(m.processed, n.tenant, IdempotencyKey(n));
             i < |m.processed| && m.processed[i].payload.None?
    ensures OutcomeOf(m, n, initialCash) == Duplicate
  {}

  lemma BookedIsFound(l: Ledger, t: Trade, initialCash: real)
    requires Acceptable(Normal(t)) && OutcomeOf(l, Normal(t), initialCash).Applied?
    ensures var n, ps := Normal(t), Deliver(l, t, initialCash).processed;
            var i := FindProcessed(ps, n.tenant, IdempotencyKey(n));
            i < |ps| && ps[i].payload == Some(PayloadOf(n))
  {
    var n := Normal(t);
    NowProcessed(l.processed, Processed(n.tenant, n.eventId, IdempotencyKey(n), Some(PayloadOf(n))));
    FoundLast(l.processed, Deliver(l, t, initialCash).processed, n.tenant, IdempotencyKey(n));
  }

  lemma FoundDecides(m: Ledger, n: Trade, p: Payload, initialCash: real)
    requires var i := FindProcessed(m.processed, n.tenant, IdempotencyKey(n));
             i < |m.processed| && m.processed[i].payload == Some(p)
    ensures OutcomeOf(m, n, initialCash) == if p == PayloadOf(n) then Duplicate else PayloadConflict
  {}

  /** What was not processed is found where it is added. */
  lemma FoundLast(ps: seq<Processed>, qs: seq<Processed>, tenant: string, key: string)
    requires FindProcessed(ps, tenant, key) == |ps| && |qs| == |ps| + 1 && ps <= qs
    requires FindProcessed(qs, tenant, key) < |qs|
    ensures FindProcessed(qs, tenant, key) == |ps|
  {
    assert forall k :: 0 <= k < |ps| ==> qs[k] == ps[k];
  }
}
