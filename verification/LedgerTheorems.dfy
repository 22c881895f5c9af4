/** What every run of the ledger keeps: books balance, transactions explain balances, money and
    shares only change hands, and a redelivery changes nothing. */
module LedgerTheorems {
  import opened Options
  import opened Sequences
  import opened Sums
  import opened LedgerModel

  // ----- well-formed tables -----

  ghost predicate HoldingsOk(l: Ledger) {
    Owned(l.holdings, l.portfolios)
  }

  /** One portfolio per user, one holding per portfolio and symbol. */
  ghost predicate Unique(l: Ledger) {
    && (forall i, j :: 0 <= i < j < |l.portfolios| ==>
          !(l.portfolios[i].tenant == l.portfolios[j].tenant && l.portfolios[i].user == l.portfolios[j].user))
    && (forall i, j :: 0 <= i < j < |l.holdings| ==>
          !(l.holdings[i].portfolio == l.holdings[j].portfolio && l.holdings[i].symbol == l.holdings[j].symbol))
  }

  /** Transactions belong to portfolios and to processed executions. */
  ghost predicate TransactionsOk(l: Ledger) {
    forall i :: 0 <= i < |l.transactions| ==>
      && l.transactions[i].portfolio < |l.portfolios|
      && IsProcessed(l, l.transactions[i].tenant, "execution:" + l.transactions[i].execution)
  }

  ghost predicate GainsOk(l: Ledger) {
    forall i :: 0 <= i < |l.gains| ==> l.gains[i].portfolio < |l.portfolios|
  }

  ghost predicate ProcessedOnce(l: Ledger) {
    forall i, j :: 0 <= i < j < |l.processed| ==>
      !(l.processed[i].tenant == l.processed[j].tenant && l.processed[i].key == l.processed[j].key)
  }

  ghost predicate NonNegative(l: Ledger) {
    && (forall i :: 0 <= i < |l.portfolios| ==> l.portfolios[i].cash >= 0.0)
    && (forall i :: 0 <= i < |l.holdings| ==> l.holdings[i].quantity >= 0.0)
  }

  ghost predicate WellFormed(l: Ledger) {
    HoldingsOk(l) && Unique(l) && TransactionsOk(l) && GainsOk(l) && ProcessedOnce(l) && NonNegative(l)
  }

  // ----- opening portfolios and holdings -----

  /** Rows are only added: portfolios with the initial cash, holdings with nothing in them. */
  ghost predicate Extends(l: Ledger, o: Ledger, initialCash: real) {
    && l.portfolios <= o.portfolios && l.holdings <= o.holdings
    && o.transactions == l.transactions && o.gains == l.gains
    && o.processed == l.processed && o.snapshots == l.snapshots && o.outbox == l.outbox
    && (forall i :: |l.portfolios| <= i < |o.portfolios| ==>
          o.portfolios[i].cash == initialCash && o.portfolios[i].pnl == 0.0)
    && (forall i :: |l.holdings| <= i < |o.holdings| ==>
          o.holdings[i].quantity == 0.0 && o.holdings[i].average == 0.0)
  }

  /** The rows of a trade are those of its two users. */
  ghost predicate RowsMatch(o: Ledger, r: Rows, t: Trade) {
    && RowsExist(o, r) && r.buyer != r.seller && r.bought != r.sold
    && o.holdings[r.bought].portfolio == r.buyer && o.holdings[r.sold].portfolio == r.seller
    && o.holdings[r.bought].symbol == t.symbol && o.holdings[r.sold].symbol == t.symbol
    && o.portfolios[r.buyer].tenant == t.tenant && o.portfolios[r.seller].tenant == t.tenant
  }

  lemma OpenedExtends(l: Ledger, t: Trade, initialCash: real)
    requires t.buyer != t.seller
    ensures Extends(l, Opened(l, t, initialCash), initialCash)
    ensures RowsMatch(Opened(l, t, initialCash), RowsFor(Opened(l, t, initialCash), t), t)
  {
    var ps := WithPortfolio(l.portfolios, t.tenant, t.buyer, initialCash);
    PortfoliosExtend(l.portfolios, ps, WithPortfolio(ps, t.tenant, t.seller, initialCash), initialCash);
    var o := Opened(l, t, initialCash);
    var b, s := FindPortfolio(o.portfolios, t.tenant, t.buyer), FindPortfolio(o.portfolios, t.tenant, t.seller);
    var p, q := if b <= s then b else s, if b <= s then s else b;
    HoldingsExtend(l.holdings, WithHolding(l.holdings, t.tenant, p, t.symbol), o.holdings);
    OpenedMatches(l, t, initialCash);
  }

  lemma OpenedMatches(l: Ledger, t: Trade, initialCash: real)
    requires t.buyer != t.seller
    ensures RowsMatch(Opened(l, t, initialCash), RowsFor(Opened(l, t, initialCash), t), t)
  {
    OpenedHasRows(l, t, initialCash);
  }

  lemma PortfoliosExtend(a: seq<Portfolio>, b: seq<Portfolio>, c: seq<Portfolio>, initialCash: real)
    requires a <= b <= c
    requires forall i :: |a| <= i < |b| ==> b[i].cash == initialCash && b[i].pnl == 0.0
    requires forall i :: |b| <= i < |c| ==> c[i].cash == initialCash && c[i].pnl == 0.0
    ensures a <= c && forall i :: |a| <= i < |c| ==> c[i].cash == initialCash && c[i].pnl == 0.0
  {}

  lemma HoldingsExtend(a: seq<Holding>, b: seq<Holding>, c: seq<Holding>)
    requires a <= b <= c
    requires forall i :: |a| <= i < |b| ==> b[i].quantity == 0.0 && b[i].average == 0.0
    requires forall i :: |b| <= i < |c| ==> c[i].quantity == 0.0 && c[i].average == 0.0
    ensures a <= c && forall i :: |a| <= i < |c| ==> c[i].quantity == 0.0 && c[i].average == 0.0
  {}

  lemma PortfolioUnique(ps: seq<Portfolio>, tenant: string, user: string, initialCash: real)
    requires forall i, j :: 0 <= i < j < |ps| ==> !(ps[i].tenant == ps[j].tenant && ps[i].user == ps[j].user)
    ensures var qs := WithPortfolio(ps, tenant, user, initialCash);
            forall i, j :: 0 <= i < j < |qs| ==> !(qs[i].tenant == qs[j].tenant && qs[i].user == qs[j].user)
  {}

  lemma HoldingUnique(hs: seq<Holding>, tenant: string, portfolio: nat, symbol: string)
    requires forall i, j :: 0 <= i < j < |hs| ==> !(hs[i].portfolio == hs[j].portfolio && hs[i].symbol == hs[j].symbol)
    ensures var gs := WithHolding(hs, tenant, portfolio, symbol);
            forall i, j :: 0 <= i < j < |gs| ==> !(gs[i].portfolio == gs[j].portfolio && gs[i].symbol == gs[j].symbol)
  {}

  lemma OpenedUnique(l: Ledger, t: Trade, initialCash: real)
    requires Unique(l)
    ensures Unique(Opened(l, t, initialCash))
  {
    var ps := WithPortfolio(l.portfolios, t.tenant, t.buyer, initialCash);
    PortfolioUnique(l.portfolios, t.tenant, t.buyer, initialCash);
    PortfolioUnique(ps, t.tenant, t.seller, initialCash);
    var qs := WithPortfolio(ps, t.tenant, t.seller, initialCash);
    var b, s := FindPortfolio(qs, t.tenant, t.buyer), FindPortfolio(qs, t.tenant, t.seller);
    var p, q := if b <= s then b else s, if b <= s then s else b;
    HoldingUnique(l.holdings, t.tenant, p, t.symbol);
    HoldingUnique(WithHolding(l.holdings, t.tenant, p, t.symbol), t.tenant, q, t.symbol);
  }

  lemma OpenedHoldingsOk(l: Ledger, t: Trade, initialCash: real)
    requires HoldingsOk(l) && t.buyer != t.seller
    ensures HoldingsOk(Opened(l, t, initialCash))
  {
    var o := Opened(l, t, initialCash);
    OpenedExtends(l, t, initialCash);
    var b, s := FindPortfolio(o.portfolios, t.tenant, t.buyer), FindPortfolio(o.portfolios, t.tenant, t.seller);
    var p, q := if b <= s then b else s, if b <= s then s else b;
    OneMoreHolding(l.holdings, o.portfolios, t.tenant, p, t.symbol);
    OneMoreHolding(WithHolding(l.holdings, t.tenant, p, t.symbol), o.portfolios, t.tenant, q, t.symbol);
  }

  ghost predicate Owned(hs: seq<Holding>, ps: seq<Portfolio>) {
    forall i :: 0 <= i < |hs| ==> hs[i].portfolio < |ps| && hs[i].tenant == ps[hs[i].portfolio].tenant
  }

  lemma OneMoreHolding(hs: seq<Holding>, ps: seq<Portfolio>, tenant: string, p: nat, symbol: string)
    requires Owned(hs, ps) && p < |ps| && ps[p].tenant == tenant
    ensures Owned(WithHolding(hs, tenant, p, symbol), ps)
  {}

  // ----- totals under a trade -----

  lemma {:induction false} AddedNothing<T>(xs: seq<T>, ys: seq<T>, w: T -> real)
    requires xs <= ys && forall i :: |xs| <= i < |ys| ==> w(ys[i]) == 0.0
    ensures Total(ys, w) == Total(xs, w)
    decreases ys
  {
    if |ys| > |xs| {
      AddedNothing(xs, ys[..|ys| - 1], w);
    } else {
      assert xs == ys;
    }
  }

  lemma MovedHoldings(l: Ledger, r: Rows, t: Trade, w: Holding -> real)
    requires RowsMatch(l, r, t)
    ensures Total(Moved(l, r, t).holdings, w) == Total(l.holdings, w)
              - w(l.holdings[r.bought]) + w(Bought(l.holdings[r.bought], t.quantity, t.price))
              - w(l.holdings[r.sold]) + w(Sold(l.holdings[r.sold], t.quantity))
  {
    var h := Bought(l.holdings[r.bought], t.quantity, t.price);
    TotalUpdate(l.holdings, r.bought, h, w);
    TotalUpdate(l.holdings[r.bought := h], r.sold, Sold(l.holdings[r.sold], t.quantity), w);
  }

  lemma MovedPortfolios(l: Ledger, r: Rows, t: Trade)
    requires RowsMatch(l, r, t)
    ensures var ps, m := l.portfolios, Moved(l, r, t).portfolios;
            && |m| == |ps|
            && m[r.buyer] == ps[r.buyer].(cash := ps[r.buyer].cash - Gross(t))
            && m[r.seller] == ps[r.seller].(cash := ps[r.seller].cash + Gross(t),
                                           pnl := ps[r.seller].pnl + Realized(l.holdings[r.sold], t))
            && (forall i :: 0 <= i < |ps| && i != r.buyer && i != r.seller ==> m[i] == ps[i])
  {}

  // ----- the value of a holding -----

  lemma BoughtWorth(h: Holding, q: real, p: real)
    requires h.quantity >= 0.0 && q > 0.0
    ensures Worth(Bought(h, q, p)) == Worth(h) + Product(q, p)
  {}

  lemma SoldWorth(h: Holding, q: real)
    ensures Worth(Sold(h, q)) == Worth(h) - Product(q, h.average)
  {}

  lemma RealizedIsGain(h: Holding, t: Trade)
    ensures Realized(h, t) == Gross(t) - Product(t.quantity, h.average)
  {}

  // ----- an applied trade -----

  /** Everything a theorem needs to know about an applied trade. */
  ghost predicate AppliedShape(l: Ledger, o: Ledger, r: Rows, t: Trade, initialCash: real) {
    && t.quantity > 0.0 && t.price > 0.0 && t.execution != "" && Trim(t.execution) == t.execution
    && Extends(l, o, initialCash) && RowsMatch(o, r, t) && HoldingsOk(o) && Unique(o)
    && o.portfolios[r.buyer].cash >= Gross(t) && o.holdings[r.sold].quantity >= t.quantity
    && !IsProcessed(l, t.tenant, "execution:" + t.execution)
  }

  lemma AppliedHasShape(l: Ledger, t: Trade, initialCash: real) returns (o: Ledger, r: Rows)
    requires WellFormed(l)
    ensures o == Opened(l, Normal(t), initialCash) && r == RowsFor(o, Normal(t))
    ensures Acceptable(Normal(t)) && OutcomeOf(l, Normal(t), initialCash).Applied? ==>
              AppliedShape(l, o, r, Normal(t), initialCash) && Deliver(l, t, initialCash) == Settled(o, r, Normal(t))
  {
    var n := Normal(t);
    o := Opened(l, n, initialCash);
    r := RowsFor(o, n);
    if Acceptable(n) && OutcomeOf(l, n, initialCash).Applied? {
      OpenedExtends(l, n, initialCash);
      OpenedUnique(l, n, initialCash);
      OpenedHoldingsOk(l, n, initialCash);
      AppliedFits(l, t, initialCash, o, r);
      AppliedSettles(l, t, initialCash);
    }
  }

  /** What was checked before the trade went through. */
  lemma AppliedFits(l: Ledger, t: Trade, initialCash: real, o: Ledger, r: Rows)
    requires Acceptable(Normal(t)) && OutcomeOf(l, Normal(t), initialCash).Applied?
    requires o == Opened(l, Normal(t), initialCash) && r == RowsFor(o, Normal(t)) && RowsExist(o, r)
    ensures o.portfolios[r.buyer].cash >= Gross(Normal(t)) && o.holdings[r.sold].quantity >= Normal(t).quantity
    ensures Trim(Normal(t).execution) == Normal(t).execution
    ensures !IsProcessed(l, Normal(t).tenant, "execution:" + Normal(t).execution)
  {
    TrimTwice(t.execution);
  }

  lemma AppliedSettles(l: Ledger, t: Trade, initialCash: real)
    requires Acceptable(Normal(t)) && OutcomeOf(l, Normal(t), initialCash).Applied?
    ensures RowsExist(Opened(l, Normal(t), initialCash), RowsFor(Opened(l, Normal(t), initialCash), Normal(t)))
    ensures var o := Opened(l, Normal(t), initialCash);
            Deliver(l, t, initialCash) == Settled(o, RowsFor(o, Normal(t)), Normal(t))
  {
    OpenedHasRows(l, Normal(t), initialCash);
  }

  lemma {:induction false} TrimLeftStarts(s: string)
    ensures TrimLeft(s) != "" ==> !IsSpace(TrimLeft(s)[0])
  {
    if s != "" && IsSpace(s[0]) { TrimLeftStarts(s[1..]); }
  }

  lemma {:induction false} TrimRightKeeps(s: string)
    requires s != "" ==> !IsSpace(s[0])
    ensures |TrimRight(s)| <= |s|
    ensures var u := TrimRight(s); u == s[..|u|] && (u != "" ==> !IsSpace(u[0]) && !IsSpace(u[|u| - 1]))
  {
    if s != "" && IsSpace(s[|s| - 1]) {
      TrimRightKeeps(s[..|s| - 1]);
      assert forall k :: 0 <= k <= |s| - 1 ==> s[..|s| - 1][..k] == s[..k];
    }
  }

  /** Trimming twice is trimming once. */
  lemma TrimTwice(s: string)
    ensures Trim(Trim(s)) == Trim(s)
  {
    TrimLeftStarts(s);
    TrimRightKeeps(TrimLeft(s));
  }

  lemma UpperKeepsSpaces(s: string)
    requires s != "" ==> !IsSpace(s[0]) && !IsSpace(s[|s| - 1])
    ensures Trim(Upper(s)) == Upper(s) && Upper(Upper(s)) == Upper(s)
  {}

  lemma Trimmed(s: string)
    ensures Trim(s) != "" ==> !IsSpace(Trim(s)[0]) && !IsSpace(Trim(s)[|Trim(s)| - 1])
  {
    TrimLeftStarts(s);
    TrimRightKeeps(TrimLeft(s));
  }

  /** Making an event normal twice changes no more than doing it once, so a delivery and its
      normal form are deliveries of the same thing. */
  lemma NormalTwice(t: Trade)
    ensures Normal(Normal(t)) == Normal(t)
    ensures forall l, initialCash :: Deliver(l, Normal(t), initialCash) == Deliver(l, t, initialCash)
  {
    TrimTwice(t.tenant); TrimTwice(t.execution); TrimTwice(t.version);
    TrimTwice(t.buyOrder); TrimTwice(t.sellOrder); TrimTwice(t.buyer); TrimTwice(t.seller);
    Trimmed(t.symbol); Trimmed(t.currency);
    UpperKeepsSpaces(Trim(t.symbol));
    UpperKeepsSpaces(Trim(t.currency));
    UpperKeepsSpaces("USD");
    assert Trim("1.0") == "1.0" && Upper("USD") == "USD";
  }

  // ----- what is recorded -----

  lemma StaysProcessed(ps: seq<Processed>, qs: seq<Processed>, tenant: string, key: string)
    requires ps <= qs && FindProcessed(ps, tenant, key) < |ps|
    ensures FindProcessed(qs, tenant, key) == FindProcessed(ps, tenant, key)
  {
    FirstIndexStays(ps, qs, HasKey(tenant, key));
  }

  lemma NowProcessed(ps: seq<Processed>, p: Processed)
    ensures FindProcessed(ps + [p], p.tenant, p.key) < |ps + [p]|
  {
    assert (ps + [p])[|ps|] == p;
  }

  /** The rows of an execution that has not been processed are new, so both are inserted. */
  lemma BothRecorded(l: Ledger, o: Ledger, r: Rows, t: Trade, initialCash: real)
    requires TransactionsOk(l) && AppliedShape(l, o, r, t, initialCash)
    ensures Settled(o, r, t).transactions
            == l.transactions + [TransactionOf(o, r, t, Buy), TransactionOf(o, r, t, Sell)]
  {}

  lemma SettledTransactionsOk(l: Ledger, o: Ledger, r: Rows, t: Trade, initialCash: real)
    requires TransactionsOk(l) && AppliedShape(l, o, r, t, initialCash)
    ensures TransactionsOk(Settled(o, r, t))
  {
    var d := Settled(o, r, t);
    BothRecorded(l, o, r, t, initialCash);
    NowProcessed(l.processed, Processed(t.tenant, t.eventId, IdempotencyKey(t), Some(PayloadOf(t))));
    forall i | 0 <= i < |d.transactions|
      ensures d.transactions[i].portfolio < |d.portfolios|
      ensures IsProcessed(d, d.transactions[i].tenant, "execution:" + d.transactions[i].execution)
    {
      if i < |l.transactions| {
        assert d.transactions[i] == l.transactions[i];
        StaysProcessed(l.processed, d.processed, l.transactions[i].tenant, "execution:" + l.transactions[i].execution);
      }
    }
  }

  lemma SettledGainsOk(l: Ledger, o: Ledger, r: Rows, t: Trade, initialCash: real)
    requires GainsOk(l) && AppliedShape(l, o, r, t, initialCash)
    ensures GainsOk(Settled(o, r, t))
  {}

  lemma SettledProcessedOnce(l: Ledger, o: Ledger, r: Rows, t: Trade, initialCash: real)
    requires ProcessedOnce(l) && AppliedShape(l, o, r, t, initialCash)
    ensures ProcessedOnce(Settled(o, r, t))
  {}

  lemma SettledHoldings(o: Ledger, r: Rows, t: Trade)
    requires RowsMatch(o, r, t) && HoldingsOk(o) && Unique(o)
    ensures HoldingsOk(Settled(o, r, t)) && Unique(Settled(o, r, t))
  {}

  lemma SettledNonNegative(l: Ledger, o: Ledger, r: Rows, t: Trade, initialCash: real)
    requires AppliedShape(l, o, r, t, initialCash) && NonNegative(l) && initialCash >= 0.0
    ensures NonNegative(Settled(o, r, t))
  {
    MovedPortfolios(o, r, t);
    GrossPositive(t);
    assert forall i :: 0 <= i < |l.portfolios| ==> o.portfolios[i] == l.portfolios[i];
    assert forall i :: 0 <= i < |l.holdings| ==> o.holdings[i] == l.holdings[i];
  }

  lemma GrossPositive(t: Trade)
    requires t.quantity > 0.0 && t.price > 0.0
    ensures Gross(t) > 0.0
  {}

  /** Balances and holdings that start non-negative stay so, and the tables stay well formed. */
  lemma DeliverKeeps(l: Ledger, t: Trade, initialCash: real)
    requires WellFormed(l) && initialCash >= 0.0
    ensures WellFormed(Deliver(l, t, initialCash))
  {
    if Acceptable(Normal(t)) && OutcomeOf(l, Normal(t), initialCash).Applied? {
      var o, r := AppliedHasShape(l, t, initialCash);
      SettledTransactionsOk(l, o, r, Normal(t), initialCash);
      SettledGainsOk(l, o, r, Normal(t), initialCash);
      SettledProcessedOnce(l, o, r, Normal(t), initialCash);
      SettledHoldings(o, r, Normal(t));
      SettledNonNegative(l, o, r, Normal(t), initialCash);
    }
  }

  lemma {:induction false} RunKeeps(l: Ledger, trades: seq<Trade>, initialCash: real)
    requires WellFormed(l) && initialCash >= 0.0
    ensures WellFormed(Run(l, trades, initialCash))
    decreases trades
  {
    if trades != [] {
      DeliverKeeps(l, trades[0], initialCash);
      RunKeeps(Deliver(l, trades[0], initialCash), trades[1..], initialCash);
    }
  }

  // ----- the books balance -----

  /** Cash and holdings at cost, less realized gains. */
  function Book(l: Ledger, p: nat): real
    requires p < |l.portfolios|
  {
    TotalValue(l, p) - l.portfolios[p].pnl
  }

  /** What a portfolio's books balance to in every run from l. */
  function OpeningBook(l: Ledger, initialCash: real, p: nat): real {
    if p < |l.portfolios| then Book(l, p) else initialCash
  }

  lemma {:induction false} NoHoldings(hs: seq<Holding>, p: nat)
    requires forall i :: 0 <= i < |hs| ==> hs[i].portfolio != p
    ensures Total(hs, BookedValue(p)) == 0.0
  {
    if hs != [] { NoHoldings(hs[..|hs| - 1], p); }
  }

  lemma OpenedBook(l: Ledger, o: Ledger, initialCash: real, p: nat)
    requires HoldingsOk(l) && Extends(l, o, initialCash) && p < |o.portfolios|
    ensures Book(o, p) == OpeningBook(l, initialCash, p)
  {
    AddedNothing(l.holdings, o.holdings, BookedValue(p));
    if p >= |l.portfolios| { NoHoldings(l.holdings, p); }
  }

  lemma MovedBook(o: Ledger, r: Rows, t: Trade, p: nat)
    requires RowsMatch(o, r, t) && p < |o.portfolios| && t.quantity > 0.0 && o.holdings[r.bought].quantity >= 0.0
    ensures p < |Moved(o, r, t).portfolios| && Book(Moved(o, r, t), p) == Book(o, p)
  {
    MovedPortfolios(o, r, t);
    MovedHoldings(o, r, t, BookedValue(p));
    BoughtWorth(o.holdings[r.bought], t.quantity, t.price);
    SoldWorth(o.holdings[r.sold], t.quantity);
    RealizedIsGain(o.holdings[r.sold], t);
  }

  lemma SettledBook(l: Ledger, o: Ledger, r: Rows, t: Trade, initialCash: real, p: nat)
    requires HoldingsOk(l) && NonNegative(l) && AppliedShape(l, o, r, t, initialCash) && p < |o.portfolios|
    ensures p < |Settled(o, r, t).portfolios|
    ensures Book(Settled(o, r, t), p) == OpeningBook(l, initialCash, p)
  {
    OpenedBook(l, o, initialCash, p);
    assert o.holdings[r.bought].quantity >= 0.0 by {
      if r.bought < |l.holdings| { assert o.holdings[r.bought] == l.holdings[r.bought]; }
    }
    MovedBook(o, r, t, p);
    assert Book(Settled(o, r, t), p) == Book(Moved(o, r, t), p);
  }

  lemma DeliverBook(l: Ledger, t: Trade, initialCash: real, p: nat)
    requires WellFormed(l) && initialCash >= 0.0 && p < |Deliver(l, t, initialCash).portfolios|
    ensures Book(Deliver(l, t, initialCash), p) == OpeningBook(l, initialCash, p)
  {
    if Acceptable(Normal(t)) && OutcomeOf(l, Normal(t), initialCash).Applied? {
      var o, r := AppliedHasShape(l, t, initialCash);
      SettledBook(l, o, r, Normal(t), initialCash, p);
    }
  }

  /** Over every run, cash plus holdings at cost minus realized gains stays what it was, for every
      portfolio; one opened on the way has the initial cash plus its realized gains. */
  lemma {:induction false} BookValueIdentity(l: Ledger, trades: seq<Trade>, initialCash: real, p: nat)
    requires WellFormed(l) && initialCash >= 0.0 && p < |Run(l, trades, initialCash).portfolios|
    ensures |l.portfolios| <= |Run(l, trades, initialCash).portfolios|
    ensures Book(Run(l, trades, initialCash), p) == OpeningBook(l, initialCash, p)
    decreases trades
  {
    if trades != [] {
      var d := Deliver(l, trades[0], initialCash);
      DeliverKeeps(l, trades[0], initialCash);
      PortfoliosStay(l, trades[0], initialCash);
      BookValueIdentity(d, trades[1..], initialCash, p);
      if p < |d.portfolios| { DeliverBook(l, trades[0], initialCash, p); }
    }
  }

  lemma PortfoliosStay(l: Ledger, t: Trade, initialCash: real)
    requires WellFormed(l)
    ensures |l.portfolios| <= |Deliver(l, t, initialCash).portfolios|
  {
    if Acceptable(Normal(t)) && OutcomeOf(l, Normal(t), initialCash).Applied? {
      var o, r := AppliedHasShape(l, t, initialCash);
    }
  }

  /** In every state a portfolio is worth what its books balanced to at the start, or the initial
      cash if it was opened on the way, plus its realized gains; and its cash is not overdrawn. */
  lemma TotalValueExplained(l: Ledger, trades: seq<Trade>, initialCash: real, p: nat)
    requires WellFormed(l) && initialCash >= 0.0 && p < |Run(l, trades, initialCash).portfolios|
    ensures var e := Run(l, trades, initialCash);
            && TotalValue(e, p) == OpeningBook(l, initialCash, p) + e.portfolios[p].pnl
            && e.portfolios[p].cash >= 0.0
  {
    BookValueIdentity(l, trades, initialCash, p);
    RunKeeps(l, trades, initialCash);
  }
}
