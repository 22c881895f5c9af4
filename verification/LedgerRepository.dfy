/** The portfolio service as the program it is: an event that is made normal in place, and a
    transaction that updates the tables row by row and rolls back when a step fails. */
module LedgerRepository {
  import opened Options
  import opened Sums
  import opened LedgerModel

  class TradeExecutedEvent {
    var fields: Trade

    constructor (fields: Trade)
      ensures this.fields == fields
    {
      this.fields := fields;
    }

    /** Trims, upper-cases and fills in defaults, then refuses what cannot be booked.  The first
        reason that applies is given; an unsupported version is refused before the rest is read. */
    method Normalize() returns (refusal: Option<Refusal>)
      modifies this
      ensures refusal.None? <==> Acceptable(Normal(old(fields)))
      ensures refusal.None? ==> fields == Normal(old(fields))
      ensures var n := Normal(old(fields));
              refusal == if n.version !in {"1.0", "1"} then Some(UnsupportedVersion)
                         else if "" in {n.eventId, n.tenant, n.execution, n.buyOrder, n.sellOrder}
                                 || "" in {n.buyer, n.seller, n.symbol} then Some(FieldMissing)
                         else if n.buyOrder == n.sellOrder then Some(OrdersMatch)
                         else if n.buyer == n.seller then Some(SelfTrade)
                         else if n.quantity <= 0.0 then Some(BadQuantity)
                         else if n.price <= 0.0 then Some(BadPrice)
                         else if n.currency != "USD" then Some(UnsupportedCurrency)
                         else if n.occurredAt.None? then Some(NoTime)
                         else None
    {
      fields := fields.(version := Trim(fields.version));
      if fields.version == "" { fields := fields.(version := "1.0"); }
      if fields.version != "1.0" && fields.version != "1" { return Some(UnsupportedVersion); }
      fields := fields.(tenant := Trim(fields.tenant), execution := Trim(fields.execution));
      fields := fields.(buyOrder := Trim(fields.buyOrder), sellOrder := Trim(fields.sellOrder));
      fields := fields.(buyer := Trim(fields.buyer), seller := Trim(fields.seller));
      fields := fields.(symbol := Upper(Trim(fields.symbol)));
      fields := fields.(currency := Upper(Trim(fields.currency)));
      if fields.currency == "" { fields := fields.(currency := "USD"); }
      var f := fields;
      if f.eventId == "" || f.tenant == "" || f.execution == "" || f.buyOrder == "" || f.sellOrder == ""
         || f.buyer == "" || f.seller == "" || f.symbol == "" {
        return Some(FieldMissing);
      }
      if f.buyOrder == f.sellOrder { return Some(OrdersMatch); }
      if f.buyer == f.seller { return Some(SelfTrade); }
      if f.quantity <= 0.0 { return Some(BadQuantity); }
      if f.price <= 0.0 { return Some(BadPrice); }
      if f.currency != "USD" { return Some(UnsupportedCurrency); }
      if f.occurredAt.None? { return Some(NoTime); }
      return None;
    }
  }

  class PortfolioRepository {
    var portfolios: seq<Portfolio>
    var holdings: seq<Holding>
    var transactions: seq<Transaction>
    var gains: seq<Gain>
    var processed: seq<Processed>
    var snapshots: seq<Snapshot>
    var outbox: seq<Update>

    constructor (l: Ledger)
      ensures View() == l
    {
      portfolios, holdings, transactions, gains := l.portfolios, l.holdings, l.transactions, l.gains;
      processed, snapshots, outbox := l.processed, l.snapshots, l.outbox;
    }

    function View(): Ledger
      reads this
    {
      Ledger(portfolios, holdings, transactions, gains, processed, snapshots, outbox)
    }

    method Rollback(l: Ledger)
      modifies this
      ensures View() == l
    {
      portfolios, holdings, transactions, gains := l.portfolios, l.holdings, l.transactions, l.gains;
      processed, snapshots, outbox := l.processed, l.snapshots, l.outbox;
    }

    method EnsurePortfolio(tenant: string, user: string, initialCash: real) returns (id: nat)
      modifies this`portfolios
      ensures portfolios == WithPortfolio(old(portfolios), tenant, user, initialCash)
      ensures id == FindPortfolio(portfolios, tenant, user) && id < |portfolios|
    {
      PortfolioThere(portfolios, tenant, user, initialCash);
      id := FindPortfolio(portfolios, tenant, user);
      if id == |portfolios| {
        portfolios := portfolios + [Portfolio(tenant, user, initialCash, 0.0)];
        id := FindPortfolio(portfolios, tenant, user);
      }
    }

    method EnsureHolding(tenant: string, portfolio: nat, symbol: string)
      modifies this`holdings
      ensures holdings == WithHolding(old(holdings), tenant, portfolio, symbol)
    {
      if FindHolding(holdings, portfolio, symbol) == |holdings| {
        holdings := holdings + [Holding(tenant, portfolio, symbol, 0.0, 0.0)];
      }
    }

    /** Opens what is missing and finds the four rows. */
    method OpenRows(t: Trade, initialCash: real) returns (r: Rows)
      modifies this`portfolios, this`holdings
      ensures View() == Opened(old(View()), t, initialCash) && r == RowsFor(View(), t) && RowsExist(View(), r)
    {
      OpenedHasRows(View(), t, initialCash);
      var b := EnsurePortfolio(t.tenant, t.buyer, initialCash);
      ghost var ps := portfolios;
      var s := EnsurePortfolio(t.tenant, t.seller, initialCash);
      StillThere(ps, portfolios, t.tenant, t.buyer);
      if b <= s {
        EnsureHolding(t.tenant, b, t.symbol);
        EnsureHolding(t.tenant, s, t.symbol);
      } else {
        EnsureHolding(t.tenant, s, t.symbol);
        EnsureHolding(t.tenant, b, t.symbol);
      }
      r := Rows(b, s, FindHolding(holdings, b, t.symbol), FindHolding(holdings, s, t.symbol));
    }

    /** Takes the price out of the buyer's cash if it is there, and averages the shares in. */
    method ApplyExecutionBuyer(r: Rows, t: Trade) returns (ok: bool)
      requires RowsExist(View(), r)
      modifies this`portfolios, this`holdings
      ensures ok <==> old(portfolios[r.buyer].cash) >= Gross(t)
      ensures ok ==> portfolios == old(portfolios)[r.buyer :=
                       old(portfolios[r.buyer]).(cash := old(portfolios[r.buyer].cash) - Gross(t))]
      ensures ok ==> holdings == old(holdings)[r.bought := Bought(old(holdings[r.bought]), t.quantity, t.price)]
    {
      var p := portfolios[r.buyer];
      if p.cash < Gross(t) { return false; }
      portfolios := portfolios[r.buyer := p.(cash := p.cash - Gross(t))];
      var h := holdings[r.bought];
      var total := h.quantity + t.quantity;
      h := h.(average := if total == 0.0 then 0.0 else (Worth(h) + Product(t.quantity, t.price)) / total);
      holdings := holdings[r.bought := h.(quantity := total)];
      return true;
    }

    /** Takes the shares out if they are there, and books the price and the gain. */
    method ApplyExecutionSeller(r: Rows, t: Trade) returns (ok: bool, realized: real)
      requires RowsExist(View(), r)
      modifies this`portfolios, this`holdings, this`gains
      ensures ok <==> old(holdings[r.sold].quantity) >= t.quantity
      ensures ok ==> realized == Realized(old(holdings[r.sold]), t)
      ensures ok ==> gains == old(gains) + [GainOf(old(View()), r, t)]
      ensures ok ==> holdings == old(holdings)[r.sold := Sold(old(holdings[r.sold]), t.quantity)]
      ensures ok ==> portfolios == old(portfolios)[r.seller :=
                       old(portfolios[r.seller]).(cash := old(portfolios[r.seller].cash) + Gross(t),
                                                  pnl := old(portfolios[r.seller].pnl) + realized)]
    {
      var h := holdings[r.sold];
      realized := 0.0;
      if h.quantity < t.quantity { return false, realized; }
      realized := Realized(h, t);
      holdings := holdings[r.sold := h.(quantity := h.quantity - t.quantity)];
      var p := portfolios[r.seller];
      portfolios := portfolios[r.seller := p.(cash := p.cash + Gross(t), pnl := p.pnl + realized)];
      gains := gains + [Gain(t.tenant, r.seller, t.seller, t.sellOrder, t.symbol, t.quantity, t.price, h.average,
                             realized)];
      return true, realized;
    }

    method InsertPortfolioTransaction(row: Transaction)
      modifies this`transactions
      ensures transactions == Recorded(old(transactions), row)
    {
      if !exists i :: 0 <= i < |transactions| && SameRow(transactions[i], row) {
        transactions := transactions + [row];
      }
    }

    /** Both sides of the trade; stops at the first that cannot be booked. */
    method MoveMoneyAndShares(r: Rows, t: Trade) returns (outcome: Outcome, realized: real)
      requires RowsExist(View(), r) && r.buyer != r.seller && r.bought != r.sold
      modifies this`portfolios, this`holdings, this`gains
      ensures outcome == if old(portfolios[r.buyer].cash) < Gross(t) then InsufficientCash
                         else if old(holdings[r.sold].quantity) < t.quantity then InsufficientHoldings else Applied
      ensures outcome.Applied? ==>
                && View() == Moved(old(View()), r, t).(gains := old(gains) + [GainOf(old(View()), r, t)])
                && realized == Realized(old(holdings[r.sold]), t)
    {
      realized := 0.0;
      var paid := ApplyExecutionBuyer(r, t);
      if !paid { return InsufficientCash, realized; }
      var delivered;
      assert holdings[r.sold] == old(holdings[r.sold]);
      delivered, realized := ApplyExecutionSeller(r, t);
      outcome := if delivered then Applied else InsufficientHoldings;
    }

    method HoldingsValue(portfolio: nat) returns (value: real)
      ensures value == Total(holdings, HeldValue(portfolio))
    {
      value := 0.0;
      for i := 0 to |holdings|
        invariant value == Total(holdings[..i], HeldValue(portfolio))
      {
        TotalSnoc(holdings[..i], holdings[i], HeldValue(portfolio));
        assert holdings[..i + 1] == holdings[..i] + [holdings[i]];
        if holdings[i].portfolio == portfolio && holdings[i].quantity > 0.0 { value := value + Worth(holdings[i]); }
      }
      assert holdings[..|holdings|] == holdings;
    }

    /** The portfolio as it is now, with its holdings added up. */
    method CreateSnapshot(portfolio: nat)
      requires portfolio < |portfolios|
      modifies this`snapshots
      ensures snapshots == old(snapshots) + [SnapshotOf(portfolios, holdings, portfolio)]
    {
      var value := HoldingsValue(portfolio);
      var p := portfolios[portfolio];
      snapshots := snapshots + [Snapshot(p.tenant, portfolio, p.user, p.cash, value, p.cash + value, p.pnl)];
    }

    /** The snapshot and the outbox row. */
    method Announce(r: Rows, t: Trade)
      requires RowsExist(View(), r)
      modifies this`snapshots, this`outbox
      ensures snapshots == old(snapshots) + [SnapshotOf(portfolios, holdings, r.buyer)]
      ensures outbox == old(outbox) + [UpdateOf(old(View()), r, t)]
    {
      CreateSnapshot(r.buyer);
      outbox := outbox + [UpdateOf(View(), r, t)];
    }

    method RecordTransactions(r: Rows, t: Trade, realized: real)
      modifies this`transactions
      ensures transactions == Recorded(Recorded(old(transactions), BuyRow(r, t)), SellRow(r, t, realized))
    {
      InsertPortfolioTransaction(BuyRow(r, t));
      InsertPortfolioTransaction(SellRow(r, t, realized));
    }

    /** The two transaction rows, the processed row, the snapshot and the outbox row; the processed
        row is refused if its event id was used before. */
    method RecordTrade(r: Rows, t: Trade, realized: real) returns (ok: bool)
      requires RowsExist(View(), r)
      modifies this`transactions, this`processed, this`snapshots, this`outbox
      ensures ok <==> !EventUsed(old(processed), t.tenant, t.eventId)
      ensures ok ==> processed == old(processed)
                       + [Processed(t.tenant, t.eventId, IdempotencyKey(t), Some(PayloadOf(t)))]
      ensures ok ==> transactions == Recorded(Recorded(old(transactions), BuyRow(r, t)), SellRow(r, t, realized))
      ensures ok ==> snapshots == old(snapshots) + [SnapshotOf(portfolios, holdings, r.buyer)]
      ensures ok ==> outbox == old(outbox) + [UpdateOf(old(View()), r, t)]
    {
      RecordTransactions(r, t, realized);
      if EventUsed(processed, t.tenant, t.eventId) { return false; }
      processed := processed + [Processed(t.tenant, t.eventId, IdempotencyKey(t), Some(PayloadOf(t)))];
      Announce(r, t);
      return true;
    }

    /** Everything after the rows are open, up to the first step that fails. */
    method SettleRows(r: Rows, t: Trade) returns (outcome: Outcome)
      requires RowsExist(View(), r) && r.buyer != r.seller && r.bought != r.sold
      modifies this
      ensures outcome == if old(portfolios[r.buyer].cash) < Gross(t) then InsufficientCash
                         else if old(holdings[r.sold].quantity) < t.quantity then InsufficientHoldings
                         else if EventUsed(old(processed), t.tenant, t.eventId) then EventReused else Applied
      ensures outcome.Applied? ==> View() == Settled(old(View()), r, t)
    {
      ghost var l := View();
      var realized;
      outcome, realized := MoveMoneyAndShares(r, t);
      if outcome.Applied? {
        ghost var m := View();
        var ok := RecordTrade(r, t, realized);
        if ok { RecordsSettle(l, m, View(), r, t, realized); } else { outcome := EventReused; }
      }
    }

    /** The money and the shares moved and the gain booked, then everything else recorded. */
    lemma RecordsSettle(l: Ledger, m: Ledger, e: Ledger, r: Rows, t: Trade, realized: real)
      requires RowsExist(l, r) && realized == Realized(l.holdings[r.sold], t)
      requires m == Moved(l, r, t).(gains := l.gains + [GainOf(l, r, t)])
      requires e == m.(transactions := Recorded(Recorded(m.transactions, BuyRow(r, t)), SellRow(r, t, realized)),
                       processed := m.processed
                         + [Processed(t.tenant, t.eventId, IdempotencyKey(t), Some(PayloadOf(t)))],
                       snapshots := m.snapshots + [SnapshotOf(m.portfolios, m.holdings, r.buyer)],
                       outbox := m.outbox + [UpdateOf(m, r, t)])
      ensures e == Settled(l, r, t)
    {}

    /** One delivered trade, applied once, or refused with every table as it was. */
    method ApplyTradeExecution(t: Trade, initialCash: real) returns (outcome: Outcome)
      requires t.buyer != t.seller
      modifies this
      ensures outcome == OutcomeOf(old(View()), t, initialCash)
      ensures View() == Apply(old(View()), t, initialCash)
    {
      var i := FindProcessed(processed, t.tenant, IdempotencyKey(t));
      if i < |processed| {
        if processed[i].payload.Some? && processed[i].payload.value != PayloadOf(t) { return PayloadConflict; }
        return Duplicate;
      }
      outcome := ApplyNew(t, initialCash);
    }

    method ApplyNew(t: Trade, initialCash: real) returns (outcome: Outcome)
      requires t.buyer != t.seller && !IsProcessed(View(), t.tenant, IdempotencyKey(t))
      modifies this
      ensures outcome == OutcomeOf(old(View()), t, initialCash)
      ensures View() == Apply(old(View()), t, initialCash)
    {
      var l := View();
      var r := OpenRows(t, initialCash);
      ghost var o := View();
      RowsDiffer(o, t);
      NewOutcome(l, o, r, t, initialCash);
      outcome := SettleRows(r, t);
      if !outcome.Applied? { Rollback(l); }
    }

    /** What comes of a trade that has not been processed, in terms of its opened rows. */
    lemma NewOutcome(l: Ledger, o: Ledger, r: Rows, t: Trade, initialCash: real)
      requires !IsProcessed(l, t.tenant, IdempotencyKey(t))
      requires o == Opened(l, t, initialCash) && r == RowsFor(o, t) && RowsExist(o, r)
      ensures OutcomeOf(l, t, initialCash) ==
                if o.portfolios[r.buyer].cash < Gross(t) then InsufficientCash
                else if o.holdings[r.sold].quantity < t.quantity then InsufficientHoldings
                else if EventUsed(l.processed, t.tenant, t.eventId) then EventReused else Applied
      ensures Apply(l, t, initialCash) == if OutcomeOf(l, t, initialCash).Applied? then Settled(o, r, t) else l
    {}

    /** Different users have different rows. */
    lemma RowsDiffer(o: Ledger, t: Trade)
      requires t.buyer != t.seller && RowsExist(o, RowsFor(o, t))
      ensures RowsFor(o, t).buyer != RowsFor(o, t).seller && RowsFor(o, t).bought != RowsFor(o, t).sold
    {}

    /** A delivery that cannot be made normal never reaches the ledger. */
    method ProcessTradeExecuted(t: Trade, initialCash: real) returns (refusal: Option<Refusal>)
      modifies this
      ensures View() == Deliver(old(View()), t, initialCash)
      ensures refusal.None? <==> Acceptable(Normal(t))
    {
      var event := new TradeExecutedEvent(t);
      refusal := event.Normalize();
      if refusal.None? {
        var outcome := ApplyTradeExecution(event.fields, initialCash);
      }
    }
  }
}
