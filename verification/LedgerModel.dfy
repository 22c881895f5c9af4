/** The portfolio ledger: what one delivered trade does to the tables, as one transaction. */
module LedgerModel {
  import opened Options
  import opened Sequences
  import opened Sums

  // ----- the delivered event -----

  /** A trade as it arrives. */
  datatype Trade = Trade(
    eventId: string,
    version: string,
    tenant: string,
    execution: string,
    trade: string,
    buyOrder: string,
    sellOrder: string,
    buyer: string,
    seller: string,
    symbol: string,
    quantity: real,
    price: real,
    currency: string,
    occurredAt: Option<int>
  )

  datatype Refusal =
    | UnsupportedVersion | FieldMissing | OrdersMatch | SelfTrade
    | BadQuantity | BadPrice | UnsupportedCurrency | NoTime

  /** White space as Go's `unicode.IsSpace` has it. */
  predicate IsSpace(c: char) {
    || '\t' <= c <= '\r' || c == ' ' || c == '\U{85}' || c == '\U{A0}' || c == '\U{1680}'
    || '\U{2000}' <= c <= '\U{200A}' || c == '\U{2028}' || c == '\U{2029}'
    || c == '\U{202F}' || c == '\U{205F}' || c == '\U{3000}'
  }

  function TrimLeft(s: string): string {
    if s != "" && IsSpace(s[0]) then TrimLeft(s[1..]) else s
  }

  function TrimRight(s: string): string {
    if s != "" && IsSpace(s[|s| - 1]) then TrimRight(s[..|s| - 1]) else s
  }

  function Trim(s: string): string {
    TrimRight(TrimLeft(s))
  }

  function UpperChar(c: char): char {
    if 'a' <= c <= 'z' then c - 'a' + 'A' else c
  }

  function Upper(s: string): (u: string)
    ensures |u| == |s|
  {
    seq(|s|, i requires 0 <= i < |s| => UpperChar(s[i]))
  }

  /** Trimmed, in upper case where case does not matter, with the defaults filled in. */
  function Normal(t: Trade): Trade {
    var version := Trim(t.version);
    var currency := Upper(Trim(t.currency));
    t.(version := if version == "" then "1.0" else version,
       tenant := Trim(t.tenant),
       execution := Trim(t.execution),
       buyOrder := Trim(t.buyOrder),
       sellOrder := Trim(t.sellOrder),
       buyer := Trim(t.buyer),
       seller := Trim(t.seller),
       symbol := Upper(Trim(t.symbol)),
       currency := if currency == "" then "USD" else currency)
  }

  /** What a normal trade has to be to reach the ledger. */
  predicate Acceptable(t: Trade) {
    && (t.version == "1.0" || t.version == "1")
    && t.eventId != "" && t.tenant != "" && t.execution != "" && t.buyOrder != "" && t.sellOrder != ""
    && t.buyer != "" && t.seller != "" && t.symbol != ""
    && t.buyOrder != t.sellOrder && t.buyer != t.seller
    && t.quantity > 0.0 && t.price > 0.0
    && t.currency == "USD" && t.occurredAt.Some?
  }

  /** The execution, else the trade, else the event: what makes two deliveries the same. */
  function IdempotencyKey(t: Trade): string {
    if Trim(t.execution) != "" then "execution:" + Trim(t.execution)
    else if Trim(t.trade) != "" then "trade:" + Trim(t.trade)
    else "event:" + Trim(t.eventId)
  }

  /** What the payload hash covers; the hash itself is taken to be injective. */
  datatype Payload = Payload(
    tenant: string,
    execution: string,
    buyOrder: string,
    sellOrder: string,
    buyer: string,
    seller: string,
    symbol: string,
    quantity: real,
    price: real,
    currency: string
  )

  function PayloadOf(t: Trade): Payload {
    Payload(t.tenant, t.execution, t.buyOrder, t.sellOrder, t.buyer, t.seller, t.symbol, t.quantity, t.price,
            t.currency)
  }

  // ----- the tables -----

  /** A portfolio with its cash row; its number in the table is its identity. */
  datatype Portfolio = Portfolio(tenant: string, user: string, cash: real, pnl: real)

  datatype Holding = Holding(tenant: string, portfolio: nat, symbol: string, quantity: real, average: real)

  datatype Side = Buy | Sell

  datatype Transaction = Transaction(
    tenant: string,
    portfolio: nat,
    user: string,
    execution: string,
    order: string,
    side: Side,
    symbol: string,
    quantity: real,
    price: real,
    netCash: real,
    pnl: real
  )

  /** A row without a payload hash is older than the hash. */
  datatype Processed = Processed(tenant: string, eventId: string, key: string, payload: Option<Payload>)

  /** What was gained by one sale. */
  datatype Gain = Gain(
    tenant: string,
    portfolio: nat,
    user: string,
    order: string,
    symbol: string,
    quantity: real,
    price: real,
    average: real,
    realized: real
  )

  /** The buyer's portfolio right after a trade; the holdings are added up row by row. */
  datatype Snapshot = Snapshot(
    tenant: string,
    portfolio: nat,
    user: string,
    cash: real,
    holdingsValue: real,
    totalValue: real,
    pnl: real
  )

  /** The row that announces an updated portfolio, with its position in the symbol if it has one. */
  datatype Update = Update(
    tenant: string,
    portfolio: nat,
    user: string,
    symbol: string,
    position: Option<Position>,
    cashDelta: real,
    cash: real,
    totalValue: real,
    pnl: real,
    event: string,
    execution: string
  )

  datatype Position = Position(quantity: real, average: real)

  datatype Ledger = Ledger(
    portfolios: seq<Portfolio>,
    holdings: seq<Holding>,
    transactions: seq<Transaction>,
    gains: seq<Gain>,
    processed: seq<Processed>,
    snapshots: seq<Snapshot>,
    outbox: seq<Update>
  )

  /** The row of a user's portfolio, or the number of rows if there is none. */
  function FindPortfolio(ps: seq<Portfolio>, tenant: string, user: string): nat {
    FirstIndex(ps, OwnedBy(tenant, user))
  }

  function OwnedBy(tenant: string, user: string): Portfolio -> bool {
    (p: Portfolio) => p.tenant == tenant && p.user == user
  }

  function FindHolding(hs: seq<Holding>, portfolio: nat, symbol: string): nat {
    FirstIndex(hs, IsHolding(portfolio, symbol))
  }

  function IsHolding(portfolio: nat, symbol: string): Holding -> bool {
    (h: Holding) => h.portfolio == portfolio && h.symbol == symbol
  }

  function FindProcessed(ps: seq<Processed>, tenant: string, key: string): nat {
    FirstIndex(ps, HasKey(tenant, key))
  }

  function HasKey(tenant: string, key: string): Processed -> bool {
    (p: Processed) => p.tenant == tenant && p.key == key
  }

  predicate IsProcessed(l: Ledger, tenant: string, key: string) {
    FindProcessed(l.processed, tenant, key) < |l.processed|
  }

  predicate EventUsed(ps: seq<Processed>, tenant: string, eventId: string) {
    exists i :: 0 <= i < |ps| && ps[i].tenant == tenant && ps[i].eventId == eventId
  }

  // ----- the parts of the transaction -----

  function WithPortfolio(ps: seq<Portfolio>, tenant: string, user: string, initialCash: real): seq<Portfolio> {
    if FindPortfolio(ps, tenant, user) < |ps| then ps else ps + [Portfolio(tenant, user, initialCash, 0.0)]
  }

  function WithHolding(hs: seq<Holding>, tenant: string, portfolio: nat, symbol: string): seq<Holding> {
    if FindHolding(hs, portfolio, symbol) < |hs| then hs else hs + [Holding(tenant, portfolio, symbol, 0.0, 0.0)]
  }

  /** Both portfolios and both holdings exist, holdings in the order of their portfolios. */
  function Opened(l: Ledger, t: Trade, initialCash: real): Ledger {
    var ps := WithPortfolio(WithPortfolio(l.portfolios, t.tenant, t.buyer, initialCash), t.tenant, t.seller,
                            initialCash);
    var b, s := FindPortfolio(ps, t.tenant, t.buyer), FindPortfolio(ps, t.tenant, t.seller);
    var hs := if b <= s then WithHolding(WithHolding(l.holdings, t.tenant, b, t.symbol), t.tenant, s, t.symbol)
              else WithHolding(WithHolding(l.holdings, t.tenant, s, t.symbol), t.tenant, b, t.symbol);
    l.(portfolios := ps, holdings := hs)
  }

  function Gross(t: Trade): real {
    Product(t.quantity, t.price)
  }

  function Worth(h: Holding): real {
    Product(h.quantity, h.average)
  }

  /** Shares bought at a price are averaged in. */
  function Bought(h: Holding, quantity: real, price: real): Holding {
    var total := h.quantity + quantity;
    h.(quantity := total, average := if total == 0.0 then 0.0 else (Worth(h) + Product(quantity, price)) / total)
  }

  /** Shares are sold out of the average. */
  function Sold(h: Holding, quantity: real): Holding {
    h.(quantity := h.quantity - quantity)
  }

  function Realized(h: Holding, t: Trade): real {
    Product(t.price - h.average, t.quantity)
  }

  predicate SameRow(a: Transaction, b: Transaction) {
    a.tenant == b.tenant && a.portfolio == b.portfolio && a.execution == b.execution && a.side == b.side
  }

  /** A transaction row that is already there is not inserted again. */
  function Recorded(ts: seq<Transaction>, t: Transaction): seq<Transaction> {
    if exists i :: 0 <= i < |ts| && SameRow(ts[i], t) then ts else ts + [t]
  }

  function BookedValue(portfolio: nat): Holding -> real {
    (h: Holding) => if h.portfolio == portfolio then Worth(h) else 0.0
  }

  /** Cash plus what the holdings cost. */
  function TotalValue(l: Ledger, portfolio: nat): real
    requires portfolio < |l.portfolios|
  {
    l.portfolios[portfolio].cash + Total(l.holdings, BookedValue(portfolio))
  }

  /** The holdings that are read back are those with something in them. */
  function HeldValue(portfolio: nat): Holding -> real {
    (h: Holding) => if h.portfolio == portfolio && h.quantity > 0.0 then Worth(h) else 0.0
  }

  function SnapshotOf(ps: seq<Portfolio>, hs: seq<Holding>, portfolio: nat): Snapshot
    requires portfolio < |ps|
  {
    var p, held := ps[portfolio], Total(hs, HeldValue(portfolio));
    Snapshot(p.tenant, portfolio, p.user, p.cash, held, p.cash + held, p.pnl)
  }

  function PositionOf(h: Holding): Option<Position> {
    if h.quantity > 0.0 then Some(Position(h.quantity, h.average)) else None
  }

  /** The announcement of the buyer's portfolio after a trade. */
  function UpdateOf(l: Ledger, r: Rows, t: Trade): Update
    requires RowsExist(l, r)
  {
    var p := l.portfolios[r.buyer];
    Update(p.tenant, r.buyer, p.user, t.symbol, PositionOf(l.holdings[r.bought]), -Gross(t), p.cash,
           TotalValue(l, r.buyer), p.pnl, t.eventId, t.execution)
  }

  /** The rows a trade touches. */
  datatype Rows = Rows(buyer: nat, seller: nat, bought: nat, sold: nat)

  function RowsFor(l: Ledger, t: Trade): Rows {
    var b, s := FindPortfolio(l.portfolios, t.tenant, t.buyer), FindPortfolio(l.portfolios, t.tenant, t.seller);
    Rows(b, s, FindHolding(l.holdings, b, t.symbol), FindHolding(l.holdings, s, t.symbol))
  }

  predicate RowsExist(l: Ledger, r: Rows) {
    r.buyer < |l.portfolios| && r.seller < |l.portfolios| && r.bought < |l.holdings| && r.sold < |l.holdings|
  }

  lemma OpenedHasRows(l: Ledger, t: Trade, initialCash: real)
    ensures RowsExist(Opened(l, t, initialCash), RowsFor(Opened(l, t, initialCash), t))
  {
    var ps := WithPortfolio(l.portfolios, t.tenant, t.buyer, initialCash);
    PortfolioThere(l.portfolios, t.tenant, t.buyer, initialCash);
    var qs := WithPortfolio(ps, t.tenant, t.seller, initialCash);
    PortfolioThere(ps, t.tenant, t.seller, initialCash);
    StillThere(ps, qs, t.tenant, t.buyer);
    var b, s := FindPortfolio(qs, t.tenant, t.buyer), FindPortfolio(qs, t.tenant, t.seller);
    var p, q := if b <= s then b else s, if b <= s then s else b;
    var hs := WithHolding(l.holdings, t.tenant, p, t.symbol);
    HoldingThere(l.holdings, t.tenant, p, t.symbol);
    HoldingThere(hs, t.tenant, q, t.symbol);
    HoldingStillThere(hs, WithHolding(hs, t.tenant, q, t.symbol), p, t.symbol);
  }

  lemma PortfolioThere(ps: seq<Portfolio>, tenant: string, user: string, initialCash: real)
    ensures var qs := WithPortfolio(ps, tenant, user, initialCash); FindPortfolio(qs, tenant, user) < |qs|
  {
    var qs := WithPortfolio(ps, tenant, user, initialCash);
    if FindPortfolio(ps, tenant, user) == |ps| {
      assert qs[|ps|].tenant == tenant && qs[|ps|].user == user;
    }
  }

  lemma StillThere(ps: seq<Portfolio>, qs: seq<Portfolio>, tenant: string, user: string)
    requires ps <= qs && FindPortfolio(ps, tenant, user) < |ps|
    ensures FindPortfolio(qs, tenant, user) == FindPortfolio(ps, tenant, user)
  {
    FirstIndexStays(ps, qs, OwnedBy(tenant, user));
  }

  lemma HoldingThere(hs: seq<Holding>, tenant: string, portfolio: nat, symbol: string)
    ensures var gs := WithHolding(hs, tenant, portfolio, symbol); FindHolding(gs, portfolio, symbol) < |gs|
  {
    var gs := WithHolding(hs, tenant, portfolio, symbol);
    if FindHolding(hs, portfolio, symbol) == |hs| {
      assert gs[|hs|].portfolio == portfolio && gs[|hs|].symbol == symbol;
    }
  }

  lemma HoldingStillThere(hs: seq<Holding>, gs: seq<Holding>, portfolio: nat, symbol: string)
    requires hs <= gs && FindHolding(hs, portfolio, symbol) < |hs|
    ensures FindHolding(gs, portfolio, symbol) == FindHolding(hs, portfolio, symbol)
  {
    FirstIndexStays(hs, gs, IsHolding(portfolio, symbol));
  }

  // ----- the transaction -----

  datatype Outcome = Applied | Duplicate | PayloadConflict | InsufficientCash | InsufficientHoldings | EventReused

  function BuyRow(r: Rows, t: Trade): Transaction {
    Transaction(t.tenant, r.buyer, t.buyer, t.execution, t.buyOrder, Buy, t.symbol, t.quantity, t.price, -Gross(t), 0.0)
  }

  function SellRow(r: Rows, t: Trade, realized: real): Transaction {
    Transaction(t.tenant, r.seller, t.seller, t.execution, t.sellOrder, Sell, t.symbol, t.quantity, t.price, Gross(t),
                realized)
  }

  function TransactionOf(l: Ledger, r: Rows, t: Trade, side: Side): Transaction
    requires RowsExist(l, r)
  {
    match side
    case Buy => BuyRow(r, t)
    case Sell => SellRow(r, t, Realized(l.holdings[r.sold], t))
  }

  function GainOf(l: Ledger, r: Rows, t: Trade): Gain
    requires RowsExist(l, r)
  {
    var h := l.holdings[r.sold];
    Gain(t.tenant, r.seller, t.seller, t.sellOrder, t.symbol, t.quantity, t.price, h.average, Realized(h, t))
  }

  /** The ledger with the money and the shares of a trade moved. */
  function Moved(l: Ledger, r: Rows, t: Trade): Ledger
    requires RowsExist(l, r)
  {
    var ps := l.portfolios[r.buyer := l.portfolios[r.buyer].(cash := l.portfolios[r.buyer].cash - Gross(t))];
    var hs := l.holdings[r.bought := Bought(l.holdings[r.bought], t.quantity, t.price)];
    l.(portfolios := ps[r.seller := ps[r.seller].(cash := ps[r.seller].cash + Gross(t),
                                                  pnl := ps[r.seller].pnl + Realized(hs[r.sold], t))],
       holdings := hs[r.sold := Sold(hs[r.sold], t.quantity)])
  }

  function Settled(l: Ledger, r: Rows, t: Trade): Ledger
    requires RowsExist(l, r)
  {
    var m := Moved(l, r, t);
    m.(transactions := Recorded(Recorded(l.transactions, TransactionOf(l, r, t, Buy)), TransactionOf(l, r, t, Sell)),
       gains := l.gains + [GainOf(l, r, t)],
       processed := l.processed + [Processed(t.tenant, t.eventId, IdempotencyKey(t), Some(PayloadOf(t)))],
       snapshots := l.snapshots + [SnapshotOf(m.portfolios, m.holdings, r.buyer)],
       outbox := l.outbox + [UpdateOf(m, r, t)])
  }

  /** What applying a normal trade comes to. */
  function OutcomeOf(l: Ledger, t: Trade, initialCash: real): Outcome {
    var i := FindProcessed(l.processed, t.tenant, IdempotencyKey(t));
    if i < |l.processed| then
      var stored := l.processed[i].payload;
      if stored.Some? && stored.value != PayloadOf(t) then PayloadConflict else Duplicate
    else
      OpenedHasRows(l, t, initialCash);
      var o := Opened(l, t, initialCash);
      var r := RowsFor(o, t);
      if o.portfolios[r.buyer].cash < Gross(t) then InsufficientCash
      else if o.holdings[r.sold].quantity < t.quantity then InsufficientHoldings
      else if EventUsed(l.processed, t.tenant, t.eventId) then EventReused
      else Applied
  }

  /** Anything but an applied trade leaves the ledger as it was. */
  function Apply(l: Ledger, t: Trade, initialCash: real): Ledger {
    if OutcomeOf(l, t, initialCash).Applied? then
      OpenedHasRows(l, t, initialCash);
      Settled(Opened(l, t, initialCash), RowsFor(Opened(l, t, initialCash), t), t)
    else l
  }

  /** A delivery is made normal, checked and applied. */
  function Deliver(l: Ledger, t: Trade, initialCash: real): Ledger {
    if Acceptable(Normal(t)) then Apply(l, Normal(t), initialCash) else l
  }

  function Run(l: Ledger, trades: seq<Trade>, initialCash: real): Ledger
    decreases trades
  {
    if trades == [] then l else Run(Deliver(l, trades[0], initialCash), trades[1..], initialCash)
  }
}
