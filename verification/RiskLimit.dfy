/** The pre-trade daily limit as it is enforced: the Risk Engine reads what has been approved so
    far and decides, and the order service inserts the decision later.  Between the two, other
    evaluations read the same sums. */
module RiskLimit {
  import opened Options
  import opened OrderTypes
  import opened RiskCalendar

  // ----- policy, requests, decisions -----

  datatype Policy = Policy(
    maxOrderQuantity: real,
    maxOrderNotional: real,
    maxDailyUserNotional: real,
    maxDailyTenantNotional: real,
    allowed: set<string>,
    restricted: set<string>,
    zone: Zone
  )

  /** A tenant's own policy comes before the common one; there may be neither. */
  datatype Config = Config(policies: map<string, Policy>, common: Option<Policy>, failOpen: bool)

  function PolicyFor(c: Config, tenant: string): Option<Policy> {
    if tenant in c.policies then Some(c.policies[tenant]) else c.common
  }

  datatype Order = Order(id: nat, tenant: string, user: string, symbol: string, orderType: OrderType, quantity: real,
                         limit: Option<real>)

  datatype Reason =
    | RiskOk | SymbolRestricted | SymbolNotAllowed | MaxOrderQuantity | InvalidNotional | MaxOrderNotional
    | DailyUserNotional | DailyTenantNotional | ReferenceUnavailable
    | ServiceUnavailable | ResponseInvalid | ServiceBypassed

  datatype Verdict = Approved | Rejected | Unavailable | InvalidResponse

  /** What comes back of a request to the engine: a decision, nothing in time, or nonsense. */
  datatype Answer = Answered | NoAnswer | Malformed

  datatype Decision = Decision(order: nat, tenant: string, user: string, verdict: Verdict, reason: Reason,
                               notional: real, at: int)

  // ----- sums of approved notional -----

  /** Whose limit: a whole tenant's, or one of its users'. */
  datatype Scope = Tenant(tenant: string) | User(tenant: string, user: string)

  predicate InScope(d: Decision, s: Scope) {
    d.tenant == s.tenant && (s.User? ==> d.user == s.user)
  }

  predicate CountsIn(d: Decision, s: Scope, day: (int, int)) {
    InScope(d, s) && d.verdict.Approved? && Within(day, d.at)
  }

  function ApprovedNotional(ds: seq<Decision>, s: Scope, day: (int, int)): real {
    if ds == [] then 0.0
    else
      var d := ds[|ds| - 1];
      ApprovedNotional(ds[..|ds| - 1], s, day) + if CountsIn(d, s, day) then d.notional else 0.0
  }

  // ----- one evaluation -----

  predicate Empty(s: set<string>) {
    s == {}
  }

  function BasicRejection(p: Policy, o: Order, price: real, notional: real): Reason {
    if o.symbol in p.restricted then SymbolRestricted
    else if !Empty(p.allowed) && o.symbol !in p.allowed then SymbolNotAllowed
    else if o.quantity > p.maxOrderQuantity then MaxOrderQuantity
    else if notional <= 0.0 || price <= 0.0 then InvalidNotional
    else if notional > p.maxOrderNotional then MaxOrderNotional
    else RiskOk
  }

  /** The reason by what the user and the tenant have been approved for so far. */
  function ReasonFor(p: Policy, o: Order, price: real, notional: real, byUser: real, byTenant: real): Reason {
    var reason := BasicRejection(p, o, price, notional);
    if reason != RiskOk then reason
    else if byUser + notional > p.maxDailyUserNotional then DailyUserNotional
    else if byTenant + notional > p.maxDailyTenantNotional then DailyTenantNotional
    else RiskOk
  }

  function EvaluatedReason(
      p: Policy, committed: seq<Decision>, o: Order, price: real, notional: real, now: int): Reason {
    var day := RiskDay(p.zone, now);
    ReasonFor(p, o, price, notional, ApprovedNotional(committed, User(o.tenant, o.user), day),
              ApprovedNotional(committed, Tenant(o.tenant), day))
  }

  /** The estimated price of a limit order; nothing is estimated for an order without a limit. */
  function Estimate(o: Order): Option<real> {
    if o.limit.Some? && (o.orderType.Limit? || o.orderType.StopLimit?) && o.limit.value > 0.0
        && o.limit.value * o.quantity > 0.0
    then o.limit else None
  }

  function Decided(o: Order, verdict: Verdict, reason: Reason, notional: real, now: int): Decision {
    Decision(o.id, o.tenant, o.user, verdict, reason, notional, now)
  }

  /** No answer: approved all the same if the service is configured to fail open. */
  function WithoutEngine(c: Config, o: Order, notional: real, now: int): Decision {
    if c.failOpen then Decided(o, Approved, ServiceBypassed, notional, now)
    else Decided(o, Unavailable, ServiceUnavailable, notional, now)
  }

  function Evaluation(c: Config, committed: seq<Decision>, o: Order, answer: Answer, now: int): Decision {
    var price := Estimate(o);
    if price.None? then Decided(o, Rejected, ReferenceUnavailable, 0.0, now)
    else
      var notional := price.value * o.quantity;
      if answer.Malformed? then Decided(o, InvalidResponse, ResponseInvalid, notional, now)
      else if answer.NoAnswer? || PolicyFor(c, o.tenant).None? then WithoutEngine(c, o, notional, now)
      else
        var reason := EvaluatedReason(PolicyFor(c, o.tenant).value, committed, o, price.value, notional, now);
        Decided(o, if reason.RiskOk? then Approved else Rejected, reason, notional, now)
  }

  /** The limit on a scope. */
  function DailyMaximum(p: Policy, s: Scope): real {
    if s.Tenant? then p.maxDailyTenantNotional else p.maxDailyUserNotional
  }

  /** An order is approved by an engine that answers exactly when its price is known, no symbol or
      size rule forbids it, and both its daily sums still have room for all of it. */
  lemma ApprovedExactlyWhen(c: Config, committed: seq<Decision>, o: Order, now: int)
    requires PolicyFor(c, o.tenant).Some?
    ensures var p, d := PolicyFor(c, o.tenant).value, Evaluation(c, committed, o, Answered, now);
            d.verdict.Approved? <==>
              && Estimate(o).Some?
              && o.symbol !in p.restricted && (Empty(p.allowed) || o.symbol in p.allowed)
              && o.quantity <= p.maxOrderQuantity && 0.0 < d.notional <= p.maxOrderNotional
              && forall s :: InScope(d, s) ==>
                  ApprovedNotional(committed, s, RiskDay(p.zone, now)) + d.notional <= DailyMaximum(p, s)
  {
    var p, d := PolicyFor(c, o.tenant).value, Evaluation(c, committed, o, Answered, now);
    assert InScope(d, User(o.tenant, o.user)) && InScope(d, Tenant(o.tenant));
    forall s | InScope(d, s) ensures s == Tenant(o.tenant) || s == User(o.tenant, o.user) {}
  }

  // ----- the step system -----

  /** Decisions in the table, and decisions made but not inserted yet. */
  datatype State = State(committed: seq<Decision>, inFlight: seq<Decision>)

  datatype Action =
    | Evaluate(order: Order, answer: Answer, now: int)
    | Commit(i: nat)
    | Drop(i: nat)

  predicate HasDecision(ds: seq<Decision>, order: nat) {
    exists d <- ds :: d.order == order
  }

  /** The insert happens while the order is still pending, that is, without a decision. */
  function Inserted(ds: seq<Decision>, d: Decision): seq<Decision> {
    if HasDecision(ds, d.order) then ds else ds + [d]
  }

  function Without(ds: seq<Decision>, i: nat): seq<Decision>
    requires i < |ds|
  {
    ds[..i] + ds[i + 1..]
  }

  function Apply(c: Config, s: State, a: Action): State {
    match a
    case Evaluate(o, answer, now) => s.(inFlight := s.inFlight + [Evaluation(c, s.committed, o, answer, now)])
    case Commit(i) =>
      if i < |s.inFlight| then State(Inserted(s.committed, s.inFlight[i]), Without(s.inFlight, i)) else s
    case Drop(i) =>
      if i < |s.inFlight| then s.(inFlight := Without(s.inFlight, i)) else s
  }

  function Run(c: Config, s: State, acts: seq<Action>): State
    decreases acts
  {
    if acts == [] then s else Run(c, Apply(c, s, acts[0]), acts[1..])
  }

  const EMPTY := State([], [])

  // ----- the order service's two methods -----

  class RiskDesk {
    const config: Config
    var decisions: seq<Decision>

    constructor (config: Config)
      ensures this.config == config && decisions == []
    {
      this.config := config;
      decisions := [];
    }

    /** Reads the sums in one pass over the table. */
    method ApprovedNotionalForDay(tenant: string, user: string, day: (int, int)) returns (ofUser: real, ofTenant: real)
      ensures ofUser == ApprovedNotional(decisions, User(tenant, user), day)
      ensures ofTenant == ApprovedNotional(decisions, Tenant(tenant), day)
    {
      ofUser, ofTenant := 0.0, 0.0;
      for i := 0 to |decisions|
        invariant ofUser == ApprovedNotional(decisions[..i], User(tenant, user), day)
        invariant ofTenant == ApprovedNotional(decisions[..i], Tenant(tenant), day)
      {
        var d := decisions[i];
        assert decisions[..i + 1][..i] == decisions[..i];
        if d.tenant == tenant && d.verdict.Approved? && Within(day, d.at) {
          ofTenant := ofTenant + d.notional;
          if d.user == user { ofUser := ofUser + d.notional; }
        }
      }
      assert decisions[..|decisions|] == decisions;
    }

    /** Makes the decision and changes nothing yet. */
    method EvaluateRisk(o: Order, answer: Answer, now: int) returns (d: Decision)
      ensures d == Evaluation(config, decisions, o, answer, now)
    {
      var price := Estimate(o);
      d := Decided(o, Rejected, ReferenceUnavailable, 0.0, now);
      if price.None? { return; }
      d := d.(notional := price.value * o.quantity);
      if answer.Malformed? {
        d := d.(verdict := InvalidResponse, reason := ResponseInvalid);
        return;
      }
      var policy := PolicyFor(config, o.tenant);
      if answer.NoAnswer? || policy.None? {
        if config.failOpen {
          d := d.(verdict := Approved, reason := ServiceBypassed);
        } else {
          d := d.(verdict := Unavailable, reason := ServiceUnavailable);
        }
        return;
      }
      var reason := BasicRejection(policy.value, o, price.value, d.notional);
      if reason.RiskOk? {
        var ofUser, ofTenant := ApprovedNotionalForDay(o.tenant, o.user, RiskDay(policy.value.zone, now));
        if ofUser + d.notional > policy.value.maxDailyUserNotional {
          reason := DailyUserNotional;
        } else if ofTenant + d.notional > policy.value.maxDailyTenantNotional {
          reason := DailyTenantNotional;
        }
      }
      d := d.(verdict := if reason.RiskOk? then Approved else Rejected, reason := reason);
    }

    method PersistRiskDecision(d: Decision) returns (inserted: bool)
      modifies this`decisions
      ensures decisions == Inserted(old(decisions), d)
      ensures inserted <==> !HasDecision(old(decisions), d.order)
    {
      inserted := !exists e <- decisions :: e.order == d.order;
      if inserted { decisions := decisions + [d]; }
    }
  }
}
