/** Which verdict and which reason an order gets, and which decisions count against a daily limit. */
module RiskVerdicts {
  import opened Options
  import opened OrderTypes
  import opened RiskCalendar
  import opened RiskLimit

  /** A price to reckon with. */
  predicate IsPriced(o: Order) {
    && (o.orderType == OrderType.Limit || o.orderType == OrderType.StopLimit)
    && o.limit.Some? && o.limit.value > 0.0 && o.limit.value * o.quantity > 0.0
  }

  /** Every decision is for its order, at the time of the evaluation.  Without a price the order is
      rejected unseen; an answer that makes no sense is an error; no answer, or no policy to answer by,
      is an approval exactly if the service fails open. */
  lemma VerdictExactly(c: Config, committed: seq<Decision>, o: Order, answer: Answer, now: int)
    ensures var d := Evaluation(c, committed, o, answer, now);
            && d.order == o.id && d.tenant == o.tenant && d.user == o.user && d.at == now
            && d.notional == (if IsPriced(o) then o.limit.value * o.quantity else 0.0)
            && (d.verdict == InvalidResponse <==> IsPriced(o) && answer == Malformed)
            && (d.verdict == InvalidResponse <==> d.reason == ResponseInvalid)
            && (d.reason == ReferenceUnavailable <==> !IsPriced(o))
            && (d.reason == ServiceBypassed <==>
                  IsPriced(o) && c.failOpen && answer != Malformed
                  && (answer == NoAnswer || (o.tenant !in c.policies && c.common.None?)))
            && (d.reason == ServiceUnavailable <==>
                  IsPriced(o) && !c.failOpen && answer != Malformed
                  && (answer == NoAnswer || (o.tenant !in c.policies && c.common.None?)))
            && (d.verdict == Unavailable <==> d.reason == ServiceUnavailable)
            && (d.verdict == Approved <==> d.reason == RiskOk || d.reason == ServiceBypassed)
  {}

  /** The first rule that forbids the order, in this order. */
  lemma RuleExactly(p: Policy, o: Order, price: real, notional: real, byUser: real, byTenant: real)
    requires price > 0.0 && notional > 0.0
    ensures var reason := ReasonFor(p, o, price, notional, byUser, byTenant);
            var allowed := o.symbol !in p.restricted && (p.allowed == {} || o.symbol in p.allowed);
            var small := o.quantity <= p.maxOrderQuantity && notional <= p.maxOrderNotional;
            && (reason == SymbolRestricted <==> o.symbol in p.restricted)
            && (reason == SymbolNotAllowed <==> o.symbol !in p.restricted && p.allowed != {} && o.symbol !in p.allowed)
            && (reason == MaxOrderQuantity <==> allowed && o.quantity > p.maxOrderQuantity)
            && (reason == MaxOrderNotional <==>
                  allowed && o.quantity <= p.maxOrderQuantity && notional > p.maxOrderNotional)
            && (reason == DailyUserNotional <==> allowed && small && byUser + notional > p.maxDailyUserNotional)
            && (reason == DailyTenantNotional <==>
                  allowed && small && byUser + notional <= p.maxDailyUserNotional
                  && byTenant + notional > p.maxDailyTenantNotional)
            && (reason == RiskOk <==>
                  allowed && small && byUser + notional <= p.maxDailyUserNotional
                  && byTenant + notional <= p.maxDailyTenantNotional)
  {}

  /** What was approved so far is what the user and the tenant were approved for on the day of the
      evaluation, in the policy's zone. */
  lemma SoFarExactly(p: Policy, committed: seq<Decision>, o: Order, price: real, notional: real, now: int)
    ensures var day := (Midnight(p.zone, LocalDay(p.zone, now)), Midnight(p.zone, LocalDay(p.zone, now) + 1));
            EvaluatedReason(p, committed, o, price, notional, now)
              == ReasonFor(p, o, price, notional, ApprovedNotional(committed, User(o.tenant, o.user), day),
                           ApprovedNotional(committed, Tenant(o.tenant), day))
  {}

  /** The engine goes by the tenant's own policy if there is one, else by the common one, and by limit
      times quantity. */
  lemma AnswerExactly(
      c: Config, committed: seq<Decision>, o: Order, p: Policy, price: real, notional: real, now: int)
    requires IsPriced(o) && Some(p) == if o.tenant in c.policies then Some(c.policies[o.tenant]) else c.common
    requires price == o.limit.value && notional == o.limit.value * o.quantity
    ensures Evaluation(c, committed, o, Answered, now).reason == EvaluatedReason(p, committed, o, price, notional, now)
  {}

  /** A decision counts against a tenant's limit on a day if it approved an order of the tenant on that
      day, and against a user's if the order was the user's. */
  lemma DecisionCounts(ds: seq<Decision>, d: Decision, tenant: string, user: string, day: (int, int))
    ensures var counts := d.tenant == tenant && d.verdict == Approved && day.0 <= d.at < day.1;
            && ApprovedNotional(ds + [d], Tenant(tenant), day)
                 == ApprovedNotional(ds, Tenant(tenant), day) + (if counts then d.notional else 0.0)
            && ApprovedNotional(ds + [d], User(tenant, user), day)
                 == ApprovedNotional(ds, User(tenant, user), day)
                      + (if counts && d.user == user then d.notional else 0.0)
    ensures ApprovedNotional([], Tenant(tenant), day) == ApprovedNotional([], User(tenant, user), day) == 0.0
  {
    assert (ds + [d])[..|ds + [d]| - 1] == ds;
  }
}
