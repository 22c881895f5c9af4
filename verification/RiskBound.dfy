/** The bound on the daily limit is reached, for tenants and for users, by every number of
    overlapping evaluations. */
module RiskBound {
  import opened Options
  import opened OrderTypes
  import opened RiskCalendar
  import opened RiskLimit
  import opened RiskTheorems

  /** Who floods the service, with orders for what. */
  datatype Buyer = Buyer(tenant: string, user: string, symbol: string)

  function RushOrder(id: nat, b: Buyer, m: real): Order {
    Order(id, b.tenant, b.user, b.symbol, OrderType.Limit, 1.0, Some(m))
  }

  function Approval(id: nat, b: Buyer, m: real, now: int): Decision {
    Decision(id, b.tenant, b.user, Approved, RiskOk, m, now)
  }

  /** n evaluations one after the other, none of them inserted yet. */
  function Rush(base: nat, n: nat, b: Buyer, m: real, now: int): seq<Action>
    decreases n
  {
    if n == 0 then []
    else [Evaluate(RushOrder(base, b, m), Answered, now)] + Rush(base + 1, n - 1, b, m, now)
  }

  function Drain(n: nat): seq<Action> {
    if n == 0 then [] else [Commit(0)] + Drain(n - 1)
  }

  function Approvals(base: nat, n: nat, b: Buyer, m: real, now: int): seq<Decision>
    decreases n
  {
    if n == 0 then [] else [Approval(base, b, m, now)] + Approvals(base + 1, n - 1, b, m, now)
  }

  /** There is room for one more order of the largest size, and in the scope for no more. */
  ghost predicate RoomForOne(p: Policy, ds: seq<Decision>, b: Buyer, s: Scope, day: (int, int)) {
    var m := p.maxOrderNotional;
    && m > 0.0 && DailyMaximum(p, s) >= 0.0
    && p.maxOrderQuantity >= 1.0 && Empty(p.allowed) && b.symbol !in p.restricted
    && (s == Tenant(b.tenant) || s == User(b.tenant, b.user))
    && ApprovedNotional(ds, User(b.tenant, b.user), day) + m <= p.maxDailyUserNotional
    && ApprovedNotional(ds, Tenant(b.tenant), day) + m <= p.maxDailyTenantNotional
    && ApprovedNotional(ds, s, day) + m == DailyMaximum(p, s)
  }

  /** The rush leaves its approvals in flight, and then the rest runs. */
  lemma {:induction false} RushRuns(
      c: Config, st: State, base: nat, n: nat, b: Buyer, s: Scope, now: int, rest: seq<Action>)
    requires PolicyFor(c, b.tenant).Some?
    requires var p := PolicyFor(c, b.tenant).value; RoomForOne(p, st.committed, b, s, RiskDay(p.zone, now))
    ensures var m := PolicyFor(c, b.tenant).value.maxOrderNotional;
            Run(c, st, Rush(base, n, b, m, now) + rest)
              == Run(c, State(st.committed, st.inFlight + Approvals(base, n, b, m, now)), rest)
    decreases n
  {
    var m := PolicyFor(c, b.tenant).value.maxOrderNotional;
    var acts := Rush(base, n, b, m, now) + rest;
    if n == 0 {
      assert st.inFlight + [] == st.inFlight && acts == rest;
    } else {
      var d := Approval(base, b, m, now);
      assert Evaluation(c, st.committed, acts[0].order, Answered, now) == d;
      assert acts[1..] == Rush(base + 1, n - 1, b, m, now) + rest;
      RushRuns(c, State(st.committed, st.inFlight + [d]), base + 1, n - 1, b, s, now, rest);
      assert st.inFlight + [d] + Approvals(base + 1, n - 1, b, m, now) == st.inFlight + Approvals(base, n, b, m, now);
    }
  }

  /** Later orders have larger numbers. */
  ghost predicate Ascending(ds: seq<Decision>) {
    forall i, j :: 0 <= i < j < |ds| ==> ds[i].order < ds[j].order
  }

  lemma {:induction false} ApprovalsAscend(base: nat, n: nat, b: Buyer, m: real, now: int)
    ensures var ds := Approvals(base, n, b, m, now);
            |ds| == n && forall i :: 0 <= i < n ==> ds[i].order == base + i
    decreases n
  {
    if n > 0 { ApprovalsAscend(base + 1, n - 1, b, m, now); }
  }

  /** Decisions for different orders are all inserted. */
  lemma {:induction false} DrainRuns(c: Config, ds: seq<Decision>, xs: seq<Decision>)
    requires NewOrders(ds, xs)
    ensures Run(c, State(ds, xs), Drain(|xs|)) == State(ds + xs, [])
    decreases xs
  {
    if xs == [] {
      assert ds + [] == ds;
    } else {
      StillNew(ds, xs);
      DrainRuns(c, ds + [xs[0]], xs[1..]);
      assert ds + [xs[0]] + xs[1..] == ds + xs;
      OneDrained(c, ds, xs, State(ds + xs, []));
    }
  }

  ghost predicate NewOrders(ds: seq<Decision>, xs: seq<Decision>) {
    Ascending(xs) && forall i :: 0 <= i < |xs| ==> !HasDecision(ds, xs[i].order)
  }

  lemma StillNew(ds: seq<Decision>, xs: seq<Decision>)
    requires NewOrders(ds, xs) && xs != []
    ensures NewOrders(ds + [xs[0]], xs[1..])
  {
    forall i | 0 <= i < |xs[1..]| ensures !HasDecision(ds + [xs[0]], xs[1..][i].order) {
      assert xs[1..][i] == xs[i + 1];
    }
  }

  lemma OneDrained(c: Config, ds: seq<Decision>, xs: seq<Decision>, end: State)
    requires xs != [] && !HasDecision(ds, xs[0].order)
    requires Run(c, State(ds + [xs[0]], xs[1..]), Drain(|xs| - 1)) == end
    ensures Run(c, State(ds, xs), Drain(|xs|)) == end
  {}

  lemma {:induction false} ApprovalsAddUp(
      ds: seq<Decision>, base: nat, n: nat, b: Buyer, s: Scope, m: real, day: (int, int), now: int)
    requires Within(day, now) && (s == Tenant(b.tenant) || s == User(b.tenant, b.user))
    ensures ApprovedNotional(ds + Approvals(base, n, b, m, now), s, day) == ApprovedNotional(ds, s, day) + Times(n, m)
    decreases n
  {
    if n == 0 {
      assert ds + [] == ds;
    } else {
      var d, rest := Approval(base, b, m, now), Approvals(base + 1, n - 1, b, m, now);
      assert ds + ([d] + rest) == (ds + [d]) + rest;
      assert (ds + [d])[..|ds + [d]| - 1] == ds;
      ApprovalsAddUp(ds + [d], base + 1, n - 1, b, s, m, day, now);
    }
  }

  function Evaluations(acts: seq<Action>): nat {
    if acts == [] then 0 else (if acts[0].Evaluate? then 1 else 0) + Evaluations(acts[1..])
  }

  lemma {:induction false} EvaluatingAtMost(ds: seq<Decision>, s: Scope)
    ensures Evaluating(ds, s) <= |ds|
  {
    if ds != [] { EvaluatingAtMost(ds[..|ds| - 1], s); }
  }

  lemma {:induction false} FewEvaluations(c: Config, st: State, acts: seq<Action>, s: Scope, k: nat)
    requires |st.inFlight| + Evaluations(acts) <= k
    ensures Overlap(c, st, acts, s, k)
    decreases acts
  {
    EvaluatingAtMost(st.inFlight, s);
    if acts != [] { FewEvaluations(c, Apply(c, st, acts[0]), acts[1..], s, k); }
  }

  lemma {:induction false} RushEvaluations(base: nat, n: nat, b: Buyer, m: real, now: int, k: nat)
    ensures Evaluations(Rush(base, n, b, m, now) + Drain(k)) == n
    decreases n, k
  {
    var acts := Rush(base, n, b, m, now) + Drain(k);
    if n > 0 {
      assert acts[1..] == Rush(base + 1, n - 1, b, m, now) + Drain(k);
      RushEvaluations(base + 1, n - 1, b, m, now, k);
    } else if k > 0 {
      assert acts[1..] == Rush(base, 0, b, m, now) + Drain(k - 1);
      RushEvaluations(base, 0, b, m, now, k - 1);
    }
  }

  lemma RushThenDrain(c: Config, ds: seq<Decision>, base: nat, k: nat, b: Buyer, s: Scope, now: int)
    requires PolicyFor(c, b.tenant).Some? && forall d <- ds :: d.order < base
    requires var p := PolicyFor(c, b.tenant).value; RoomForOne(p, ds, b, s, RiskDay(p.zone, now))
    ensures var m := PolicyFor(c, b.tenant).value.maxOrderNotional;
            Run(c, State(ds, []), Rush(base, k, b, m, now) + Drain(k)).committed
              == ds + Approvals(base, k, b, m, now)
  {
    var m := PolicyFor(c, b.tenant).value.maxOrderNotional;
    var xs := Approvals(base, k, b, m, now);
    RushFirst(c, ds, base, k, b, s, now, xs);
    DrainApprovals(c, ds, base, k, b, m, now, xs);
  }

  lemma RushFirst(c: Config, ds: seq<Decision>, base: nat, k: nat, b: Buyer, s: Scope, now: int, xs: seq<Decision>)
    requires PolicyFor(c, b.tenant).Some?
    requires var p := PolicyFor(c, b.tenant).value; RoomForOne(p, ds, b, s, RiskDay(p.zone, now))
    requires xs == Approvals(base, k, b, PolicyFor(c, b.tenant).value.maxOrderNotional, now)
    ensures var m := PolicyFor(c, b.tenant).value.maxOrderNotional;
            Run(c, State(ds, []), Rush(base, k, b, m, now) + Drain(k)) == Run(c, State(ds, xs), Drain(k))
  {
    RushRuns(c, State(ds, []), base, k, b, s, now, Drain(k));
    assert [] + xs == xs;
  }

  lemma DrainApprovals(c: Config, ds: seq<Decision>, base: nat, k: nat, b: Buyer, m: real, now: int, xs: seq<Decision>)
    requires forall d <- ds :: d.order < base
    requires xs == Approvals(base, k, b, m, now)
    ensures Run(c, State(ds, xs), Drain(k)) == State(ds + xs, [])
  {
    ApprovalsAscend(base, k, b, m, now);
    DrainRuns(c, ds, xs);
  }

  /** From any table with room for exactly one more order of the largest size, k overlapping
      evaluations take the approved notional to the bound. */
  lemma BoundReached(
      c: Config, ds: seq<Decision>, base: nat, k: nat, b: Buyer, s: Scope, now: int)
    requires PolicyFor(c, b.tenant).Some? && k >= 1 && forall d <- ds :: d.order < base
    requires var p := PolicyFor(c, b.tenant).value; Regular(p.zone) && RoomForOne(p, ds, b, s, RiskDay(p.zone, now))
    ensures var p := PolicyFor(c, b.tenant).value;
            var acts := Rush(base, k, b, p.maxOrderNotional, now) + Drain(k);
            && Overlap(c, State(ds, []), acts, s, k)
            && ApprovedNotional(Run(c, State(ds, []), acts).committed, s, RiskDay(p.zone, now)) == Cap(p, s, k)
  {
    var p := PolicyFor(c, b.tenant).value;
    RushOverlaps(c, ds, base, k, b, s, p.maxOrderNotional, now);
    RushThenDrain(c, ds, base, k, b, s, now);
    DaysPartitionTime(p.zone, now, now);
    ApprovalsReach(p, ds, base, k, b, s, RiskDay(p.zone, now), now);
  }

  lemma RushOverlaps(c: Config, ds: seq<Decision>, base: nat, k: nat, b: Buyer, s: Scope, m: real, now: int)
    ensures Overlap(c, State(ds, []), Rush(base, k, b, m, now) + Drain(k), s, k)
  {
    RushEvaluations(base, k, b, m, now, k);
    FewEvaluations(c, State(ds, []), Rush(base, k, b, m, now) + Drain(k), s, k);
  }

  lemma ApprovalsReach(
      p: Policy, ds: seq<Decision>, base: nat, k: nat, b: Buyer, s: Scope, day: (int, int), now: int)
    requires k >= 1 && RoomForOne(p, ds, b, s, day) && Within(day, now)
    ensures ApprovedNotional(ds + Approvals(base, k, b, p.maxOrderNotional, now), s, day) == Cap(p, s, k)
  {
    ApprovalsAddUp(ds, base, k, b, s, p.maxOrderNotional, day, now);
  }
}
