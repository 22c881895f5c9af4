/** How far over the limit concurrent evaluations can go. */
module RiskTheorems {
  import opened Options
  import opened OrderTypes
  import opened RiskCalendar
  import opened RiskLimit

  /** Approved by the engine, not by failing open. */
  predicate Checked(d: Decision, s: Scope, day: (int, int)) {
    CountsIn(d, s, day) && !d.reason.ServiceBypassed?
  }

  function CheckedNotional(ds: seq<Decision>, s: Scope, day: (int, int)): real {
    if ds == [] then 0.0
    else
      var d := ds[|ds| - 1];
      CheckedNotional(ds[..|ds| - 1], s, day) + if Checked(d, s, day) then d.notional else 0.0
  }

  predicate Bypassed(d: Decision, s: Scope, day: (int, int)) {
    CountsIn(d, s, day) && d.reason.ServiceBypassed?
  }

  function BypassedNotional(ds: seq<Decision>, s: Scope, day: (int, int)): real {
    if ds == [] then 0.0
    else
      var d := ds[|ds| - 1];
      BypassedNotional(ds[..|ds| - 1], s, day) + if Bypassed(d, s, day) then d.notional else 0.0
  }

  /** The evaluations of a scope that have read the limit and not been inserted or dropped. */
  function Evaluating(ds: seq<Decision>, s: Scope): nat {
    if ds == [] then 0
    else
      var d := ds[|ds| - 1];
      Evaluating(ds[..|ds| - 1], s) + if InScope(d, s) && !d.reason.ServiceBypassed? then 1 else 0
  }

  function Positive(x: real): real {
    if x > 0.0 then x else 0.0
  }

  /** Every decision of the tenant is within the order limit, and bypasses are positive. */
  ghost predicate Sized(ds: seq<Decision>, tenant: string, p: Policy) {
    forall d <- ds :: d.tenant == tenant && d.verdict.Approved? ==>
      d.notional > 0.0 && (!d.reason.ServiceBypassed? ==> d.notional <= p.maxOrderNotional)
  }

  lemma {:induction false} Parts(ds: seq<Decision>, s: Scope, day: (int, int), p: Policy)
    requires Sized(ds, s.tenant, p)
    ensures ApprovedNotional(ds, s, day) == CheckedNotional(ds, s, day) + BypassedNotional(ds, s, day)
    ensures BypassedNotional(ds, s, day) >= 0.0 && CheckedNotional(ds, s, day) >= 0.0
    ensures CheckedNotional(ds, s, day) <= Times(Evaluating(ds, s), Positive(p.maxOrderNotional))
  {
    if ds != [] {
      var n := |ds| - 1;
      assert ds[n] in ds;
      Parts(ds[..n], s, day, p);
    }
  }

  /** n orders of one size. */
  function Times(n: nat, m: real): real {
    if n == 0 then 0.0 else Times(n - 1, m) + m
  }

  lemma {:induction false} TimesIsProduct(n: nat, m: real)
    ensures Times(n, m) == n as real * m
  {
    if n > 0 {
      TimesIsProduct(n - 1, m);
      OneMore((n - 1) as real, m);
    }
  }

  lemma OneMore(x: real, m: real)
    ensures (x + 1.0) * m == x * m + m
  {}

  lemma {:induction false} FewerOrders(a: nat, b: nat, m: real)
    requires a <= b && m >= 0.0
    ensures 0.0 <= Times(a, m) <= Times(b, m)
    decreases b
  {
    if a < b { FewerOrders(a, b - 1, m); } else if a > 0 { FewerOrders(a - 1, a - 1, m); }
  }

  lemma {:induction false} Concat(xs: seq<Decision>, ys: seq<Decision>, s: Scope, day: (int, int))
    ensures CheckedNotional(xs + ys, s, day) == CheckedNotional(xs, s, day) + CheckedNotional(ys, s, day)
    ensures BypassedNotional(xs + ys, s, day) == BypassedNotional(xs, s, day) + BypassedNotional(ys, s, day)
    ensures Evaluating(xs + ys, s) == Evaluating(xs, s) + Evaluating(ys, s)
  {
    if ys == [] {
      assert xs + ys == xs;
    } else {
      var n := |ys| - 1;
      assert (xs + ys)[..|xs + ys| - 1] == xs + ys[..n];
      Concat(xs, ys[..n], s, day);
    }
  }

  lemma One(d: Decision, s: Scope, day: (int, int))
    ensures CheckedNotional([d], s, day) == if Checked(d, s, day) then d.notional else 0.0
    ensures BypassedNotional([d], s, day) == if Bypassed(d, s, day) then d.notional else 0.0
    ensures Evaluating([d], s) == if InScope(d, s) && !d.reason.ServiceBypassed? then 1 else 0
  {}

  /** Taking one decision out takes its own part out. */
  lemma Taken(ds: seq<Decision>, i: nat, s: Scope, day: (int, int))
    requires i < |ds|
    ensures CheckedNotional(Without(ds, i), s, day) + CheckedNotional([ds[i]], s, day) == CheckedNotional(ds, s, day)
    ensures BypassedNotional(Without(ds, i), s, day) + BypassedNotional([ds[i]], s, day) == BypassedNotional(ds, s, day)
    ensures Evaluating(Without(ds, i), s) + Evaluating([ds[i]], s) == Evaluating(ds, s)
  {
    Concat(ds[..i], ds[i + 1..], s, day);
    Concat(ds[..i], [ds[i]], s, day);
    Concat(ds[..i] + [ds[i]], ds[i + 1..], s, day);
    assert ds[..i] + [ds[i]] + ds[i + 1..] == ds;
  }

  /** A day of a time zone in which days partition time. */
  ghost predicate IsDay(p: Policy, day: (int, int)) {
    Regular(p.zone) && exists now :: day == RiskDay(p.zone, now)
  }

  lemma DayIsDay(p: Policy, now: int)
    requires Regular(p.zone)
    ensures IsDay(p, RiskDay(p.zone, now)) && Within(RiskDay(p.zone, now), now)
  {
    DaysPartitionTime(p.zone, now, now);
  }

  // ----- the invariant -----

  /** What k evaluations at a time can add up to. */
  function Cap(p: Policy, s: Scope, k: nat): real
    requires k >= 1
  {
    Positive(DailyMaximum(p, s)) + Times(k - 1, Positive(p.maxOrderNotional))
  }

  ghost predicate Inv(c: Config, st: State, s: Scope, day: (int, int), k: nat)
    requires PolicyFor(c, s.tenant).Some? && k >= 1
  {
    var p := PolicyFor(c, s.tenant).value;
    && Sized(st.committed, s.tenant, p) && Sized(st.inFlight, s.tenant, p)
    && CheckedNotional(st.committed, s, day) + CheckedNotional(st.inFlight, s, day) <= Cap(p, s, k)
  }

  lemma EvaluationSized(c: Config, committed: seq<Decision>, o: Order, answer: Answer, now: int)
    requires PolicyFor(c, o.tenant).Some?
    ensures Sized([Evaluation(c, committed, o, answer, now)], o.tenant, PolicyFor(c, o.tenant).value)
  {}

  /** An approval leaves room for itself on top of all that is committed. */
  lemma ApprovalFits(c: Config, committed: seq<Decision>, o: Order, answer: Answer, now: int, s: Scope, day: (int, int))
    requires PolicyFor(c, s.tenant).Some?
    requires var p := PolicyFor(c, s.tenant).value; Sized(committed, s.tenant, p) && IsDay(p, day)
    requires Checked(Evaluation(c, committed, o, answer, now), s, day)
    ensures var p := PolicyFor(c, s.tenant).value;
            CheckedNotional(committed, s, day) + Evaluation(c, committed, o, answer, now).notional <= DailyMaximum(p, s)
  {
    var p := PolicyFor(c, s.tenant).value;
    var noon :| day == RiskDay(p.zone, noon);
    DaysPartitionTime(p.zone, noon, now);
    ApprovedExactlyWhen(c, committed, o, now);
    Parts(committed, s, day, p);
  }

  lemma EvaluateKeeps(c: Config, st: State, a: Action, s: Scope, day: (int, int), k: nat)
    requires PolicyFor(c, s.tenant).Some? && k >= 1 && a.Evaluate? && Inv(c, st, s, day, k)
    requires IsDay(PolicyFor(c, s.tenant).value, day)
    requires Evaluating(Apply(c, st, a).inFlight, s) <= k
    ensures Inv(c, Apply(c, st, a), s, day, k)
  {
    var p := PolicyFor(c, s.tenant).value;
    var d := Evaluation(c, st.committed, a.order, a.answer, a.now);
    if a.order.tenant == s.tenant { EvaluationSized(c, st.committed, a.order, a.answer, a.now); assert d in [d]; }
    Concat(st.inFlight, [d], s, day);
    One(d, s, day);
    if Checked(d, s, day) {
      ApprovalFits(c, st.committed, a.order, a.answer, a.now, s, day);
      Parts(st.inFlight, s, day, p);
      FewerOrders(Evaluating(st.inFlight, s), k - 1, Positive(p.maxOrderNotional));
    }
  }

  lemma RemovalKeeps(c: Config, st: State, a: Action, s: Scope, day: (int, int), k: nat)
    requires PolicyFor(c, s.tenant).Some? && k >= 1 && !a.Evaluate? && a.i < |st.inFlight| && Inv(c, st, s, day, k)
    ensures Inv(c, Apply(c, st, a), s, day, k)
  {
    var p := PolicyFor(c, s.tenant).value;
    var d := st.inFlight[a.i];
    assert d in st.inFlight;
    forall e | e in Without(st.inFlight, a.i) ensures e in st.inFlight {}
    Taken(st.inFlight, a.i, s, day);
    Concat(st.committed, [d], s, day);
    assert Sized([d], s.tenant, p);
    Parts([d], s, day, p);
  }

  lemma StepKeeps(c: Config, st: State, a: Action, s: Scope, day: (int, int), k: nat)
    requires PolicyFor(c, s.tenant).Some? && k >= 1 && Inv(c, st, s, day, k)
    requires IsDay(PolicyFor(c, s.tenant).value, day)
    requires Evaluating(Apply(c, st, a).inFlight, s) <= k
    ensures Inv(c, Apply(c, st, a), s, day, k)
  {
    if a.Evaluate? {
      EvaluateKeeps(c, st, a, s, day, k);
    } else if a.i < |st.inFlight| {
      RemovalKeeps(c, st, a, s, day, k);
    }
  }

  /** At most k evaluations of the scope overlap at any time. */
  ghost predicate Overlap(c: Config, st: State, acts: seq<Action>, s: Scope, k: nat)
    decreases acts
  {
    Evaluating(st.inFlight, s) <= k && (acts != [] ==> Overlap(c, Apply(c, st, acts[0]), acts[1..], s, k))
  }

  lemma {:induction false} RunKeeps(c: Config, st: State, acts: seq<Action>, s: Scope, day: (int, int), k: nat)
    requires PolicyFor(c, s.tenant).Some? && k >= 1 && Inv(c, st, s, day, k)
    requires IsDay(PolicyFor(c, s.tenant).value, day)
    requires Overlap(c, st, acts, s, k)
    ensures Inv(c, Run(c, st, acts), s, day, k)
    decreases acts
  {
    if acts != [] {
      StepKeeps(c, st, acts[0], s, day, k);
      RunKeeps(c, Apply(c, st, acts[0]), acts[1..], s, day, k);
    }
  }

  /** With at most k overlapping evaluations of a tenant or a user, what is approved in a risk day
      stays within the daily limit plus k - 1 times the order limit, apart from what was approved
      by failing open. */
  lemma DailyLimit(c: Config, acts: seq<Action>, s: Scope, day: (int, int), k: nat)
    requires PolicyFor(c, s.tenant).Some? && IsDay(PolicyFor(c, s.tenant).value, day)
    requires k >= 1 && Overlap(c, EMPTY, acts, s, k)
    ensures var p, ds := PolicyFor(c, s.tenant).value, Run(c, EMPTY, acts).committed;
            ApprovedNotional(ds, s, day) <= Cap(p, s, k) + BypassedNotional(ds, s, day)
  {
    var p := PolicyFor(c, s.tenant).value;
    FewerOrders(0, k - 1, Positive(p.maxOrderNotional));
    RunKeeps(c, EMPTY, acts, s, day, k);
    var st := Run(c, EMPTY, acts);
    Parts(st.committed, s, day, p);
    Parts(st.inFlight, s, day, p);
  }

  /** The daily limit plus k - 1 times the order limit. */
  lemma CapIsLimitPlusOrders(p: Policy, s: Scope, k: nat)
    requires k >= 1
    ensures Cap(p, s, k) == Positive(DailyMaximum(p, s)) + (k - 1) as real * Positive(p.maxOrderNotional)
    ensures Cap(p, s, 1) == Positive(DailyMaximum(p, s))
  {
    TimesIsProduct(k - 1, Positive(p.maxOrderNotional));
  }

  /** One at a time, and without failing open, the limit is exact. */
  lemma LimitExactOneByOne(c: Config, acts: seq<Action>, s: Scope, day: (int, int))
    requires PolicyFor(c, s.tenant).Some? && IsDay(PolicyFor(c, s.tenant).value, day)
    requires Overlap(c, EMPTY, acts, s, 1) && !c.failOpen
    ensures var p, ds := PolicyFor(c, s.tenant).value, Run(c, EMPTY, acts).committed;
            ApprovedNotional(ds, s, day) <= Positive(DailyMaximum(p, s))
  {
    var p := PolicyFor(c, s.tenant).value;
    DailyLimit(c, acts, s, day, 1);
    NeverBypassed(c, EMPTY, acts);
    NothingBypassed(Run(c, EMPTY, acts).committed, s, day);
  }

  ghost predicate NoBypass(ds: seq<Decision>) {
    forall d <- ds :: !d.reason.ServiceBypassed?
  }

  lemma {:induction false} NeverBypassed(c: Config, st: State, acts: seq<Action>)
    requires !c.failOpen && NoBypass(st.committed) && NoBypass(st.inFlight)
    ensures NoBypass(Run(c, st, acts).committed)
    decreases acts
  {
    if acts != [] {
      var a := acts[0];
      if !a.Evaluate? && a.i < |st.inFlight| { assert st.inFlight[a.i] in st.inFlight; }
      NeverBypassed(c, Apply(c, st, a), acts[1..]);
    }
  }

  lemma {:induction false} NothingBypassed(ds: seq<Decision>, s: Scope, day: (int, int))
    requires NoBypass(ds)
    ensures BypassedNotional(ds, s, day) == 0.0
  {
    if ds != [] {
      assert ds[|ds| - 1] in ds;
      NothingBypassed(ds[..|ds| - 1], s, day);
    }
  }
}
