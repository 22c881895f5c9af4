/** The order in which one publisher's batch reaches the broker, whatever all others do. */
module OutboxOrder {
  import opened Options
  import opened Selection
  import opened OutboxModel
  import opened OutboxPublisher

  // ----- who put what into the broker's log -----

  datatype Delivery = Delivery(sender: nat, id: nat)

  predicate Delivers(c: Config, s: State, a: Action) {
    a.Send? && a.accepted && Enabled(c, s, a)
  }

  /** The accepted sends of a run, with their senders. */
  function Deliveries(c: Config, s: State, acts: seq<Action>): seq<Delivery>
    decreases acts
  {
    if acts == [] then []
    else DeliveryOf(c, s, acts[0]) + Deliveries(c, Apply(c, s, acts[0]), acts[1..])
  }

  function DeliveryOf(c: Config, s: State, a: Action): seq<Delivery> {
    if Delivers(c, s, a) then [Delivery(a.w, s.workers[a.w].queue[0].id)] else []
  }

  function Delivered(ds: seq<Delivery>): seq<nat> {
    if ds == [] then [] else [ds[0].id] + Delivered(ds[1..])
  }

  function By(ds: seq<Delivery>, w: nat): seq<nat> {
    if ds == [] then [] else (if ds[0].sender == w then [ds[0].id] else []) + By(ds[1..], w)
  }

  /** The log grows by exactly these. */
  lemma {:induction false} LogIsDeliveries(c: Config, s: State, acts: seq<Action>)
    ensures Run(c, s, acts).log == s.log + Delivered(Deliveries(c, s, acts))
    decreases acts
  {
    if acts != [] {
      var t := Apply(c, s, acts[0]);
      LogIsDeliveries(c, t, acts[1..]);
      OneStepLog(c, s, acts[0]);
      LogsAddUp(s.log, DeliveryOf(c, s, acts[0]), Deliveries(c, t, acts[1..]), t.log);
    }
  }

  lemma LogsAddUp(log: seq<nat>, first: seq<Delivery>, rest: seq<Delivery>, next: seq<nat>)
    requires next == log + Delivered(first)
    ensures next + Delivered(rest) == log + Delivered(first + rest)
  {
    DeliveredConcat(first, rest);
    assert log + Delivered(first) + Delivered(rest) == log + (Delivered(first) + Delivered(rest));
  }

  lemma OneStepLog(c: Config, s: State, a: Action)
    ensures Apply(c, s, a).log == s.log + Delivered(DeliveryOf(c, s, a))
  {
    if Delivers(c, s, a) {
      var d := Delivery(a.w, s.workers[a.w].queue[0].id);
      assert [d][1..] == [];
    }
  }

  lemma {:induction false} DeliveredConcat(xs: seq<Delivery>, ys: seq<Delivery>)
    ensures Delivered(xs + ys) == Delivered(xs) + Delivered(ys)
  {
    if xs == [] {
      assert xs + ys == ys;
    } else {
      assert (xs + ys)[0] == xs[0] && (xs + ys)[1..] == xs[1..] + ys;
      DeliveredConcat(xs[1..], ys);
    }
  }

  lemma {:induction false} DeliveriesConcat(c: Config, s: State, xs: seq<Action>, ys: seq<Action>)
    ensures Deliveries(c, s, xs + ys) == Deliveries(c, s, xs) + Deliveries(c, Run(c, s, xs), ys)
    decreases xs
  {
    if xs == [] {
      assert xs + ys == ys;
    } else {
      assert (xs + ys)[0] == xs[0] && (xs + ys)[1..] == xs[1..] + ys;
      DeliveriesConcat(c, Apply(c, s, xs[0]), xs[1..], ys);
    }
  }

  lemma {:induction false} ByConcat(xs: seq<Delivery>, ys: seq<Delivery>, w: nat)
    ensures By(xs + ys, w) == By(xs, w) + By(ys, w)
  {
    if xs == [] {
      assert xs + ys == ys;
    } else {
      assert (xs + ys)[0] == xs[0] && (xs + ys)[1..] == xs[1..] + ys;
      ByConcat(xs[1..], ys, w);
    }
  }

  /** What a publisher delivers in two stretches of a run. */
  lemma ByBoth(c: Config, s: State, xs: seq<Action>, ys: seq<Action>, w: nat)
    ensures By(Deliveries(c, s, xs + ys), w)
         == By(Deliveries(c, s, xs), w) + By(Deliveries(c, Run(c, s, xs), ys), w)
  {
    DeliveriesConcat(c, s, xs, ys);
    ByConcat(Deliveries(c, s, xs), Deliveries(c, Run(c, s, xs), ys), w);
  }

  lemma {:induction false} OthersDeliverNothing(c: Config, s: State, acts: seq<Action>, w: nat)
    requires NotBy(w, acts)
    ensures By(Deliveries(c, s, acts), w) == []
    decreases acts
  {
    if acts != [] {
      OthersDeliverNothing(c, Apply(c, s, acts[0]), acts[1..], w);
      ByConcat(DeliveryOf(c, s, acts[0]), Deliveries(c, Apply(c, s, acts[0]), acts[1..]), w);
    }
  }

  lemma OneStepDeliveries(c: Config, s: State, a: Action, w: nat)
    ensures By(Deliveries(c, s, [a]), w)
         == if Delivers(c, s, a) && a.w == w then [s.workers[w].queue[0].id] else []
  {
    assert Deliveries(c, s, [a]) == DeliveryOf(c, s, a) + [];
  }

  // ----- one record, one batch, one poll -----

  predicate IsAccepted(record: Record, env: Conditions) {
    record.row.wellFormed && env.accepted
  }

  /** The ids of the batch that the broker accepts from its publisher, in the order of the batch. */
  ghost function Accepted(records: seq<Record>, env: nat -> Conditions, n: nat): seq<nat>
    requires n <= |records|
  {
    if n == 0 then []
    else Accepted(records, env, n - 1) + (if IsAccepted(records[n - 1], env(n - 1)) then [records[n - 1].id] else [])
  }

  /** The publisher is at the head of this batch, with nothing sent of it. */
  ghost predicate Holds(s: State, w: nat, records: seq<Record>) {
    && w < |s.workers| && s.workers[w] == Alive(records, Unsent)
    && forall i :: 0 <= i < |records| ==> records[i].id < |s.rows|
  }

  /** The publisher is still at the head of this batch, tried exactly if the head is valid. */
  ghost predicate Tried(s: State, w: nat, records: seq<Record>) {
    && w < |s.workers| && s.workers[w].Alive? && s.workers[w].queue == records && records != []
    && (forall i :: 0 <= i < |records| ==> records[i].id < |s.rows|)
    && (s.workers[w].phase.Unsent? <==> !records[0].row.wellFormed)
  }

  lemma OthersLeaveBatch(c: Config, s: State, acts: seq<Action>, w: nat, records: seq<Record>)
    requires NotBy(w, acts)
    ensures By(Deliveries(c, s, acts), w) == []
    ensures Holds(s, w, records) ==> Holds(Run(c, s, acts), w, records)
    ensures Tried(s, w, records) ==> Tried(Run(c, s, acts), w, records)
  {
    OthersDeliverNothing(c, s, acts, w);
    if w < |s.workers| { OthersSpareBatch(c, s, acts, w); }
  }

  lemma SendTries(c: Config, s: State, w: nat, records: seq<Record>, env: Conditions)
    requires Holds(s, w, records) && records != [] && records[0].row.wellFormed
    ensures By(Deliveries(c, s, [Send(w, env.accepted)]), w) == (if env.accepted then [records[0].id] else [])
    ensures Tried(Run(c, s, [Send(w, env.accepted)]), w, records)
  {
    var send := Send(w, env.accepted);
    assert Enabled(c, s, send);
    OneStepDeliveries(c, s, send, w);
    RunOne(c, s, send);
  }

  lemma SendsOne(c: Config, s: State, w: nat, records: seq<Record>, env: Conditions, sent: seq<Action>)
    requires Holds(s, w, records) && records != [] && Foreign(w, env)
    requires sent == env.beforeSend + (if records[0].row.wellFormed then [Send(w, env.accepted)] else [])
    ensures By(Deliveries(c, s, sent), w) == (if IsAccepted(records[0], env) then [records[0].id] else [])
    ensures Tried(Run(c, s, sent), w, records)
  {
    OthersLeaveBatch(c, s, env.beforeSend, w, records);
    if records[0].row.wellFormed {
      SendTries(c, Run(c, s, env.beforeSend), w, records, env);
      ByBoth(c, s, env.beforeSend, [Send(w, env.accepted)], w);
      RunConcat(c, s, env.beforeSend, [Send(w, env.accepted)]);
    } else {
      assert sent == env.beforeSend;
    }
  }

  lemma OneForeign(c: Config, s: State, w: nat, records: seq<Record>, env: Conditions)
    requires Holds(s, w, records) && records != [] && Foreign(w, env)
    ensures var trace := OneTrace(w, records[0], env);
            && By(Deliveries(c, s, trace), w) == (if IsAccepted(records[0], env) then [records[0].id] else [])
            && Holds(Run(c, s, trace), w, records[1..])
  {
    var sent := env.beforeSend + (if records[0].row.wellFormed then [Send(w, env.accepted)] else []);
    var marked := env.beforeMark + [Mark(w, env.nextAvailableAt, env.markReached)];
    SendsOne(c, s, w, records, env, sent);
    MarksOne(c, Run(c, s, sent), w, records, env, marked);
    assert OneTrace(w, records[0], env) == sent + marked;
    Stretches(c, s, sent, marked, w, [], records[1..]);
  }

  /** Two stretches of a run, of which the second leaves the publisher with these records. */
  lemma Stretches(c: Config, s: State, xs: seq<Action>, ys: seq<Action>, w: nat, sent: seq<nat>, records: seq<Record>)
    requires By(Deliveries(c, Run(c, s, xs), ys), w) == sent && Holds(Run(c, Run(c, s, xs), ys), w, records)
    ensures By(Deliveries(c, s, xs + ys), w) == By(Deliveries(c, s, xs), w) + sent
            && Holds(Run(c, s, xs + ys), w, records)
  {
    ByBoth(c, s, xs, ys, w);
    RunConcat(c, s, xs, ys);
  }

  lemma MarksOne(c: Config, s: State, w: nat, records: seq<Record>, env: Conditions, marked: seq<Action>)
    requires Tried(s, w, records) && Foreign(w, env)
    requires marked == env.beforeMark + [Mark(w, env.nextAvailableAt, env.markReached)]
    ensures By(Deliveries(c, s, marked), w) == [] && Holds(Run(c, s, marked), w, records[1..])
  {
    var mark := Mark(w, env.nextAvailableAt, env.markReached);
    OthersLeaveBatch(c, s, env.beforeMark, w, records);
    MarkPops(c, Run(c, s, env.beforeMark), w, records, mark);
    Stretches(c, s, env.beforeMark, [mark], w, [], records[1..]);
  }

  lemma MarkPops(c: Config, t: State, w: nat, records: seq<Record>, mark: Action)
    requires Tried(t, w, records) && mark.Mark? && mark.w == w
    ensures By(Deliveries(c, t, [mark]), w) == [] && Holds(Run(c, t, [mark]), w, records[1..])
  {
    OneStepDeliveries(c, t, mark, w);
    RunOne(c, t, mark);
    assert Enabled(c, t, mark);
  }

  /** What a publisher puts out of its batch is accepted in the order of the batch, whatever all
      others do in between. */
  lemma {:induction false} BatchInOrder(
      c: Config, s: State, w: nat, records: seq<Record>, env: nat -> Conditions, n: nat)
    requires Holds(s, w, records) && n <= |records|
    requires forall i: nat :: Foreign(w, env(i))
    ensures By(Deliveries(c, s, BatchTrace(w, records, env, n)), w) == Accepted(records, env, n)
    ensures Holds(Run(c, s, BatchTrace(w, records, env, n)), w, records[n..])
  {
    if n > 0 {
      BatchInOrder(c, s, w, records, env, n - 1);
      var before, record := BatchTrace(w, records, env, n - 1), records[n - 1];
      OneForeign(c, Run(c, s, before), w, records[n - 1..], env(n - 1));
      assert records[n - 1..][1..] == records[n..];
      Stretches(c, s, before, OneTrace(w, record, env(n - 1)), w,
                if IsAccepted(record, env(n - 1)) then [record.id] else [], records[n..]);
    }
  }

  ghost predicate InOrder(rows: seq<Row>, ids: seq<nat>) {
    forall i, j :: 0 <= i < j < |ids| ==> Before(rows, ids[i], ids[j])
  }

  /** Part of a batch in database order is in database order. */
  lemma {:induction false} AcceptedOrdered(rows: seq<Row>, records: seq<Record>, env: nat -> Conditions, n: nat)
    requires InOrder(rows, Ids(records)) && n <= |records|
    ensures InOrder(rows, Accepted(records, env, n))
    ensures forall x <- Accepted(records, env, n) :: exists i :: 0 <= i < n && records[i].id == x
  {
    if n > 0 {
      AcceptedOrdered(rows, records, env, n - 1);
      var before, last := Accepted(records, env, n - 1), records[n - 1].id;
      forall x | x in before ensures Before(rows, x, last) {
        var i :| 0 <= i < n - 1 && records[i].id == x;
        assert Before(rows, Ids(records)[i], Ids(records)[n - 1]);
      }
      InOrderSnoc(rows, before, last);
    }
  }

  lemma InOrderSnoc(rows: seq<Row>, ids: seq<nat>, last: nat)
    requires InOrder(rows, ids) && forall x <- ids :: Before(rows, x, last)
    ensures InOrder(rows, ids + [last])
  {
    forall i, j | 0 <= i < j < |ids + [last]| ensures Before(rows, (ids + [last])[i], (ids + [last])[j]) {
      assert ids[i] in ids;
    }
  }

  /** Whatever all others do, what one poll puts into the broker's log is in database order. */
  lemma PollInOrder(c: Config, s: State, w: nat, skip: set<nat>, ids: seq<nat>, env: nat -> Conditions, stop: nat)
    requires Holds(s, w, []) && |s.recoveries| == |s.rows|
    requires Selected(Claimable(s.rows, c.maxAttempts, s.now, skip), CreatedAt(s.rows), c.batchSize, ids)
    requires forall i: nat :: Foreign(w, env(i))
    ensures forall i :: 0 <= i < |ids| ==> ids[i] < |s.rows|
    ensures var records := RecordsOf(s.rows, ids, w);
            var sent := By(Deliveries(c, s, PollTrace(w, ids, records, env, stop)), w);
            sent == Accepted(records, env, if stop < |records| then stop else |records|) && InOrder(s.rows, sent)
  {
    ClaimHolds(c, s, w, skip, ids);
    var records := RecordsOf(s.rows, ids, w);
    var n := if stop < |records| then stop else |records|;
    var claim, batch := [Claim(w, ids)], BatchTrace(w, records, env, n);
    BatchInOrder(c, Run(c, s, claim), w, records, env, n);
    ByBoth(c, s, claim, batch, w);
    AcceptedOrdered(s.rows, records, env, n);
    CrashDeliversNothing(c, s, claim + batch, w, stop < |records|);
  }

  lemma CrashDeliversNothing(c: Config, s: State, acts: seq<Action>, w: nat, crashes: bool)
    ensures By(Deliveries(c, s, acts + (if crashes then [Crash(w)] else [])), w) == By(Deliveries(c, s, acts), w)
  {
    if crashes {
      ByBoth(c, s, acts, [Crash(w)], w);
      OneStepDeliveries(c, Run(c, s, acts), Crash(w), w);
    } else {
      assert acts + [] == acts;
    }
  }

  /** After its claim the publisher holds the batch, in database order, and has sent nothing. */
  lemma ClaimHolds(c: Config, s: State, w: nat, skip: set<nat>, ids: seq<nat>)
    requires Holds(s, w, []) && |s.recoveries| == |s.rows|
    requires Selected(Claimable(s.rows, c.maxAttempts, s.now, skip), CreatedAt(s.rows), c.batchSize, ids)
    ensures forall i :: 0 <= i < |ids| ==> ids[i] < |s.rows|
    ensures var records := RecordsOf(s.rows, ids, w);
            Holds(Run(c, s, [Claim(w, ids)]), w, records) && InOrder(s.rows, Ids(records))
    ensures By(Deliveries(c, s, [Claim(w, ids)]), w) == []
  {
    assert forall i :: 0 <= i < |ids| ==> Claimable(s.rows, c.maxAttempts, s.now, skip)(ids[i]);
    assert Enabled(c, s, Claim(w, ids));
    RunOne(c, s, Claim(w, ids));
    OneStepDeliveries(c, s, Claim(w, ids), w);
    assert Ids(RecordsOf(s.rows, ids, w)) == ids;
  }
}
