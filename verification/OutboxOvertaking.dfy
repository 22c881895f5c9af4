/** When a later event of an aggregate overtakes an earlier one, over all publishers and runs. */
module OutboxOvertaking {
  import opened Options
  import opened Selection
  import opened OutboxModel
  import opened OutboxSafety
  import opened OutboxTheorems
  import opened OutboxPublisher

  // ----- which rows can still reach the broker -----

  /** A publisher that holds a valid record of the row and has not tried to send it. */
  ghost predicate StillSends(worker: Worker, r: nat) {
    worker.Alive? && exists i :: 0 <= i < |worker.queue| && Untried(worker, i) && worker.queue[i].id == r
  }

  predicate Untried(worker: Worker, i: nat)
    requires worker.Alive? && i < |worker.queue|
  {
    worker.queue[i].row.wellFormed && (i == 0 ==> worker.phase.Unsent?)
  }

  predicate Unfinished(row: Row) {
    row.wellFormed && (row.status.Pending? || row.status.Processing?)
  }

  /** The row waits in the table, or a publisher has it in its batch: what can be seen of a state
      before a send. */
  ghost predicate Deliverable(s: State, r: nat) {
    (r < |s.rows| && Unfinished(s.rows[r]))
    || exists v :: 0 <= v < |s.workers| && StillSends(s.workers[v], r)
  }

  // ----- a row that cannot reach the broker never does -----

  /** What a publisher may still send after a step was deliverable before it. */
  lemma BatchWasDeliverable(c: Config, s: State, a: Action, r: nat, v: nat)
    requires ValidConfig(c) && Inv(c, s) && Enabled(c, s, a) && r < |s.rows|
    requires v < |Apply(c, s, a).workers| && StillSends(Apply(c, s, a).workers[v], r)
    ensures Deliverable(s, r)
  {
    var t := Apply(c, s, a);
    var i :| 0 <= i < |t.workers[v].queue| && Untried(t.workers[v], i) && t.workers[v].queue[i].id == r;
    if a.Claim? && a.w == v {
      assert Eligible(s.rows[r], c.maxAttempts, s.now);
    } else {
      var j := if a.Mark? && a.w == v then i + 1 else i;
      assert s.workers[v].queue[j] == t.workers[v].queue[i] && Untried(s.workers[v], j);
      assert StillSends(s.workers[v], r);
    }
  }

  lemma UnfinishedBefore(c: Config, s: State, a: Action, r: nat)
    requires ValidConfig(c) && Inv(c, s) && r < |s.rows|
    ensures r < |Apply(c, s, a).rows| && (Unfinished(Apply(c, s, a).rows[r]) ==> Unfinished(s.rows[r]))
  {
    assert RowOk(c, s.rows[r]);
  }

  lemma StaysUndeliverable(c: Config, s: State, a: Action, r: nat)
    requires ValidConfig(c) && Inv(c, s) && r < |s.rows| && !Deliverable(s, r)
    ensures r < |Apply(c, s, a).rows| && !Deliverable(Apply(c, s, a), r)
    ensures Sends(Apply(c, s, a), r) == Sends(s, r)
  {
    DeliverableBefore(c, s, a, r);
    if Enabled(c, s, a) { HeadIsDeliverable(c, s, a); }
  }

  lemma DeliverableBefore(c: Config, s: State, a: Action, r: nat)
    requires ValidConfig(c) && Inv(c, s) && r < |s.rows|
    ensures r < |Apply(c, s, a).rows| && (Deliverable(Apply(c, s, a), r) ==> Deliverable(s, r))
  {
    UnfinishedBefore(c, s, a, r);
    var t := Apply(c, s, a);
    if v :| 0 <= v < |t.workers| && StillSends(t.workers[v], r) {
      if Enabled(c, s, a) { BatchWasDeliverable(c, s, a, r, v); }
    }
  }

  lemma HeadIsDeliverable(c: Config, s: State, a: Action)
    requires Enabled(c, s, a)
    ensures a.Send? ==> Deliverable(s, s.workers[a.w].queue[0].id)
  {
    if a.Send? {
      assert Untried(s.workers[a.w], 0);
      assert StillSends(s.workers[a.w], s.workers[a.w].queue[0].id);
    }
  }

  lemma {:induction false} NeverDelivered(c: Config, s: State, acts: seq<Action>, r: nat)
    requires ValidConfig(c) && Inv(c, s) && r < |s.rows| && !Deliverable(s, r)
    ensures Sends(Run(c, s, acts), r) == Sends(s, r)
    decreases acts
  {
    if acts != [] {
      StaysUndeliverable(c, s, acts[0], r);
      StepKeeps(c, s, acts[0]);
      NeverDelivered(c, Apply(c, s, acts[0]), acts[1..], r);
    }
  }

  // ----- a row that can, does in some run -----

  /** The publisher gives up what stands before the record in its batch, then sends it. */
  lemma {:induction false} SendsFromBatch(c: Config, s: State, v: nat, i: nat) returns (acts: seq<Action>)
    requires v < |s.workers| && s.workers[v].Alive? && i < |s.workers[v].queue| && Untried(s.workers[v], i)
    requires forall k :: 0 <= k < |s.workers[v].queue| ==> s.workers[v].queue[k].id < |s.rows|
    ensures Run(c, s, acts).log == s.log + [s.workers[v].queue[i].id]
    decreases i
  {
    if i == 0 {
      acts := [Send(v, true)];
      RunOne(c, s, Send(v, true));
    } else {
      var give := GivesUpHead(c, s, v);
      var rest := SendsFromBatch(c, Run(c, s, give), v, i - 1);
      acts := give + rest;
      RunConcat(c, s, give, rest);
    }
  }

  /** One refused send, if there has been none, and a mark that never arrives. */
  lemma GivesUpHead(c: Config, s: State, v: nat) returns (acts: seq<Action>)
    requires v < |s.workers| && s.workers[v].Alive? && s.workers[v].queue != []
    requires forall k :: 0 <= k < |s.workers[v].queue| ==> s.workers[v].queue[k].id < |s.rows|
    ensures var t := Run(c, s, acts);
            && t.log == s.log && t.rows == s.rows && v < |t.workers|
            && t.workers[v] == Alive(s.workers[v].queue[1..], Unsent)
  {
    var mark := Mark(v, 0, false);
    if s.workers[v].phase.Unsent? && s.workers[v].queue[0].row.wellFormed {
      acts := [Send(v, false), mark];
      assert [Send(v, false)] + [mark] == acts;
      RunConcat(c, s, [Send(v, false)], [mark]);
      RunOne(c, s, Send(v, false));
      RunOne(c, Apply(c, s, Send(v, false)), mark);
    } else {
      acts := [mark];
      RunOne(c, s, mark);
    }
  }

  lemma CanBeDelivered(c: Config, s: State, r: nat) returns (acts: seq<Action>)
    requires ValidConfig(c) && Inv(c, s) && Deliverable(s, r)
    ensures Sends(Run(c, s, acts), r) == Sends(s, r) + 1
  {
    if r < |s.rows| && Unfinished(s.rows[r]) {
      acts := CanStillPublish(c, s, r);
    } else {
      var v :| 0 <= v < |s.workers| && StillSends(s.workers[v], r);
      assert WorkerOk(c, s.rows, s.log, v, s.workers[v]);
      var i :| 0 <= i < |s.workers[v].queue| && Untried(s.workers[v], i) && s.workers[v].queue[i].id == r;
      forall k | 0 <= k < |s.workers[v].queue| ensures s.workers[v].queue[k].id < |s.rows| {
        assert RecordOk(c, s.rows, v, s.workers[v].queue[k]);
      }
      acts := SendsFromBatch(c, s, v, i);
    }
  }

  /** A row can reach the broker again exactly when it waits in the table or in a batch. */
  lemma DeliveredExactlyWhen(c: Config, s: State, r: nat)
    requires ValidConfig(c) && Inv(c, s) && r < |s.rows|
    ensures (exists acts :: Sends(Run(c, s, acts), r) > Sends(s, r)) <==> Deliverable(s, r)
  {
    if Deliverable(s, r) {
      var acts := CanBeDelivered(c, s, r);
    } else {
      forall acts ensures Sends(Run(c, s, acts), r) == Sends(s, r) {
        NeverDelivered(c, s, acts, r);
      }
    }
  }

  // ----- overtaking -----

  /** Two events of one aggregate, x before y in database order. */
  predicate Earlier(rows: seq<Row>, x: nat, y: nat) {
    x < |rows| && y < |rows| && rows[x].aggregate == rows[y].aggregate && Before(rows, x, y)
  }

  /** An accepted send of y lets an earlier event x of its aggregate come after it in some run
      exactly when x waits in the table or in somebody's batch at that moment. */
  lemma OvertakenExactlyWhen(c: Config, s: State, w: nat, x: nat)
    requires ValidConfig(c) && Inv(c, s) && Enabled(c, s, Send(w, true))
    requires Earlier(s.rows, x, s.workers[w].queue[0].id) && x !in s.log
    ensures (exists acts :: x in Run(c, Apply(c, s, Send(w, true)), acts).log) <==> Deliverable(s, x)
  {
    var t := Apply(c, s, Send(w, true));
    StepKeeps(c, s, Send(w, true));
    SendChangesOneHead(c, s, w, x);
    DeliveredExactlyWhen(c, t, x);
    assert Sends(t, x) == 0;
    if acts :| x in Run(c, t, acts).log {
      assert Sends(Run(c, t, acts), x) > Sends(t, x);
    }
    if acts :| Sends(Run(c, t, acts), x) > Sends(t, x) {
      assert x in Run(c, t, acts).log;
    }
  }

  lemma SendChangesOneHead(c: Config, s: State, w: nat, x: nat)
    requires Enabled(c, s, Send(w, true)) && x != s.workers[w].queue[0].id
    ensures Deliverable(Apply(c, s, Send(w, true)), x) <==> Deliverable(s, x)
  {
    var t := Apply(c, s, Send(w, true));
    forall v | 0 <= v < |s.workers| ensures StillSends(t.workers[v], x) <==> StillSends(s.workers[v], x) {
      if v == w {
        assert forall i :: 0 < i < |s.workers[w].queue| ==> (Untried(t.workers[w], i) <==> Untried(s.workers[w], i));
      }
    }
  }

  // ----- runs that keep the order -----

  /** No event follows in the log a later one of its aggregate, or still can. */
  ghost predicate OrderSafe(s: State) {
    forall i, x: nat :: 0 <= i < |s.log| && Earlier(s.rows, x, s.log[i]) && x !in s.log[..i] ==>
      x !in s.log && !Deliverable(s, x)
  }

  /** No valid event is inserted behind a later one of its aggregate in the log, and none is accepted
      while an earlier one of its aggregate can still be. */
  ghost predicate Careful(c: Config, s: State, a: Action) {
    && (a.Insert? && a.wellFormed ==> forall y: nat :: y in s.log && y < |s.rows| ==> !CreatedBefore(a, s.rows[y]))
    && (a.Send? && a.accepted && Enabled(c, s, a) ==>
          forall x: nat :: Earlier(s.rows, x, s.workers[a.w].queue[0].id) && x !in s.log ==> !Deliverable(s, x))
  }

  predicate CreatedBefore(a: Action, y: Row)
    requires a.Insert?
  {
    a.aggregate == y.aggregate && a.createdAt < y.createdAt
  }

  lemma SameEvents(c: Config, s: State, a: Action)
    requires !a.Insert?
    ensures |Apply(c, s, a).rows| == |s.rows|
    ensures forall x: nat, y: nat :: Earlier(Apply(c, s, a).rows, x, y) <==> Earlier(s.rows, x, y)
  {
    var t := Apply(c, s, a);
    forall r | 0 <= r < |s.rows|
      ensures t.rows[r].aggregate == s.rows[r].aggregate && t.rows[r].createdAt == s.rows[r].createdAt
    {}
  }

  /** A new row can reach the broker exactly when it is valid. */
  lemma NewRowDeliverable(c: Config, s: State, a: Action)
    requires ValidConfig(c) && Inv(c, s) && a.Insert?
    ensures |Apply(c, s, a).rows| == |s.rows| + 1 && Apply(c, s, a).log == s.log && |s.rows| !in s.log
    ensures Deliverable(Apply(c, s, a), |s.rows|) <==> a.wellFormed
  {
    var t, x := Apply(c, s, a), |s.rows|;
    forall v | 0 <= v < |t.workers| ensures !StillSends(t.workers[v], x) {
      assert WorkerOk(c, s.rows, s.log, v, s.workers[v]);
      assert t.workers[v].Alive? ==>
          forall i :: 0 <= i < |t.workers[v].queue| ==> RecordOk(c, s.rows, v, t.workers[v].queue[i]);
    }
  }

  lemma InsertStaysSafe(c: Config, s: State, a: Action)
    requires ValidConfig(c) && Inv(c, s) && OrderSafe(s) && Careful(c, s, a) && a.Insert?
    ensures OrderSafe(Apply(c, s, a))
  {
    var t := Apply(c, s, a);
    NewRowDeliverable(c, s, a);
    forall i, x: nat | 0 <= i < |t.log| && Earlier(t.rows, x, t.log[i]) && x !in t.log[..i]
      ensures x !in t.log && !Deliverable(t, x)
    {
      assert t.log[i] in s.log;
      if x < |s.rows| {
        assert Earlier(s.rows, x, s.log[i]);
        StaysUndeliverable(c, s, a, x);
      } else {
        assert CreatedBefore(a, s.rows[t.log[i]]);
      }
    }
  }

  lemma StepStaysSafe(c: Config, s: State, a: Action)
    requires ValidConfig(c) && Inv(c, s) && OrderSafe(s) && Careful(c, s, a)
    ensures OrderSafe(Apply(c, s, a))
  {
    var t := Apply(c, s, a);
    if a.Insert? {
      InsertStaysSafe(c, s, a);
    } else {
      SameEvents(c, s, a);
      forall i, x: nat | 0 <= i < |t.log| && Earlier(t.rows, x, t.log[i]) && x !in t.log[..i]
        ensures x !in t.log && !Deliverable(t, x)
      {
        if i < |s.log| {
          assert t.log[..i] == s.log[..i] && Earlier(s.rows, x, s.log[i]);
        } else {
          assert t.log[..i] == s.log;
        }
        assert x !in s.log && !Deliverable(s, x);
        StaysUndeliverable(c, s, a, x);
        assert Sends(t, x) == 0;
      }
    }
  }

  /** An insert behind a later event in the log leaves the new event deliverable behind it. */
  lemma LateInsertIsUnsafe(c: Config, s: State, a: Action, y: nat)
    requires ValidConfig(c) && Inv(c, s) && a.Insert? && a.wellFormed
    requires y in s.log && y < |s.rows| && CreatedBefore(a, s.rows[y])
    ensures !OrderSafe(Apply(c, s, a))
  {
    var t, x := Apply(c, s, a), |s.rows|;
    NewRowDeliverable(c, s, a);
    var i :| 0 <= i < |s.log| && s.log[i] == y;
    assert Earlier(t.rows, x, t.log[i]) && x !in t.log[..i];
  }

  lemma HastySendIsUnsafe(c: Config, s: State, w: nat, x: nat)
    requires ValidConfig(c) && Inv(c, s) && Enabled(c, s, Send(w, true))
    requires Earlier(s.rows, x, s.workers[w].queue[0].id) && x !in s.log && Deliverable(s, x)
    ensures !OrderSafe(Apply(c, s, Send(w, true)))
  {
    var t := Apply(c, s, Send(w, true));
    SameEvents(c, s, Send(w, true));
    SendChangesOneHead(c, s, w, x);
    assert t.log[..|s.log|] == s.log && Earlier(t.rows, x, t.log[|s.log|]);
  }

  /** A step keeps the order safe exactly when it is careful. */
  lemma StepSafeExactlyWhen(c: Config, s: State, a: Action)
    requires ValidConfig(c) && Inv(c, s) && OrderSafe(s)
    ensures OrderSafe(Apply(c, s, a)) <==> Careful(c, s, a)
  {
    if Careful(c, s, a) {
      StepStaysSafe(c, s, a);
    } else if a.Insert? {
      var y: nat :| y in s.log && y < |s.rows| && CreatedBefore(a, s.rows[y]);
      LateInsertIsUnsafe(c, s, a, y);
    } else {
      var x: nat :| Earlier(s.rows, x, s.workers[a.w].queue[0].id) && x !in s.log && Deliverable(s, x);
      HastySendIsUnsafe(c, s, a.w, x);
    }
  }

  /** Every state of the run is safe. */
  ghost predicate SafeThroughout(c: Config, s: State, acts: seq<Action>)
    decreases acts
  {
    OrderSafe(s) && (acts != [] ==> SafeThroughout(c, Apply(c, s, acts[0]), acts[1..]))
  }

  ghost predicate CarefulThroughout(c: Config, s: State, acts: seq<Action>)
    decreases acts
  {
    acts != [] ==> Careful(c, s, acts[0]) && CarefulThroughout(c, Apply(c, s, acts[0]), acts[1..])
  }

  /** A run keeps the order throughout exactly when each of its steps is careful. */
  lemma {:induction false} OrderKeptExactlyWhen(c: Config, s: State, acts: seq<Action>)
    requires ValidConfig(c) && Inv(c, s) && OrderSafe(s)
    ensures SafeThroughout(c, s, acts) <==> CarefulThroughout(c, s, acts)
    decreases acts
  {
    if acts != [] {
      StepSafeExactlyWhen(c, s, acts[0]);
      StepKeeps(c, s, acts[0]);
      if Careful(c, s, acts[0]) { OrderKeptExactlyWhen(c, Apply(c, s, acts[0]), acts[1..]); }
    }
  }

  /** A run from the empty table whose steps are careful puts the events of every aggregate into
      the log in database order. */
  lemma OrderKept(c: Config, acts: seq<Action>, i: nat, j: nat)
    requires ValidConfig(c) && CarefulThroughout(c, EMPTY, acts) && i < j < |Reached(c, acts).log|
    ensures var s := Reached(c, acts); Earlier(s.rows, s.log[j], s.log[i]) ==> s.log[j] in s.log[..i]
  {
    OrderKeptExactlyWhen(c, EMPTY, acts);
    SafeAtEnd(c, EMPTY, acts);
    var s := Reached(c, acts);
    assert s.log[j] in s.log;
  }

  lemma {:induction false} SafeAtEnd(c: Config, s: State, acts: seq<Action>)
    requires SafeThroughout(c, s, acts)
    ensures OrderSafe(Run(c, s, acts))
    decreases acts
  {
    if acts != [] { SafeAtEnd(c, Apply(c, s, acts[0]), acts[1..]); }
  }
}
