/** What every run of the outbox keeps, and what a delivery guarantee follows from it. */
module OutboxSafety {
  import opened Options
  import opened OutboxModel

  // ----- the inductive invariant -----

  ghost predicate RowOk(c: Config, row: Row) {
    && (row.status.Processing? <==> row.lockedBy.Some?)
    && (row.status.Processing? <==> row.lockedAt.Some?)
    && (row.status.Processing? <==> row.leaseUntil.Some?)
    && (row.status.Published? <==> row.publishedAt.Some?)
    && (row.status.Failed? <==> row.failedAt.Some?)
    && (row.status.Pending? || row.status.Processing? ==> row.attempts < c.maxAttempts)
    && (row.status.Failed? ==> row.attempts <= c.maxAttempts)
    && (row.status.Failed? && row.wellFormed ==> row.attempts == c.maxAttempts)
  }

  /** Every row is consistent, a lock names a publisher that exists, and a published row is in
      the broker's log. */
  ghost predicate RowsOk(c: Config, s: State) {
    forall r :: 0 <= r < |s.rows| ==>
      && RowOk(c, s.rows[r])
      && (s.rows[r].lockedBy.Some? ==> s.rows[r].lockedBy.value < |s.workers|)
      && (s.rows[r].status.Published? ==> r in s.log)
  }

  /** A record a publisher holds is a true snapshot of what never changes in the row and, as
      long as the publisher still owns the row, of the attempt count as well. */
  ghost predicate RecordOk(c: Config, rows: seq<Row>, w: nat, record: Record) {
    && record.id < |rows|
    && record.row.attempts < c.maxAttempts
    && record.row.wellFormed == rows[record.id].wellFormed
    && (rows[record.id].lockedBy == Some(w) ==> record.row.attempts == rows[record.id].attempts)
  }

  ghost predicate WorkerOk(c: Config, rows: seq<Row>, log: seq<nat>, w: nat, worker: Worker) {
    worker.Alive? ==>
      && (forall i :: 0 <= i < |worker.queue| ==> RecordOk(c, rows, w, worker.queue[i]))
      && (forall i, j :: 0 <= i < j < |worker.queue| ==> worker.queue[i].id != worker.queue[j].id)
      && (worker.queue == [] ==> worker.phase.Unsent?)
      && (worker.phase.Delivered? ==> worker.queue != [] && worker.queue[0].id in log)
      && (worker.phase.Errored? ==> worker.queue != [] && worker.queue[0].row.wellFormed)
  }

  ghost predicate WorkersOk(c: Config, s: State) {
    forall w :: 0 <= w < |s.workers| ==> WorkerOk(c, s.rows, s.log, w, s.workers[w])
  }

  /** A publisher that holds row r and has not delivered it may still do so once. */
  ghost predicate MayDeliver(worker: Worker, r: nat) {
    worker.Alive? && exists i ::
        0 <= i < |worker.queue| && worker.queue[i].id == r && (i == 0 ==> !worker.phase.Delivered?)
  }

  ghost function Owed(workers: seq<Worker>, r: nat): nat {
    if workers == [] then 0 else (if MayDeliver(workers[0], r) then 1 else 0) + Owed(workers[1..], r)
  }

  ghost function Sends(s: State, r: nat): nat { multiset(s.log)[r] }

  /** Deliveries made, deliveries publishers may still make, and the one that a pending row will
      cause or that a failed row never had, are paid for by the first claim and by the
      recoveries of expired leases. */
  ghost predicate SendsPaidFor(s: State, r: nat)
    requires r < |s.rows| && |s.recoveries| == |s.rows|
  {
    Sends(s, r) + Owed(s.workers, r) + (if s.rows[r].status.Pending? || s.rows[r].status.Failed? then 1 else 0)
    <= 1 + s.recoveries[r]
  }

  ghost predicate DeliveryOk(s: State) {
    && |s.recoveries| == |s.rows|
    && (forall r :: 0 <= r < |s.rows| ==> SendsPaidFor(s, r))
    && (forall r :: r in s.log ==> r < |s.rows|)
  }

  ghost predicate Inv(c: Config, s: State) {
    RowsOk(c, s) && WorkersOk(c, s) && DeliveryOk(s)
  }

  // ----- counting -----

  lemma {:induction false} OwedUpdate(workers: seq<Worker>, w: nat, x: Worker, r: nat)
    requires w < |workers|
    ensures Owed(workers[w := x], r) + (if MayDeliver(workers[w], r) then 1 else 0)
         == Owed(workers, r) + (if MayDeliver(x, r) then 1 else 0)
  {
    var updated := workers[w := x];
    if w == 0 {
      assert updated[1..] == workers[1..];
    } else {
      assert updated[1..] == workers[1..][w - 1 := x];
      OwedUpdate(workers[1..], w - 1, x, r);
    }
  }

  lemma {:induction false} OwedAppend(workers: seq<Worker>, x: Worker, r: nat)
    ensures Owed(workers + [x], r) == Owed(workers, r) + (if MayDeliver(x, r) then 1 else 0)
  {
    if workers == [] {
      assert workers + [x] == [x];
      assert [x][1..] == [];
    } else {
      assert (workers + [x])[1..] == workers[1..] + [x];
      OwedAppend(workers[1..], x, r);
    }
  }

  lemma {:induction false} NobodyOwes(c: Config, s: State, workers: seq<Worker>, r: nat)
    requires WorkersOk(c, s) && r >= |s.rows|
    requires forall x <- workers :: x in s.workers
    ensures Owed(workers, r) == 0
  {
    if workers != [] {
      assert workers[0] in workers;
      var w :| 0 <= w < |s.workers| && s.workers[w] == workers[0];
      assert WorkerOk(c, s.rows, s.log, w, s.workers[w]);
      assert !MayDeliver(workers[0], r);
      NobodyOwes(c, s, workers[1..], r);
    }
  }

  // ----- every step keeps the invariant -----

  lemma InsertKeeps(c: Config, s: State, a: Action)
    requires ValidConfig(c) && Inv(c, s) && a.Insert?
    ensures Inv(c, Apply(c, s, a))
  {
    var t := Apply(c, s, a);
    assert forall r :: 0 <= r < |s.rows| ==> t.rows[r] == s.rows[r];
    forall w | 0 <= w < |t.workers| ensures WorkerOk(c, t.rows, t.log, w, t.workers[w]) {
      assert WorkerOk(c, s.rows, s.log, w, s.workers[w]);
    }
    var added := |s.rows|;
    NobodyOwes(c, s, s.workers, added);
    assert added !in s.log;
    forall r | 0 <= r < |t.rows| ensures SendsPaidFor(t, r) {
      if r < added { assert SendsPaidFor(s, r); }
    }
  }

  lemma StartKeeps(c: Config, s: State)
    requires ValidConfig(c) && Inv(c, s)
    ensures Inv(c, Apply(c, s, Start))
  {
    var t := Apply(c, s, Start);
    forall w | 0 <= w < |t.workers| ensures WorkerOk(c, t.rows, t.log, w, t.workers[w]) {
      if w < |s.workers| { assert WorkerOk(c, s.rows, s.log, w, s.workers[w]); }
    }
    forall r | 0 <= r < |t.rows| ensures SendsPaidFor(t, r) {
      assert SendsPaidFor(s, r);
      OwedAppend(s.workers, Alive([], Unsent), r);
    }
  }

  lemma CrashKeeps(c: Config, s: State, w: nat)
    requires ValidConfig(c) && Inv(c, s) && Enabled(c, s, Crash(w))
    ensures Inv(c, Apply(c, s, Crash(w)))
  {
    var t := Apply(c, s, Crash(w));
    forall v | 0 <= v < |t.workers| ensures WorkerOk(c, t.rows, t.log, v, t.workers[v]) {
      assert WorkerOk(c, s.rows, s.log, v, s.workers[v]);
    }
    forall r | 0 <= r < |t.rows| ensures SendsPaidFor(t, r) {
      assert SendsPaidFor(s, r);
      OwedUpdate(s.workers, w, Dead, r);
    }
  }

  lemma ClaimKeeps(c: Config, s: State, a: Action)
    requires ValidConfig(c) && Inv(c, s) && a.Claim? && Enabled(c, s, a)
    ensures Inv(c, Apply(c, s, a))
  {
    var t := Apply(c, s, a);
    var claimed := Alive(RecordsOf(s.rows, a.ids, a.w), Unsent);
    forall w | 0 <= w < |t.workers| ensures WorkerOk(c, t.rows, t.log, w, t.workers[w]) {
      assert WorkerOk(c, s.rows, s.log, w, s.workers[w]);
      if w != a.w && t.workers[w].Alive? {
        forall i | 0 <= i < |t.workers[w].queue|
          ensures RecordOk(c, t.rows, w, t.workers[w].queue[i])
        {
          assert RecordOk(c, s.rows, w, s.workers[w].queue[i]);
        }
      } else if w == a.w {
        forall i | 0 <= i < |claimed.queue|
          ensures RecordOk(c, t.rows, w, claimed.queue[i])
        {
          assert a.ids[i] in a.ids && Eligible(s.rows[a.ids[i]], c.maxAttempts, s.now);
        }
      }
    }
    assert RowsOk(c, t);
    forall r | 0 <= r < |t.rows| ensures SendsPaidFor(t, r) {
      assert SendsPaidFor(s, r);
      OwedUpdate(s.workers, a.w, claimed, r);
      if r in a.ids {
        assert Eligible(s.rows[r], c.maxAttempts, s.now);
      } else {
        assert !MayDeliver(claimed, r);
      }
    }
  }

  lemma SendKeeps(c: Config, s: State, a: Action)
    requires ValidConfig(c) && Inv(c, s) && a.Send? && Enabled(c, s, a)
    ensures Inv(c, Apply(c, s, a))
  {
    var t := Apply(c, s, a);
    assert WorkerOk(c, s.rows, s.log, a.w, s.workers[a.w]);
    var head := s.workers[a.w].queue[0].id;
    forall w | 0 <= w < |t.workers| ensures WorkerOk(c, t.rows, t.log, w, t.workers[w]) {
      assert WorkerOk(c, s.rows, s.log, w, s.workers[w]);
    }
    forall r | 0 <= r < |t.rows| ensures SendsPaidFor(t, r) {
      assert SendsPaidFor(s, r);
      OwedUpdate(s.workers, a.w, t.workers[a.w], r);
      if r == head {
        assert MayDeliver(s.workers[a.w], r);
      } else {
        assert MayDeliver(t.workers[a.w], r) ==> MayDeliver(s.workers[a.w], r);
      }
    }
  }

  lemma MarkKeeps(c: Config, s: State, a: Action)
    requires ValidConfig(c) && Inv(c, s) && a.Mark? && Enabled(c, s, a)
    ensures Inv(c, Apply(c, s, a))
  {
    var t := Apply(c, s, a);
    var holder := s.workers[a.w];
    var popped := Alive(holder.queue[1..], Unsent);
    var head := holder.queue[0].id;
    assert WorkerOk(c, s.rows, s.log, a.w, holder);
    assert RecordOk(c, s.rows, a.w, holder.queue[0]);
    assert RowOk(c, s.rows[head]);
    forall w | 0 <= w < |t.workers| ensures WorkerOk(c, t.rows, t.log, w, t.workers[w]) {
      assert WorkerOk(c, s.rows, s.log, w, s.workers[w]);
      if t.workers[w].Alive? {
        forall i | 0 <= i < |t.workers[w].queue| ensures RecordOk(c, t.rows, w, t.workers[w].queue[i]) {
          assert RecordOk(c, s.rows, w, s.workers[w].queue[if w == a.w then i + 1 else i]);
        }
      }
    }
    forall r | 0 <= r < |t.rows| ensures SendsPaidFor(t, r) {
      assert SendsPaidFor(s, r);
      OwedUpdate(s.workers, a.w, popped, r);
      PoppedOwes(holder, popped, r);
    }
  }

  /** Finishing the head record leaves the publisher owing what the rest of its batch owes. */
  lemma PoppedOwes(worker: Worker, popped: Worker, r: nat)
    requires worker.Alive? && worker.queue != []
    requires popped == Alive(worker.queue[1..], Unsent)
    requires forall i, j :: 0 <= i < j < |worker.queue| ==> worker.queue[i].id != worker.queue[j].id
    ensures MayDeliver(popped, r) ==> MayDeliver(worker, r) && r != worker.queue[0].id
    ensures r == worker.queue[0].id && !worker.phase.Delivered? ==> MayDeliver(worker, r)
  {}

  lemma StepKeeps(c: Config, s: State, a: Action)
    requires ValidConfig(c) && Inv(c, s)
    ensures Inv(c, Apply(c, s, a))
  {
    if Enabled(c, s, a) {
      match a
      case Insert(_, _, _, _) => InsertKeeps(c, s, a);
      case Tick(_) =>
        var t := Apply(c, s, a);
        forall r | 0 <= r < |t.rows| ensures SendsPaidFor(t, r) { assert SendsPaidFor(s, r); }
      case Start => StartKeeps(c, s);
      case Crash(w) => CrashKeeps(c, s, w);
      case Claim(_, _) => ClaimKeeps(c, s, a);
      case Send(_, _) => SendKeeps(c, s, a);
      case Mark(_, _, _) => MarkKeeps(c, s, a);
    }
  }

  lemma {:induction false} RunKeeps(c: Config, s: State, acts: seq<Action>)
    requires ValidConfig(c) && Inv(c, s)
    ensures Inv(c, Run(c, s, acts))
    decreases acts
  {
    if acts != [] {
      StepKeeps(c, s, acts[0]);
      RunKeeps(c, Apply(c, s, acts[0]), acts[1..]);
    }
  }
}
