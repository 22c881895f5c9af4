/** The delivery guarantees of the outbox, over every run from the empty table. */
module OutboxTheorems {
  import opened Options
  import opened OutboxModel
  import opened OutboxSafety

  ghost function Reached(c: Config, acts: seq<Action>): State {
    Run(c, EMPTY, acts)
  }

  lemma ReachedInv(c: Config, acts: seq<Action>)
    requires ValidConfig(c)
    ensures Inv(c, Reached(c, acts))
  {
    RunKeeps(c, EMPTY, acts);
  }

  // ----- how often a row is delivered -----

  /** The broker accepts a row at most once more than its lease was recovered; a published row
      was accepted, and a failed row only on account of a recovery. */
  lemma DeliveriesBounded(c: Config, acts: seq<Action>, r: nat)
    requires ValidConfig(c) && r < |Reached(c, acts).rows|
    ensures |Reached(c, acts).recoveries| == |Reached(c, acts).rows|
    ensures Sends(Reached(c, acts), r) <= 1 + Reached(c, acts).recoveries[r]
    ensures Reached(c, acts).rows[r].status.Published? ==> Sends(Reached(c, acts), r) >= 1
    ensures Reached(c, acts).rows[r].status.Failed? ==> Sends(Reached(c, acts), r) <= Reached(c, acts).recoveries[r]
  {
    ReachedInv(c, acts);
    assert SendsPaidFor(Reached(c, acts), r);
  }

  /** One publisher after the other delivers the row and loses the reply of its mark. */
  ghost function LostReply(c: Config, w: nat): seq<Action> {
    [Start, Claim(w, [0]), Send(w, true), Mark(w, 0, false), Tick(c.lease + 1)]
  }

  ghost function LostReplies(c: Config, n: nat): seq<Action> {
    if n == 0 then [Insert(0, 0, 0, true)] else LostReplies(c, n - 1) + LostReply(c, n - 1)
  }

  lemma RunFive(c: Config, s: State, a0: Action, a1: Action, a2: Action, a3: Action, a4: Action)
    ensures Run(c, s, [a0, a1, a2, a3, a4])
         == Apply(c, Apply(c, Apply(c, Apply(c, Apply(c, s, a0), a1), a2), a3), a4)
  {
    var s1 := Apply(c, s, a0);
    var s2 := Apply(c, s1, a1);
    var s3 := Apply(c, s2, a2);
    var s4 := Apply(c, s3, a3);
    assert [a4][1..] == [];
    assert Run(c, s4, [a4]) == Apply(c, s4, a4);
    assert [a3, a4][1..] == [a4];
    assert Run(c, s3, [a3, a4]) == Run(c, s4, [a4]);
    assert [a2, a3, a4][1..] == [a3, a4];
    assert Run(c, s2, [a2, a3, a4]) == Run(c, s3, [a3, a4]);
    assert [a1, a2, a3, a4][1..] == [a2, a3, a4];
    assert Run(c, s1, [a1, a2, a3, a4]) == Run(c, s2, [a2, a3, a4]);
    assert [a0, a1, a2, a3, a4][1..] == [a1, a2, a3, a4];
  }

  /** One row, delivered n times by n publishers none of which could mark it, and free again. */
  ghost predicate Lost(c: Config, s: State, n: nat) {
    && |s.rows| == 1 && |s.recoveries| == 1 && |s.workers| == n
    && s.rows[0].wellFormed
    && Eligible(s.rows[0], c.maxAttempts, s.now)
    && s.rows[0].leaseUntil.Some? == (n > 0)
    && s.recoveries[0] == (if n == 0 then 0 else n - 1)
    && Sends(s, 0) == n
  }

  lemma LostOnceMore(c: Config, s: State, w: nat)
    requires ValidConfig(c) && Lost(c, s, w)
    ensures Lost(c, Run(c, s, LostReply(c, w)), w + 1)
  {
    RunFive(c, s, Start, Claim(w, [0]), Send(w, true), Mark(w, 0, false), Tick(c.lease + 1));
    var s1 := Apply(c, s, Start);
    assert Enabled(c, s1, Claim(w, [0]));
    var s2 := Apply(c, s1, Claim(w, [0]));
    assert s2.rows == [ClaimedRow(s.rows[0], w, s.now, c.lease)];
    assert s2.workers[w] == Alive(RecordsOf(s1.rows, [0], w), Unsent);
    assert Enabled(c, s2, Send(w, true));
    var s3 := Apply(c, s2, Send(w, true));
    assert s3.log == s.log + [0];
    assert Enabled(c, s3, Mark(w, 0, false));
    var s4 := Apply(c, s3, Mark(w, 0, false));
    assert s4.rows == s2.rows && s4.log == s3.log;
  }

  /** The bound of `DeliveriesBounded` is reached: for every n, n deliveries with n - 1
      recoveries. */
  lemma {:induction false} DeliveriesBoundTight(c: Config, n: nat)
    requires ValidConfig(c)
    ensures Lost(c, Reached(c, LostReplies(c, n)), n)
  {
    if n == 0 {
      assert [Insert(0, 0, 0, true)][1..] == [];
      assert Reached(c, LostReplies(c, 0)) == Apply(c, EMPTY, Insert(0, 0, 0, true));
    } else {
      DeliveriesBoundTight(c, n - 1);
      RunConcat(c, EMPTY, LostReplies(c, n - 1), LostReply(c, n - 1));
      LostOnceMore(c, Reached(c, LostReplies(c, n - 1)), n - 1);
    }
  }

  // ----- attempts and ownership -----

  /** An unfinished row has attempts left, a row that failed although its payload is valid has
      used all of them, and lock, lock time and lease stand and fall together. */
  lemma AttemptsAccounted(c: Config, acts: seq<Action>, r: nat)
    requires ValidConfig(c) && r < |Reached(c, acts).rows|
    ensures var row := Reached(c, acts).rows[r];
            && (row.status.Pending? || row.status.Processing? ==> row.attempts < c.maxAttempts)
            && (row.status.Failed? && row.wellFormed ==> row.attempts == c.maxAttempts)
            && (row.status.Processing? <==> row.lockedBy.Some?)
            && (row.lockedBy.Some? <==> row.leaseUntil.Some?) && (row.lockedBy.Some? <==> row.lockedAt.Some?)
            && (row.status.Published? <==> row.publishedAt.Some?) && (row.status.Failed? <==> row.failedAt.Some?)
  {
    ReachedInv(c, acts);
    assert RowOk(c, Reached(c, acts).rows[r]);
  }

  /** As long as a publisher owns a row of its batch, its snapshot of the attempt count is the
      stored one, so the retry-or-terminal decision it takes is the right one. */
  lemma SnapshotIsCurrent(c: Config, acts: seq<Action>, w: nat, i: nat)
    requires ValidConfig(c)
    requires var s := Reached(c, acts);
             w < |s.workers| && s.workers[w].Alive? && i < |s.workers[w].queue|
    ensures var s := Reached(c, acts);
            var record := s.workers[w].queue[i];
            && record.id < |s.rows|
            && (s.rows[record.id].lockedBy == Some(w) ==> record.row.attempts == s.rows[record.id].attempts)
  {
    ReachedInv(c, acts);
    var s := Reached(c, acts);
    assert WorkerOk(c, s.rows, s.log, w, s.workers[w]);
    assert RecordOk(c, s.rows, w, s.workers[w].queue[i]);
  }

  // ----- leases exclude -----

  lemma {:induction false} ClockNeverGoesBack(c: Config, s: State, acts: seq<Action>)
    ensures s.now <= Run(c, s, acts).now
    decreases acts
  {
    if acts != [] {
      ClockNeverGoesBack(c, Apply(c, s, acts[0]), acts[1..]);
    }
  }

  /** While a lease runs, nothing but a mark by the lease holder changes the row: whatever all
      other publishers do, and even if the holder crashes. */
  lemma {:induction false} LeaseExcludesOthers(c: Config, s: State, acts: seq<Action>, r: nat, w: nat)
    requires r < |s.rows| && s.rows[r].lockedBy == Some(w) && s.rows[r].leaseUntil.Some?
    requires Run(c, s, acts).now <= s.rows[r].leaseUntil.value
    requires forall i :: 0 <= i < |acts| ==> !(acts[i].Mark? && acts[i].w == w)
    ensures r < |Run(c, s, acts).rows| && Run(c, s, acts).rows[r] == s.rows[r]
    decreases acts
  {
    if acts != [] {
      var t := Apply(c, s, acts[0]);
      ClockNeverGoesBack(c, t, acts[1..]);
      assert !Eligible(s.rows[r], c.maxAttempts, s.now);
      assert t.rows[r] == s.rows[r];
      LeaseExcludesOthers(c, t, acts[1..], r, w);
    }
  }

  // ----- nothing is lost -----

  /** A published or failed row never changes again. */
  lemma {:induction false} FinishedForever(c: Config, s: State, acts: seq<Action>, r: nat)
    requires ValidConfig(c) && Inv(c, s)
    requires r < |s.rows| && (s.rows[r].status.Published? || s.rows[r].status.Failed?)
    ensures r < |Run(c, s, acts).rows| && Run(c, s, acts).rows[r] == s.rows[r]
    decreases acts
  {
    if acts != [] {
      var t := Apply(c, s, acts[0]);
      StepKeeps(c, s, acts[0]);
      assert RowOk(c, s.rows[r]) && !Eligible(s.rows[r], c.maxAttempts, s.now);
      assert t.rows[r] == s.rows[r];
      FinishedForever(c, t, acts[1..], r);
    }
  }

  /** Every unfinished row satisfies the claim predicate from some moment on, unless somebody
      touches it first. */
  lemma ClaimableAgain(c: Config, s: State, r: nat) returns (wait: nat)
    requires ValidConfig(c) && Inv(c, s)
    requires r < |s.rows| && (s.rows[r].status.Pending? || s.rows[r].status.Processing?)
    ensures forall t :: t >= s.now + wait ==> Eligible(s.rows[r], c.maxAttempts, t)
  {
    var row := s.rows[r];
    assert RowOk(c, row);
    var due := if row.leaseUntil.Some? && row.leaseUntil.value >= row.availableAt
               then row.leaseUntil.value + 1 else row.availableAt;
    wait := if due > s.now then due - s.now else 0;
  }

  /** From every state a run can be in, whatever crashed and whoever holds the leases, each
      unfinished row with a valid payload can still be delivered and marked published. */
  lemma CanStillPublish(c: Config, s: State, r: nat) returns (acts: seq<Action>)
    requires ValidConfig(c) && Inv(c, s)
    requires r < |s.rows| && s.rows[r].wellFormed && (s.rows[r].status.Pending? || s.rows[r].status.Processing?)
    ensures r < |Run(c, s, acts).rows| && Run(c, s, acts).rows[r].status.Published?
    ensures Sends(Run(c, s, acts), r) == Sends(s, r) + 1
  {
    var wait := ClaimableAgain(c, s, r);
    var w := |s.workers|;
    acts := [Tick(wait), Start, Claim(w, [r]), Send(w, true), Mark(w, 0, true)];
    RunFive(c, s, Tick(wait), Start, Claim(w, [r]), Send(w, true), Mark(w, 0, true));
    var s2 := Apply(c, Apply(c, s, Tick(wait)), Start);
    assert Enabled(c, s2, Claim(w, [r]));
    var s3 := Apply(c, s2, Claim(w, [r]));
    assert s3.workers[w] == Alive(RecordsOf(s2.rows, [r], w), Unsent);
    assert Enabled(c, s3, Send(w, true));
    var s4 := Apply(c, s3, Send(w, true));
    assert s4.log == s.log + [r];
    assert Enabled(c, s4, Mark(w, 0, true)) && Owned(s4.rows[r], w);
  }
}
