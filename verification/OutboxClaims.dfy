/** What a claim and a mark write, column by column, and how long it lasts. */
module OutboxClaims {
  import opened Options
  import opened Selection
  import opened Sequences
  import opened OutboxModel
  import opened OutboxSafety
  import opened OutboxTheorems
  import opened OutboxPublisher

  /** The columns that no statement ever writes. */
  predicate SameEvent(o: Row, p: Row) {
    p.aggregate == o.aggregate && p.createdAt == o.createdAt && p.wellFormed == o.wellFormed
  }

  // ----- what a claim takes and writes -----

  /** A claim that does not fill its batch takes every free row that is due, and any claim takes the
      oldest of them first. */
  lemma ClaimTakes(rows: seq<Row>, maxAttempts: nat, now: int, skip: set<nat>, limit: nat, ids: seq<nat>, r: nat)
    requires Selected(Claimable(rows, maxAttempts, now, skip), CreatedAt(rows), limit, ids) && r < |rows|
    ensures r in ids ==>
              && r !in skip && rows[r].publishedAt.None? && (rows[r].status.Pending? || rows[r].status.Processing?)
              && rows[r].availableAt <= now && rows[r].attempts < maxAttempts
              && (rows[r].leaseUntil.Some? ==> rows[r].leaseUntil.value < now)
    ensures && r !in ids && r !in skip && rows[r].publishedAt.None?
            && (rows[r].status.Pending? || rows[r].status.Processing?)
            && rows[r].availableAt <= now && rows[r].attempts < maxAttempts
            && (rows[r].leaseUntil.Some? ==> rows[r].leaseUntil.value < now) ==>
              && |ids| == limit
              && forall q <- ids :: q < |rows| && (rows[q].createdAt < rows[r].createdAt
                                                   || (rows[q].createdAt == rows[r].createdAt && q < r))
  {
    if r in ids {
      var i :| 0 <= i < |ids| && ids[i] == r;
      assert Claimable(rows, maxAttempts, now, skip)(ids[i]);
    } else if Claimable(rows, maxAttempts, now, skip)(r) {
      forall q | q in ids ensures q < |rows| && Precedes(CreatedAt(rows), q, r) {
        var i :| 0 <= i < |ids| && ids[i] == q;
        assert Claimable(rows, maxAttempts, now, skip)(ids[i]);
      }
    }
  }

  /** A claimed row was free and due; it is locked by the publisher from now until the lease is
      over.  Nothing else about it changes, and no other row does. */
  lemma ClaimWrites(c: Config, s: State, w: nat, ids: seq<nat>, r: nat)
    requires Enabled(c, s, Claim(w, ids)) && r < |s.rows|
    ensures var o, t := s.rows[r], Apply(c, s, Claim(w, ids));
            && |t.rows| == |t.recoveries| == |s.rows| && t.now == s.now && t.log == s.log
            && (r in ids ==>
                  && o.publishedAt.None? && (o.status.Pending? || o.status.Processing?)
                  && o.availableAt <= s.now && o.attempts < c.maxAttempts
                  && (o.leaseUntil.Some? ==> o.leaseUntil.value < s.now)
                  && t.rows[r].status.Processing? && t.rows[r].lockedBy == Some(w)
                  && t.rows[r].lockedAt == Some(s.now) && t.rows[r].leaseUntil == Some(s.now + c.lease)
                  && SameEvent(o, t.rows[r]) && t.rows[r].attempts == o.attempts
                  && t.rows[r].availableAt == o.availableAt
                  && t.rows[r].publishedAt == o.publishedAt && t.rows[r].failedAt == o.failedAt)
            && (r !in ids ==> t.rows[r] == o)
            && t.recoveries[r] == s.recoveries[r] + if r in ids && o.leaseUntil.Some? then 1 else 0
  {
    if r in ids {
      var i :| 0 <= i < |ids| && ids[i] == r;
      assert Eligible(s.rows[ids[i]], c.maxAttempts, s.now);
    }
  }

  /** The publisher holds the claimed rows in the order of the claim, as they were but for the lock. */
  lemma ClaimHands(c: Config, s: State, w: nat, ids: seq<nat>, i: nat)
    requires Enabled(c, s, Claim(w, ids)) && i < |ids|
    ensures var worker := Apply(c, s, Claim(w, ids)).workers[w];
            && worker.Alive? && worker.phase.Unsent? && |worker.queue| == |ids|
            && worker.queue[i].id == ids[i] < |s.rows|
            && SameEvent(s.rows[ids[i]], worker.queue[i].row)
            && worker.queue[i].row.attempts == s.rows[ids[i]].attempts
  {}

  function Leased(rows: seq<Row>, ids: seq<nat>): set<nat> {
    set r | r in ids && r < |rows| && rows[r].leaseUntil.Some?
  }

  lemma OneMoreLeased(rows: seq<Row>, ids: seq<nat>, r: nat)
    requires r < |rows| && r !in ids
    ensures |Leased(rows, ids + [r])| == |Leased(rows, ids)| + if rows[r].leaseUntil.Some? then 1 else 0
  {
    assert Leased(rows, ids + [r]) == Leased(rows, ids) + if rows[r].leaseUntil.Some? then {r} else {};
  }

  /** The recovered count is that of the claimed rows with a lease, which then has run out. */
  lemma {:induction false} RecoveredAreLeased(rows: seq<Row>, ids: seq<nat>)
    requires NoDuplicates(ids) && forall i :: 0 <= i < |ids| ==> ids[i] < |rows|
    ensures CountRecovered(rows, ids) == |Leased(rows, ids)|
  {
    if ids != [] {
      var n := |ids| - 1;
      RecoveredAreLeased(rows, ids[..n]);
      OneMoreLeased(rows, ids[..n], ids[n]);
      AllButLast(ids);
    }
  }

  // ----- how long a claim lasts -----

  /** From a claim until the lease is over, in every run without a mark by the publisher, the claimed
      row stays as it is and nobody can claim it. */
  lemma ClaimExcludes(c: Config, s: State, w: nat, ids: seq<nat>, acts: seq<Action>, r: nat)
    requires Enabled(c, s, Claim(w, ids)) && r in ids
    requires Run(c, Apply(c, s, Claim(w, ids)), acts).now <= s.now + c.lease
    requires forall i :: 0 <= i < |acts| ==> !(acts[i].Mark? && acts[i].w == w)
    ensures var t := Apply(c, s, Claim(w, ids));
            var u := Run(c, t, acts);
            && r < |t.rows| <= |u.rows| && u.rows[r] == t.rows[r]
            && forall v, more :: r in more ==> !Enabled(c, u, Claim(v, more))
  {
    var t := Apply(c, s, Claim(w, ids));
    ClaimWrites(c, s, w, ids, r);
    LeaseExcludesOthers(c, t, acts, r, w);
    RowsStay(c, t, acts);
    var u := Run(c, t, acts);
    forall v, more | r in more ensures !Enabled(c, u, Claim(v, more)) {
      if Enabled(c, u, Claim(v, more)) { ClaimWrites(c, u, v, more, r); }
    }
  }

  lemma {:induction false} RowsStay(c: Config, s: State, acts: seq<Action>)
    ensures |s.rows| <= |Run(c, s, acts).rows|
    decreases acts
  {
    if acts != [] { RowsStay(c, Apply(c, s, acts[0]), acts[1..]); }
  }

  /** A row that is still as it was claimed can be claimed again exactly when the lease is over. */
  lemma ClaimLasts(c: Config, s: State, w: nat, ids: seq<nat>, u: State, v: nat, r: nat)
    requires ValidConfig(c) && Enabled(c, s, Claim(w, ids)) && r in ids && s.now <= u.now
    requires r < |u.rows| == |u.recoveries| && u.rows[r] == Apply(c, s, Claim(w, ids)).rows[r]
    requires v < |u.workers| && u.workers[v] == Alive([], Unsent)
    ensures Enabled(c, u, Claim(v, [r])) <==> u.now > s.now + c.lease
  {
    ClaimWrites(c, s, w, ids, r);
    if Enabled(c, u, Claim(v, [r])) { ClaimWrites(c, u, v, [r], r); }
  }

  // ----- what a send and a mark write -----

  /** Only a valid record at the head of the batch is sent, and once; the broker's log gets it
      exactly when it is accepted, and the table does not change. */
  lemma SendWrites(c: Config, s: State, w: nat, accepted: bool)
    requires Enabled(c, s, Send(w, accepted))
    ensures && w < |s.workers| && s.workers[w].Alive? && s.workers[w].queue != []
            && s.workers[w].queue[0].row.wellFormed && s.workers[w].phase.Unsent?
    ensures var t := Apply(c, s, Send(w, accepted));
            && t.rows == s.rows && t.log == s.log + (if accepted then [s.workers[w].queue[0].id] else [])
            && t.workers == s.workers[w := Alive(s.workers[w].queue, if accepted then Delivered else Errored)]
            && forall again :: !Enabled(c, t, Send(w, again))
  {}

  /** What a mark that reaches a row still locked by its publisher writes. */
  predicate Marked(c: Config, o: Row, p: Row, record: Row, delivered: bool, now: int, next: int) {
    && SameEvent(o, p) && p.lockedBy.None? && p.lockedAt.None? && p.leaseUntil.None?
    && if delivered then
         p.status.Published? && p.publishedAt == Some(now) && p.attempts == o.attempts
         && p.availableAt == o.availableAt && p.failedAt == o.failedAt
       else if record.wellFormed && record.attempts + 1 < c.maxAttempts then
         p.status.Pending? && p.availableAt == next && p.attempts == o.attempts + 1
         && p.publishedAt.None? && p.failedAt == o.failedAt
       else
         p.status.Failed? && p.failedAt == Some(now) && p.attempts == o.attempts + 1
         && p.publishedAt.None? && p.availableAt == o.availableAt
  }

  /** A mark writes one row, and that only if the row is unpublished and locked by the publisher. */
  lemma MarkWrites(c: Config, s: State, w: nat, next: int, reached: bool, r: nat)
    requires Enabled(c, s, Mark(w, next, reached)) && r < |s.rows|
    ensures var head, t := s.workers[w].queue[0], Apply(c, s, Mark(w, next, reached));
            && |t.rows| == |s.rows| && t.log == s.log && t.now == s.now && t.recoveries == s.recoveries
            && t.workers == s.workers[w := Alive(s.workers[w].queue[1..], Unsent)]
            && if reached && r == head.id && s.rows[r].publishedAt.None? && s.rows[r].lockedBy == Some(w) then
                 Marked(c, s.rows[r], t.rows[r], head.row, s.workers[w].phase.Delivered?, s.now, next)
               else t.rows[r] == s.rows[r]
  {}

  // ----- a retried row waits -----

  /** A row without a lock that is not available yet is left alone. */
  lemma {:induction false} UnavailableStays(c: Config, s: State, acts: seq<Action>, r: nat)
    requires r < |s.rows| && s.rows[r].lockedBy.None? && Run(c, s, acts).now < s.rows[r].availableAt
    ensures r < |Run(c, s, acts).rows| && Run(c, s, acts).rows[r] == s.rows[r]
    decreases acts
  {
    if acts != [] {
      var t := Apply(c, s, acts[0]);
      ClockNeverGoesBack(c, s, acts);
      ClockNeverGoesBack(c, t, acts[1..]);
      assert t.rows[r] == s.rows[r];
      UnavailableStays(c, t, acts[1..], r);
    }
  }

  /** After a refused send with attempts left, the row waits: in every run that ends before the time
      it was given it stays as it is and nobody can claim it, and from then on anybody can. */
  lemma RetryWaits(c: Config, s: State, w: nat, next: int, acts: seq<Action>)
    requires ValidConfig(c) && Inv(c, s) && Enabled(c, s, Mark(w, next, true)) && s.workers[w].phase.Errored?
    requires s.workers[w].queue[0].row.attempts + 1 < c.maxAttempts
    requires var r := s.workers[w].queue[0].id; s.rows[r].publishedAt.None? && s.rows[r].lockedBy == Some(w)
    ensures var r, t := s.workers[w].queue[0].id, Apply(c, s, Mark(w, next, true));
            var u := Run(c, t, acts);
            && r < |t.rows| <= |u.rows| == |u.recoveries|
            && (u.now < next ==>
                  u.rows[r] == t.rows[r] && forall v, more :: r in more ==> !Enabled(c, u, Claim(v, more)))
            && (u.now >= next && u.rows[r] == t.rows[r] ==>
                  forall v: nat :: v < |u.workers| && u.workers[v] == Alive([], Unsent) ==>
                    Enabled(c, u, Claim(v, [r])))
  {
    var r, t := s.workers[w].queue[0].id, Apply(c, s, Mark(w, next, true));
    var u := Run(c, t, acts);
    assert WorkerOk(c, s.rows, s.log, w, s.workers[w]) && RecordOk(c, s.rows, w, s.workers[w].queue[0]);
    MarkWrites(c, s, w, next, true, r);
    RowsStay(c, t, acts);
    StepKeeps(c, s, Mark(w, next, true));
    RunKeeps(c, t, acts);
    if u.now < next {
      UnavailableStays(c, t, acts, r);
      forall v, more | r in more ensures !Enabled(c, u, Claim(v, more)) {
        if Enabled(c, u, Claim(v, more)) { ClaimWrites(c, u, v, more, r); }
      }
    }
  }

  // ----- a malformed payload -----

  /** A malformed row has not been sent, and has failed at its first attempt or not been tried. */
  ghost predicate MalformedOk(s: State, r: nat) {
    r < |s.rows| && !s.rows[r].wellFormed ==>
      r !in s.log && !s.rows[r].status.Published? && s.rows[r].attempts == if s.rows[r].status.Failed? then 1 else 0
  }

  lemma StepMalformed(c: Config, s: State, a: Action, r: nat)
    requires ValidConfig(c) && Inv(c, s) && MalformedOk(s, r)
    ensures MalformedOk(Apply(c, s, a), r)
  {
    if Enabled(c, s, a) && r < |s.rows| {
      assert RowOk(c, s.rows[r]);
      if a.Send? || a.Mark? {
        assert WorkerOk(c, s.rows, s.log, a.w, s.workers[a.w]);
        assert RecordOk(c, s.rows, a.w, s.workers[a.w].queue[0]);
      }
    }
  }

  lemma {:induction false} RunMalformed(c: Config, s: State, acts: seq<Action>, r: nat)
    requires ValidConfig(c) && Inv(c, s) && MalformedOk(s, r)
    ensures MalformedOk(Run(c, s, acts), r)
    decreases acts
  {
    if acts != [] {
      StepMalformed(c, s, acts[0], r);
      StepKeeps(c, s, acts[0]);
      RunMalformed(c, Apply(c, s, acts[0]), acts[1..], r);
    }
  }

  /** In every run a malformed payload never reaches the broker, is never published and has failed
      with the first mark that reached it. */
  lemma MalformedFailsFirst(c: Config, acts: seq<Action>, r: nat)
    requires ValidConfig(c) && r < |Reached(c, acts).rows| && !Reached(c, acts).rows[r].wellFormed
    ensures var s := Reached(c, acts);
            && r !in s.log && !s.rows[r].status.Published?
            && s.rows[r].attempts == if s.rows[r].status.Failed? then 1 else 0
  {
    RunMalformed(c, EMPTY, acts, r);
  }

  /** A new row waits for its first claim, with no attempt made. */
  lemma InsertWrites(c: Config, s: State, a: Action)
    requires a.Insert?
    ensures var t := Apply(c, s, a);
            && |t.rows| == |s.rows| + 1 && t.rows[..|s.rows|] == s.rows && t.recoveries == s.recoveries + [0]
            && t.workers == s.workers && t.log == s.log && t.now == s.now
            && var p := t.rows[|s.rows|];
               && p.aggregate == a.aggregate && p.createdAt == a.createdAt && p.wellFormed == a.wellFormed
               && p.availableAt == a.availableAt && p.status.Pending? && p.attempts == 0
               && p.lockedBy.None? && p.leaseUntil.None? && p.publishedAt.None? && p.failedAt.None?
  {}
}
