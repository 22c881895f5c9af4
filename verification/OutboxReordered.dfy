/** Runs in which the broker sees the events of one aggregate out of database order. */
module OutboxReordered {
  import opened Options
  import opened OutboxModel
  import opened OutboxPublisher
  import opened OutboxTheorems
  import opened OutboxOvertaking

  ghost const FIRST := Row(7, 0, true, Pending, 0, 0, None, None, None, None, None)
  ghost const SECOND := Row(7, 1, true, Pending, 0, 0, None, None, None, None, None)

  // ----- two publishers -----

  /** Two publishers claim one event each, and the one with the later event is faster. */
  ghost const CLAIMED := [Insert(7, 0, 0, true), Insert(7, 1, 0, true), Start, Start]
  ghost const RACE := [Claim(0, [0]), Claim(1, [1]), Send(1, true), Send(0, true)]

  ghost const BOTH := State([FIRST, SECOND], [Alive([], Unsent), Alive([], Unsent)], 0, [], [0, 0])

  lemma BothStarted(c: Config)
    ensures Run(c, EMPTY, CLAIMED) == BOTH
  {
    RunFour(c, EMPTY, CLAIMED[0], CLAIMED[1], CLAIMED[2], CLAIMED[3]);
  }

  lemma BothClaim(c: Config) returns (s: State)
    requires ValidConfig(c)
    ensures s == Apply(c, Apply(c, BOTH, RACE[0]), RACE[1]) && s.log == []
    ensures |s.rows| == 2 && Earlier(s.rows, 0, 1)
    ensures s.workers == [Alive(RecordsOf(BOTH.rows, [0], 0), Unsent), Alive(RecordsOf(BOTH.rows, [1], 1), Unsent)]
  {
    var s1 := Apply(c, BOTH, RACE[0]);
    s := Apply(c, s1, RACE[1]);
    var head0, head1 := RecordsOf(BOTH.rows, [0], 0), RecordsOf(s1.rows, [1], 1);
    assert Enabled(c, BOTH, RACE[0]) && s1.workers == [Alive(head0, Unsent), Alive([], Unsent)];
    assert s1.rows[1] == SECOND;
    assert head1 == RecordsOf(BOTH.rows, [1], 1);
    assert Enabled(c, s1, RACE[1]) && s.workers == [Alive(head0, Unsent), Alive(head1, Unsent)];
  }

  lemma BothSend(c: Config)
    requires ValidConfig(c)
    ensures var t := Run(c, BOTH, RACE); t.log == [1, 0] && |t.rows| == 2 && Earlier(t.rows, 0, 1)
  {
    RunFour(c, BOTH, RACE[0], RACE[1], RACE[2], RACE[3]);
    var s := BothClaim(c);
    var t := Apply(c, s, RACE[2]);
    assert t.log == [1] && t.workers[0] == s.workers[0] && t.rows == s.rows;
  }

  /** Nothing is refused and nobody crashes, and still the later event comes first. */
  lemma TwoPublishersReorder(c: Config)
    requires ValidConfig(c)
    ensures var s := Reached(c, CLAIMED + RACE); |s.rows| == 2 && Earlier(s.rows, 0, 1) && s.log == [1, 0]
  {
    RunConcat(c, EMPTY, CLAIMED, RACE);
    BothStarted(c);
    BothSend(c);
  }

  // ----- one publisher and a retry -----

  ghost const CLAIMING := [Insert(7, 0, 0, true), Insert(7, 1, 0, true), Start, Claim(0, [0, 1])]
  ghost const REFUSED := [Send(0, false), Mark(0, 5, true), Send(0, true), Mark(0, 0, true), Tick(5)]
  ghost const RETRY := [Claim(0, [0]), Send(0, true), Mark(0, 0, true)]

  ghost function Claimed(c: Config): State {
    State([ClaimedRow(FIRST, 0, 0, c.lease), ClaimedRow(SECOND, 0, 0, c.lease)],
          [Alive(RecordsOf([FIRST, SECOND], [0, 1], 0), Unsent)], 0, [], [0, 0])
  }

  ghost function Waiting(c: Config): State {
    State([RetryRow(ClaimedRow(FIRST, 0, 0, c.lease), 5), PublishedRow(ClaimedRow(SECOND, 0, 0, c.lease), 0)],
          [Alive([], Unsent)], 5, [1], [0, 0])
  }

  lemma OvertakenClaim(c: Config)
    requires c.maxAttempts >= 2 && c.batchSize >= 2 && c.lease > 0
    ensures Run(c, EMPTY, CLAIMING) == Claimed(c)
  {
    RunFour(c, EMPTY, CLAIMING[0], CLAIMING[1], CLAIMING[2], CLAIMING[3]);
    var a := State([FIRST, SECOND], [Alive([], Unsent)], 0, [], [0, 0]);
    assert Apply(c, Apply(c, Apply(c, EMPTY, CLAIMING[0]), CLAIMING[1]), CLAIMING[2]) == a;
    assert Enabled(c, a, CLAIMING[3]);
    assert Recoveries(a.recoveries, a.rows, [0, 1]) == a.recoveries;
    assert ClaimRows(a.rows, [0, 1], 0, 0, c.lease) == Claimed(c).rows;
  }

  lemma OvertakenRefused(c: Config)
    requires c.maxAttempts >= 2 && c.batchSize >= 2 && c.lease > 0
    ensures Run(c, Claimed(c), REFUSED) == Waiting(c)
  {
    RunFive(c, Claimed(c), REFUSED[0], REFUSED[1], REFUSED[2], REFUSED[3], REFUSED[4]);
    var batch := Claimed(c).workers[0].queue;
    var b1 := Apply(c, Claimed(c), REFUSED[0]);
    assert b1 == Claimed(c).(workers := [Alive(batch, Errored)]);
    var b2 := Apply(c, b1, REFUSED[1]);
    assert batch[1..] == [batch[1]];
    assert b2 == b1.(rows := [Waiting(c).rows[0], b1.rows[1]], workers := [Alive([batch[1]], Unsent)]);
    var b3 := Apply(c, b2, REFUSED[2]);
    assert b3 == b2.(log := [1], workers := [Alive([batch[1]], Delivered)]);
    var b4 := Apply(c, b3, REFUSED[3]);
    assert [batch[1]][1..] == [];
    assert b4 == Waiting(c).(now := 0);
  }

  lemma OvertakenRetry(c: Config)
    requires c.maxAttempts >= 2 && c.batchSize >= 2 && c.lease > 0
    ensures var d := Waiting(c);
            Run(c, d, RETRY) == State([PublishedRow(ClaimedRow(d.rows[0], 0, 5, c.lease), 5), d.rows[1]],
                                      [Alive([], Unsent)], 5, [1, 0], [0, 0])
  {
    var d := Waiting(c);
    RunThree(c, d, RETRY[0], RETRY[1], RETRY[2]);
    var record := Record(0, d.rows[0].(status := Processing, lockedBy := Some(0)));
    assert RecordsOf(d.rows, [0], 0) == [record];
    assert Enabled(c, d, RETRY[0]);
    assert Recoveries(d.recoveries, d.rows, [0]) == d.recoveries;
    var e := Apply(c, d, RETRY[0]);
    var rows := [ClaimedRow(d.rows[0], 0, 5, c.lease), d.rows[1]];
    assert e.rows == rows;
    assert e == State(rows, [Alive([record], Unsent)], 5, [1], [0, 0]);
    var f := Apply(c, e, RETRY[1]);
    assert f == State(rows, [Alive([record], Delivered)], 5, [1, 0], [0, 0]);
    assert [record][1..] == [];
  }

  /** Two events of one aggregate, inserted in database order, both published, accepted by the
      broker in the opposite order. */
  lemma RetryOvertaken(c: Config)
    requires c.maxAttempts >= 2 && c.batchSize >= 2 && c.lease > 0
    ensures var s := Reached(c, CLAIMING + REFUSED + RETRY);
            && |s.rows| == 2 && Earlier(s.rows, 0, 1)
            && s.rows[0].status.Published? && s.rows[1].status.Published?
            && s.log == [1, 0]
  {
    RunConcat(c, EMPTY, CLAIMING + REFUSED, RETRY);
    RunConcat(c, EMPTY, CLAIMING, REFUSED);
    OvertakenClaim(c);
    OvertakenRefused(c);
    OvertakenRetry(c);
  }

  lemma RunThree(c: Config, s: State, a0: Action, a1: Action, a2: Action)
    ensures Run(c, s, [a0, a1, a2]) == Apply(c, Apply(c, Apply(c, s, a0), a1), a2)
  {
    RunConcat(c, s, [a0], [a1, a2]);
    RunConcat(c, Apply(c, s, a0), [a1], [a2]);
    RunOne(c, s, a0);
    RunOne(c, Apply(c, s, a0), a1);
    RunOne(c, Apply(c, Apply(c, s, a0), a1), a2);
    assert [a0] + [a1, a2] == [a0, a1, a2] && [a1] + [a2] == [a1, a2];
  }

  lemma RunFour(c: Config, s: State, a0: Action, a1: Action, a2: Action, a3: Action)
    ensures Run(c, s, [a0, a1, a2, a3]) == Apply(c, Apply(c, Apply(c, Apply(c, s, a0), a1), a2), a3)
  {
    RunConcat(c, s, [a0], [a1, a2, a3]);
    RunOne(c, s, a0);
    RunThree(c, Apply(c, s, a0), a1, a2, a3);
    assert [a0] + [a1, a2, a3] == [a0, a1, a2, a3];
  }
}
