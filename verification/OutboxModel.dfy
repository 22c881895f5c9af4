/** The leased transactional outbox as a step system.

    Any number of publishers share one table.  A publisher claims rows under a lease, sends
    them to the broker one after the other, and then marks each row published, retry or
    failed.  Publishers crash, restart under a fresh identity and lose database replies;
    leases run out.  Every choice the environment makes is carried by an `Action`, so a run
    is the fold of `Apply` over a sequence of actions, and a statement about all runs is a
    statement about all action sequences. */
module OutboxModel {
  import opened Options
  import opened Selection

  datatype Config = Config(maxAttempts: nat, batchSize: nat, lease: nat)

  ghost predicate ValidConfig(c: Config) {
    c.maxAttempts > 0 && c.batchSize > 0 && c.lease > 0
  }

  datatype Status = Pending | Processing | Published | Failed

  /** A row of `order_outbox`.  `wellFormed` says whether the payload is valid JSON. */
  datatype Row = Row(
    aggregate: nat,
    createdAt: int,
    wellFormed: bool,
    status: Status,
    attempts: nat,
    availableAt: int,
    lockedBy: Option<nat>,
    lockedAt: Option<int>,
    leaseUntil: Option<int>,
    publishedAt: Option<int>,
    failedAt: Option<int>
  )

  /** What a publisher remembers of a claimed row: a snapshot taken at the claim. */
  datatype Record = Record(id: nat, row: Row)

  /** How far the record at the head of the batch has got. */
  datatype Phase = Unsent | Delivered | Errored

  datatype Worker = Dead | Alive(queue: seq<Record>, phase: Phase)

  /** The table, the publishers (indexed by identity), the database clock, the broker's log of
      accepted messages, and per row the number of claims that took over an expired lease. */
  datatype State = State(
    rows: seq<Row>,
    workers: seq<Worker>,
    now: int,
    log: seq<nat>,
    recoveries: seq<nat>
  )

  datatype Action =
    | Insert(aggregate: nat, createdAt: int, availableAt: int, wellFormed: bool)
    | Tick(elapsed: nat)
    | Start
    | Crash(w: nat)
    | Claim(w: nat, ids: seq<nat>)
    | Send(w: nat, accepted: bool)
    | Mark(w: nat, nextAvailableAt: int, reached: bool)

  // ----- the guarded row transitions -----

  predicate Eligible(row: Row, maxAttempts: nat, now: int) {
    && row.publishedAt.None?
    && (row.status.Pending? || row.status.Processing?)
    && row.availableAt <= now
    && row.attempts < maxAttempts
    && (row.leaseUntil.None? || row.leaseUntil.value < now)
  }

  predicate Owned(row: Row, w: nat) {
    row.publishedAt.None? && row.lockedBy == Some(w)
  }

  function ClaimedRow(row: Row, w: nat, now: int, lease: nat): Row {
    row.(status := Processing, lockedBy := Some(w), lockedAt := Some(now), leaseUntil := Some(now + lease))
  }

  function Unlocked(row: Row): Row {
    row.(lockedBy := None, lockedAt := None, leaseUntil := None)
  }

  function PublishedRow(row: Row, now: int): Row {
    Unlocked(row).(status := Published, publishedAt := Some(now))
  }

  function RetryRow(row: Row, nextAvailableAt: int): Row {
    Unlocked(row).(status := Pending, attempts := row.attempts + 1, availableAt := nextAvailableAt)
  }

  function TerminalRow(row: Row, now: int): Row {
    Unlocked(row).(status := Failed, attempts := row.attempts + 1, failedAt := Some(now))
  }

  function ClaimRows(rows: seq<Row>, ids: seq<nat>, w: nat, now: int, lease: nat): (r: seq<Row>)
    ensures |r| == |rows|
  {
    seq(|rows|, i requires 0 <= i < |rows| => if i in ids then ClaimedRow(rows[i], w, now, lease) else rows[i])
  }

  function RecordsOf(rows: seq<Row>, ids: seq<nat>, w: nat): (r: seq<Record>)
    requires forall i :: 0 <= i < |ids| ==> ids[i] < |rows|
    ensures |r| == |ids|
    ensures forall i :: 0 <= i < |ids| ==> r[i].id == ids[i]
  {
    seq(|ids|, i requires 0 <= i < |ids| =>
      Record(ids[i], rows[ids[i]].(status := Processing, lockedBy := Some(w))))
  }

  function Recoveries(recoveries: seq<nat>, rows: seq<Row>, ids: seq<nat>): (r: seq<nat>)
    requires |recoveries| == |rows|
    ensures |r| == |rows|
  {
    seq(|rows|, i requires 0 <= i < |rows| =>
      if i in ids && rows[i].leaseUntil.Some? then recoveries[i] + 1 else recoveries[i])
  }

  // ----- one step -----

  /** The statement a publisher issues for the record at the head of its batch. */
  datatype Verdict = ToPublished | ToRetry | ToTerminal

  function VerdictOf(maxAttempts: nat, record: Record, phase: Phase): Verdict {
    if phase.Delivered? then ToPublished
    else if !record.row.wellFormed || record.row.attempts + 1 >= maxAttempts then ToTerminal
    else ToRetry
  }

  function MarkedRow(row: Row, verdict: Verdict, now: int, nextAvailableAt: int): Row {
    match verdict
    case ToPublished => PublishedRow(row, now)
    case ToRetry => RetryRow(row, nextAvailableAt)
    case ToTerminal => TerminalRow(row, now)
  }

  predicate Busy(s: State, w: nat) {
    w < |s.workers| && s.workers[w].Alive? && s.workers[w].queue != []
  }

  predicate Enabled(c: Config, s: State, a: Action) {
    match a
    case Insert(_, _, _, _) => true
    case Tick(_) => true
    case Start => true
    case Crash(w) => w < |s.workers| && s.workers[w].Alive?
    case Claim(w, ids) =>
      && w < |s.workers| && s.workers[w].Alive? && s.workers[w].queue == []
      && NoDuplicates(ids) && |ids| <= c.batchSize
      && |s.recoveries| == |s.rows|
      && (forall i :: 0 <= i < |ids| ==> ids[i] < |s.rows| && Eligible(s.rows[ids[i]], c.maxAttempts, s.now))
    case Send(w, _) =>
      && Busy(s, w) && s.workers[w].phase.Unsent? && s.workers[w].queue[0].row.wellFormed
    case Mark(w, _, _) =>
      && Busy(s, w) && (s.workers[w].phase.Unsent? ==> !s.workers[w].queue[0].row.wellFormed)
      && s.workers[w].queue[0].id < |s.rows|
  }

  function Effect(c: Config, s: State, a: Action): State
    requires Enabled(c, s, a)
  {
    match a
    case Insert(aggregate, createdAt, availableAt, wellFormed) =>
      s.(rows := s.rows + [Row(aggregate, createdAt, wellFormed, Pending, 0, availableAt, None, None, None, None,
                               None)],
         recoveries := s.recoveries + [0])
    case Tick(elapsed) => s.(now := s.now + elapsed)
    case Start => s.(workers := s.workers + [Alive([], Unsent)])
    case Crash(w) => s.(workers := s.workers[w := Dead])
    case Claim(w, ids) =>
      s.(rows := ClaimRows(s.rows, ids, w, s.now, c.lease),
         recoveries := Recoveries(s.recoveries, s.rows, ids),
         workers := s.workers[w := Alive(RecordsOf(s.rows, ids, w), Unsent)])
    case Send(w, accepted) =>
      var worker := s.workers[w];
      if accepted then
        s.(log := s.log + [worker.queue[0].id], workers := s.workers[w := worker.(phase := Delivered)])
      else
        s.(workers := s.workers[w := worker.(phase := Errored)])
    case Mark(w, nextAvailableAt, reached) =>
      var worker := s.workers[w];
      var record := worker.queue[0];
      var row := s.rows[record.id];
      var verdict := VerdictOf(c.maxAttempts, record, worker.phase);
      var popped := s.workers[w := Alive(worker.queue[1..], Unsent)];
      if reached && Owned(row, w) then
        s.(rows := s.rows[record.id := MarkedRow(row, verdict, s.now, nextAvailableAt)], workers := popped)
      else
        s.(workers := popped)
  }

  /** An action that is not enabled does nothing. */
  function Apply(c: Config, s: State, a: Action): State {
    if Enabled(c, s, a) then Effect(c, s, a) else s
  }

  function Run(c: Config, s: State, acts: seq<Action>): State
    decreases acts
  {
    if acts == [] then s else Run(c, Apply(c, s, acts[0]), acts[1..])
  }

  const EMPTY := State([], [], 0, [], [])

  lemma {:induction false} RunConcat(c: Config, s: State, xs: seq<Action>, ys: seq<Action>)
    ensures Run(c, s, xs + ys) == Run(c, Run(c, s, xs), ys)
    decreases xs
  {
    if xs == [] {
      assert xs + ys == ys;
    } else {
      assert (xs + ys)[0] == xs[0] && (xs + ys)[1..] == xs[1..] + ys;
      RunConcat(c, Apply(c, s, xs[0]), xs[1..], ys);
    }
  }
}
