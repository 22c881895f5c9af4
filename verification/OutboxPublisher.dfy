/** The repository and the publisher as the program they are: methods that change the table in
    place.  Each is tied to the step system, so what is proved of every run holds of them. */
module OutboxPublisher {
  import opened Options
  import opened Selection
  import opened Sequences
  import opened OutboxModel
  import opened OutboxSafety

  /** What all publishers share: the table, the database clock and the broker's log.  The
      remaining fields keep the books of the step system: every publisher's batch, and how
      often each row's lease was recovered. */
  class World {
    var rows: seq<Row>
    var now: int
    var log: seq<nat>
    var workers: seq<Worker>
    var recoveries: seq<nat>

    constructor ()
      ensures View() == EMPTY
    {
      rows, now, log, workers, recoveries := [], 0, [], [], [];
    }

    function View(): State
      reads this
    {
      State(rows, workers, now, log, recoveries)
    }

    /** Time passes and everybody else moves. */
    method Others(c: Config, acts: seq<Action>)
      modifies this
      ensures View() == Run(c, old(View()), acts)
    {
      var s := Run(c, View(), acts);
      rows, now, log, workers, recoveries := s.rows, s.now, s.log, s.workers, s.recoveries;
    }

    /** The broker's answer to one message. */
    method PublishRaw(id: nat, accepted: bool) returns (ok: bool)
      modifies this`log
      ensures ok == accepted && log == if accepted then old(log) + [id] else old(log)
    {
      if accepted { log := log + [id]; }
      ok := accepted;
    }
  }

  // ----- claiming: the first rows in database order -----

  function CreatedAt(rows: seq<Row>): nat -> int {
    (r: nat) => if r < |rows| then rows[r].createdAt else 0
  }

  /** Database order: ORDER BY created_at, id. */
  predicate Before(rows: seq<Row>, a: nat, b: nat) {
    Precedes(CreatedAt(rows), a, b)
  }

  /** What the claim query may return; `skip` are the rows other open transactions hold locked. */
  function Claimable(rows: seq<Row>, maxAttempts: nat, now: int, skip: set<nat>): nat -> bool {
    (r: nat) => r < |rows| && Eligible(rows[r], maxAttempts, now) && r !in skip
  }

  function CountRecovered(rows: seq<Row>, ids: seq<nat>): nat
    requires forall i :: 0 <= i < |ids| ==> ids[i] < |rows|
  {
    if ids == [] then 0
    else CountRecovered(rows, ids[..|ids| - 1]) + (if rows[ids[|ids| - 1]].leaseUntil.Some? then 1 else 0)
  }

  lemma ChosenAreRows(rows: seq<Row>, maxAttempts: nat, now: int, skip: set<nat>, ids: seq<nat>)
    requires Leading(Claimable(rows, maxAttempts, now, skip), CreatedAt(rows), ids)
    ensures forall i :: 0 <= i < |ids| ==> ids[i] < |rows|
  {}

  lemma ClaimRowsWrite(rows: seq<Row>, ids: seq<nat>, w: nat, now: int, lease: nat)
    ensures LockedFor(ClaimRows(rows, ids, w, now, lease), ids, w, now, lease)
  {}

  /** These rows are locked by the worker from now until the lease is over. */
  ghost predicate LockedFor(rows: seq<Row>, ids: seq<nat>, w: nat, now: int, lease: nat) {
    forall r :: 0 <= r < |rows| && r in ids ==>
      && rows[r].status.Processing? && rows[r].lockedBy == Some(w)
      && rows[r].lockedAt == Some(now) && rows[r].leaseUntil == Some(now + lease)
  }

  class Repository {
    const world: World

    constructor (world: World)
      ensures this.world == world
    {
      this.world := world;
    }

    method SelectClaimable(batchSize: nat, maxAttempts: nat, skip: set<nat>) returns (ids: seq<nat>)
      ensures Selected(Claimable(world.rows, maxAttempts, world.now, skip), CreatedAt(world.rows), batchSize, ids)
      ensures forall i :: 0 <= i < |ids| ==> ids[i] < |world.rows|
    {
      ids := SelectFirst(Claimable(world.rows, maxAttempts, world.now, skip), CreatedAt(world.rows),
                         |world.rows|, batchSize);
      ChosenAreRows(world.rows, maxAttempts, world.now, skip, ids);
    }

    /** One transaction: select, lock and lease the first claimable rows.  `skip` are the rows
        that other open transactions hold locked at that moment. */
    method Claim(w: nat, batchSize: nat, maxAttempts: nat, lease: nat, skip: set<nat>)
      returns (records: seq<Record>, recovered: nat, ghost ids: seq<nat>)
      modifies world`rows
      ensures Selected(Claimable(old(world.rows), maxAttempts, world.now, skip), CreatedAt(old(world.rows)),
                       batchSize, ids)
      ensures records == RecordsOf(old(world.rows), ids, w)
      ensures recovered == CountRecovered(old(world.rows), ids)
      ensures world.rows == ClaimRows(old(world.rows), ids, w, world.now, lease)
      ensures LockedFor(world.rows, ids, w, world.now, lease)
    {
      var chosen := SelectClaimable(batchSize, maxAttempts, skip);
      recovered := RecoveredAmong(chosen);
      records := RecordsOf(world.rows, chosen, w);
      ClaimRowsWrite(world.rows, chosen, w, world.now, lease);
      world.rows := ClaimRows(world.rows, chosen, w, world.now, lease);
      ids := chosen;
    }

    /** A claimed row that has a lease was abandoned. */
    method RecoveredAmong(ids: seq<nat>) returns (recovered: nat)
      requires forall i :: 0 <= i < |ids| ==> ids[i] < |world.rows|
      ensures recovered == CountRecovered(world.rows, ids)
    {
      recovered := 0;
      for i := 0 to |ids|
        invariant recovered == CountRecovered(world.rows, ids[..i])
      {
        assert ids[..i + 1][..i] == ids[..i];
        if world.rows[ids[i]].leaseUntil.Some? { recovered := recovered + 1; }
      }
      assert ids[..|ids|] == ids;
    }

    method MarkPublished(id: nat, w: nat) returns (updated: bool)
      requires id < |world.rows|
      modifies world`rows
      ensures updated == Owned(old(world.rows)[id], w)
      ensures world.rows == if updated then old(world.rows)[id := PublishedRow(old(world.rows)[id], world.now)]
                            else old(world.rows)
    {
      updated := world.rows[id].publishedAt.None? && world.rows[id].lockedBy == Some(w);
      if updated {
        world.rows := world.rows[id := world.rows[id].(status := Published, publishedAt := Some(world.now),
                                                       lockedBy := None, lockedAt := None, leaseUntil := None)];
      }
    }

    method MarkFailed(id: nat, w: nat, nextAvailableAt: int) returns (updated: bool)
      requires id < |world.rows|
      modifies world`rows
      ensures updated == Owned(old(world.rows)[id], w)
      ensures world.rows == if updated then old(world.rows)[id := RetryRow(old(world.rows)[id], nextAvailableAt)]
                            else old(world.rows)
    {
      updated := world.rows[id].publishedAt.None? && world.rows[id].lockedBy == Some(w);
      if updated {
        var row := world.rows[id];
        row := row.(status := Pending, attempts := row.attempts + 1, availableAt := nextAvailableAt);
        world.rows := world.rows[id := row.(lockedBy := None, lockedAt := None, leaseUntil := None)];
      }
    }

    method MarkTerminal(id: nat, w: nat) returns (updated: bool)
      requires id < |world.rows|
      modifies world`rows
      ensures updated == Owned(old(world.rows)[id], w)
      ensures world.rows == if updated then old(world.rows)[id := TerminalRow(old(world.rows)[id], world.now)]
                            else old(world.rows)
    {
      updated := world.rows[id].publishedAt.None? && world.rows[id].lockedBy == Some(w);
      if updated {
        var row := world.rows[id];
        world.rows := world.rows[id := row.(status := Failed, attempts := row.attempts + 1, failedAt := Some(world.now),
                                            lockedBy := None, lockedAt := None, leaseUntil := None)];
      }
    }
  }

  // ----- the publisher, with everybody else moving between any two of its own steps -----

  predicate NotBy(w: nat, acts: seq<Action>) {
    forall i :: 0 <= i < |acts| ==>
      match acts[i]
      case Crash(v) => v != w
      case Claim(v, _) => v != w
      case Send(v, _) => v != w
      case Mark(v, _, _) => v != w
      case _ => true
  }

  /** What the environment does while one record is handled. */
  datatype Conditions = Conditions(
    beforeSend: seq<Action>,
    accepted: bool,
    beforeMark: seq<Action>,
    nextAvailableAt: int,
    markReached: bool
  )

  ghost predicate Foreign(w: nat, env: Conditions) {
    NotBy(w, env.beforeSend) && NotBy(w, env.beforeMark)
  }

  /** What others do never touches a publisher's own batch, and rows are never removed. */
  lemma {:induction false} OthersSpareBatch(c: Config, s: State, acts: seq<Action>, w: nat)
    requires w < |s.workers| && NotBy(w, acts)
    ensures var t := Run(c, s, acts);
            w < |t.workers| && t.workers[w] == s.workers[w] && |s.rows| <= |t.rows|
            && (|s.recoveries| == |s.rows| ==> |t.recoveries| == |t.rows|)
    decreases acts
  {
    if acts != [] {
      var t := Apply(c, s, acts[0]);
      assert w < |t.workers| && t.workers[w] == s.workers[w];
      OthersSpareBatch(c, t, acts[1..], w);
    }
  }

  class Publisher {
    const world: World
    const repo: Repository
    const cfg: Config
    const workerID: nat

    constructor (world: World, repo: Repository, cfg: Config, workerID: nat)
      ensures this.world == world && this.repo == repo && this.cfg == cfg && this.workerID == workerID
    {
      this.world, this.repo, this.cfg, this.workerID := world, repo, cfg, workerID;
    }

    ghost predicate Valid()
      reads world
    {
      && repo.world == world
      && workerID < |world.workers| && world.workers[workerID].Alive?
      && |world.recoveries| == |world.rows|
      && (forall i :: 0 <= i < |world.workers[workerID].queue| ==>
            world.workers[workerID].queue[i].id < |world.rows|)
    }

    method Attempt(record: Record, accepted: bool) returns (phase: Phase)
      requires Valid() && record.row.wellFormed
      requires world.workers[workerID].queue != [] && world.workers[workerID].queue[0] == record
      requires world.workers[workerID].phase.Unsent?
      modifies world
      ensures world.View() == Apply(cfg, old(world.View()), Send(workerID, accepted))
      ensures world.workers[workerID] == Alive(old(world.workers[workerID].queue), phase)
      ensures Valid() && !phase.Unsent?
    {
      var ok := world.PublishRaw(record.id, accepted);
      phase := if ok then Delivered else Errored;
      world.workers := world.workers[workerID := Alive(world.workers[workerID].queue, phase)];
    }

    method Finish(record: Record, phase: Phase, nextAvailableAt: int, reached: bool)
      requires Valid() && (phase.Unsent? ==> !record.row.wellFormed)
      requires world.workers[workerID].queue != [] && world.workers[workerID].queue[0] == record
      requires world.workers[workerID].phase == phase
      modifies world
      ensures world.View() == Apply(cfg, old(world.View()), Mark(workerID, nextAvailableAt, reached))
      ensures world.workers[workerID] == Alive(old(world.workers[workerID].queue)[1..], Unsent)
      ensures Valid()
    {
      if reached {
        if phase.Delivered? {
          var updated := repo.MarkPublished(record.id, workerID);
        } else if !record.row.wellFormed || record.row.attempts + 1 >= cfg.maxAttempts {
          var updated := repo.MarkTerminal(record.id, workerID);
        } else {
          var updated := repo.MarkFailed(record.id, workerID, nextAvailableAt);
        }
      }
      world.workers := world.workers[workerID := Alive(world.workers[workerID].queue[1..], Unsent)];
    }

    /** Send one record and mark it, with everybody else moving before each of the two. */
    method PublishOne(record: Record, env: Conditions)
      requires Valid() && Foreign(workerID, env)
      requires world.workers[workerID].queue != [] && world.workers[workerID].queue[0] == record
      requires world.workers[workerID].phase.Unsent?
      modifies world
      ensures Valid()
      ensures world.View() == Run(cfg, old(world.View()), OneTrace(workerID, record, env))
      ensures world.workers[workerID] == Alive(old(world.workers[workerID].queue)[1..], Unsent)
    {
      OneTraceRuns(cfg, world.View(), workerID, record, env);
      OthersSpareBatch(cfg, world.View(), env.beforeSend, workerID);
      world.Others(cfg, env.beforeSend);
      var phase := Unsent;
      if record.row.wellFormed {
        phase := Attempt(record, env.accepted);
      }
      OthersSpareBatch(cfg, world.View(), env.beforeMark, workerID);
      world.Others(cfg, env.beforeMark);
      Finish(record, phase, env.nextAvailableAt, env.markReached);
    }

    /** Claim a batch; in the books it becomes the publisher's. */
    method ClaimBatch(skip: set<nat>) returns (records: seq<Record>, ghost ids: seq<nat>)
      requires Valid() && world.workers[workerID] == Alive([], Unsent)
      modifies world
      ensures Selected(Claimable(old(world.rows), cfg.maxAttempts, old(world.now), skip), CreatedAt(old(world.rows)),
                       cfg.batchSize, ids)
      ensures records == RecordsOf(old(world.rows), ids, workerID)
      ensures world.View() == Apply(cfg, old(world.View()), Claim(workerID, ids))
      ensures Valid() && world.workers[workerID] == Alive(records, Unsent)
    {
      var rowsBefore := world.rows;
      var recovered;
      records, recovered, ids := repo.Claim(workerID, cfg.batchSize, cfg.maxAttempts, cfg.lease, skip);
      assert Ids(records) == ids;
      assert Enabled(cfg, old(world.View()), Claim(workerID, ids));
      world.recoveries := Recoveries(world.recoveries, rowsBefore, Ids(records));
      world.workers := world.workers[workerID := Alive(records, Unsent)];
    }

    /** One poll: claim a batch and handle it record by record in database order, unless
        cancelled before record `stop`; a cancelled publisher ends.  Interleaved with everybody
        else's moves, the poll is exactly this run of the step system. */
    method Poll(skip: set<nat>, env: nat -> Conditions, stop: nat) returns (ghost ids: seq<nat>)
      requires Valid() && world.workers[workerID] == Alive([], Unsent)
      requires forall i: nat :: Foreign(workerID, env(i))
      modifies world
      ensures Selected(Claimable(old(world.rows), cfg.maxAttempts, old(world.now), skip), CreatedAt(old(world.rows)),
                       cfg.batchSize, ids)
      ensures world.View()
           == Run(cfg, old(world.View()),
                  PollTrace(workerID, ids, RecordsOf(old(world.rows), ids, workerID), env, stop))
      ensures workerID < |world.workers|
      ensures world.workers[workerID] == if stop < |ids| then Dead else Alive([], Unsent)
      ensures ValidConfig(cfg) && old(Inv(cfg, world.View())) ==> Inv(cfg, world.View())
    {
      ghost var start := world.View();
      var records;
      records, ids := ClaimBatch(skip);
      var done := PublishAll(records, env, stop);
      PollTraceRuns(cfg, start, workerID, ids, records, env, stop, done);
      if done < |records| { world.workers := world.workers[workerID := Dead]; }
      if ValidConfig(cfg) && Inv(cfg, start) {
        RunKeeps(cfg, start, PollTrace(workerID, ids, records, env, stop));
      }
    }

    method PublishAll(records: seq<Record>, env: nat -> Conditions, stop: nat) returns (done: nat)
      requires Valid() && world.workers[workerID] == Alive(records, Unsent)
      requires forall i: nat :: Foreign(workerID, env(i))
      modifies world
      ensures done == if stop < |records| then stop else |records|
      ensures world.View() == Run(cfg, old(world.View()), BatchTrace(workerID, records, env, done))
      ensures Valid() && world.workers[workerID] == Alive(records[done..], Unsent)
    {
      ghost var start := world.View();
      done := 0;
      while done < |records| && done != stop
        invariant 0 <= done <= |records| && done <= stop
        invariant Valid()
        invariant world.workers[workerID] == Alive(records[done..], Unsent)
        invariant world.View() == Run(cfg, start, BatchTrace(workerID, records, env, done))
      {
        OneMoreRecord(cfg, start, workerID, records, env, done);
        PublishOne(records[done], env(done));
        done := done + 1;
      }
    }
  }

  ghost function OneTrace(w: nat, record: Record, env: Conditions): seq<Action> {
    env.beforeSend + (if record.row.wellFormed then [Send(w, env.accepted)] else [])
      + env.beforeMark + [Mark(w, env.nextAvailableAt, env.markReached)]
  }

  ghost function BatchTrace(w: nat, records: seq<Record>, env: nat -> Conditions, n: nat): seq<Action>
    requires n <= |records|
  {
    if n == 0 then [] else BatchTrace(w, records, env, n - 1) + OneTrace(w, records[n - 1], env(n - 1))
  }

  /** What one more record adds to a batch. */
  lemma OneMoreRecord(c: Config, s: State, w: nat, records: seq<Record>, env: nat -> Conditions, n: nat)
    requires n < |records|
    ensures Run(c, s, BatchTrace(w, records, env, n + 1))
         == Run(c, Run(c, s, BatchTrace(w, records, env, n)), OneTrace(w, records[n], env(n)))
  {
    RunConcat(c, s, BatchTrace(w, records, env, n), OneTrace(w, records[n], env(n)));
  }

  ghost function PollTrace(
      w: nat, ids: seq<nat>, records: seq<Record>, env: nat -> Conditions, stop: nat): seq<Action> {
    [Claim(w, ids)] + BatchTrace(w, records, env, if stop < |records| then stop else |records|)
      + (if stop < |records| then [Crash(w)] else [])
  }

  /** A poll is its claim, then its batch, then perhaps its end. */
  lemma PollTraceRuns(c: Config, s: State, w: nat, ids: seq<nat>, records: seq<Record>, env: nat -> Conditions,
                      stop: nat, done: nat)
    requires done == if stop < |records| then stop else |records|
    ensures var t := Run(c, Apply(c, s, Claim(w, ids)), BatchTrace(w, records, env, done));
            Run(c, s, PollTrace(w, ids, records, env, stop))
              == if done < |records| then Apply(c, t, Crash(w)) else t
  {
    var claim, batch := [Claim(w, ids)], BatchTrace(w, records, env, done);
    RunOne(c, s, Claim(w, ids));
    RunConcat(c, s, claim, batch);
    if done < |records| {
      RunConcat(c, s, claim + batch, [Crash(w)]);
      RunOne(c, Run(c, s, claim + batch), Crash(w));
    } else {
      assert claim + batch + [] == claim + batch;
    }
  }

  lemma RunOne(c: Config, s: State, a: Action)
    ensures Run(c, s, [a]) == Apply(c, s, a)
  {}

  lemma OneTraceRuns(c: Config, s: State, w: nat, record: Record, env: Conditions)
    ensures var s1 := Run(c, s, env.beforeSend);
            var s2 := if record.row.wellFormed then Apply(c, s1, Send(w, env.accepted)) else s1;
            (Run(c, s, OneTrace(w, record, env))
             == Apply(c, Run(c, s2, env.beforeMark), Mark(w, env.nextAvailableAt, env.markReached)))
  {
    var sent := if record.row.wellFormed then [Send(w, env.accepted)] else [];
    RunConcat(c, s, env.beforeSend, sent);
    RunOne(c, Run(c, s, env.beforeSend), Send(w, env.accepted));
    RunConcat(c, s, env.beforeSend + sent, env.beforeMark);
    RunConcat(c, s, env.beforeSend + sent + env.beforeMark, [Mark(w, env.nextAvailableAt, env.markReached)]);
    RunOne(c, Run(c, s, env.beforeSend + sent + env.beforeMark), Mark(w, env.nextAvailableAt, env.markReached));
  }

  function Ids(records: seq<Record>): seq<nat> {
    Mapped(records, (r: Record) => r.id)
  }
}
