/** Risk days in a time zone whose clock changes: the local day of an instant, and the local
    midnights it lies between.  Times are in microseconds. */
module RiskCalendar {
  import opened Integers

  const DAY := 86_400_000_000

  /** From the instant `at` on, local time is this much ahead of UTC. */
  datatype Change = Change(at: int, offset: int)

  datatype Zone = Zone(offset: int, changes: seq<Change>)

  function Earlier(z: Zone): Zone
    requires z.changes != []
  {
    z.(changes := z.changes[..|z.changes| - 1])
  }

  function Last(z: Zone): Change
    requires z.changes != []
  {
    z.changes[|z.changes| - 1]
  }

  function FinalOffset(z: Zone): int {
    if z.changes == [] then z.offset else Last(z).offset
  }

  function OffsetAt(z: Zone, t: int): int
    decreases |z.changes|
  {
    if z.changes == [] then z.offset
    else if t >= Last(z).at then Last(z).offset
    else OffsetAt(Earlier(z), t)
  }

  function LocalDay(z: Zone, t: int): int {
    (t + OffsetAt(z, t)) / DAY
  }

  function Max(a: int, b: int): int {
    if a >= b then a else b
  }

  /** What a wall clock shows just before and just after the last change. */
  function Before(z: Zone): int
    requires z.changes != []
  {
    Last(z).at + FinalOffset(Earlier(z))
  }

  function After(z: Zone): int
    requires z.changes != []
  {
    Last(z).at + Last(z).offset
  }

  /** The instant at which the wall clock shows midnight of day d.  A wall time that is shown twice
      is the first of the two, one that is left out is reckoned as if the clock had not changed. */
  function Midnight(z: Zone, d: int): int
    decreases |z.changes|
  {
    if z.changes == [] then d * DAY - z.offset
    else if d * DAY >= Max(Before(z), After(z)) then d * DAY - Last(z).offset
    else Midnight(Earlier(z), d)
  }

  /** The midnights before and after. */
  function RiskDay(z: Zone, now: int): (day: (int, int)) {
    (Midnight(z, LocalDay(z, now)), Midnight(z, LocalDay(z, now) + 1))
  }

  /** Offsets are less than a day, and changes are more than two days apart. */
  ghost predicate Spaced(z: Zone)
    decreases |z.changes|
  {
    -DAY < z.offset < DAY &&
    (z.changes != [] ==>
      && Spaced(Earlier(z)) && -DAY < Last(z).offset < DAY
      && (Earlier(z).changes != [] ==> Last(z).at > Last(Earlier(z)).at + 2 * DAY))
  }

  /** The clock is put past a midnight: it lies strictly between what is shown before and after. */
  ghost predicate JumpsMidnight(z: Zone)
    requires z.changes != []
  {
    exists d: int :: Min(Before(z), After(z)) < MidnightOnWall(d) < Max(Before(z), After(z))
  }

  function MidnightOnWall(d: int): int {
    d * DAY
  }

  /** No change puts the clock past a midnight. */
  ghost predicate Regular(z: Zone)
    decreases |z.changes|
  {
    Spaced(z) && (z.changes != [] ==> Regular(Earlier(z)) && !JumpsMidnight(z))
  }

  lemma {:induction false} OffsetsBounded(z: Zone, t: int)
    requires Spaced(z)
    ensures -DAY < OffsetAt(z, t) < DAY && -DAY < FinalOffset(z) < DAY
    decreases |z.changes|
  {
    if z.changes != [] { OffsetsBounded(Earlier(z), t); }
  }

  /** Until a change the wall clock has not shown what it shows at the change. */
  lemma NotShownBefore(z: Zone, t: int)
    requires Spaced(z) && z.changes != [] && t < Last(z).at
    ensures t + OffsetAt(z, t) < Before(z)
  {
    var e := Earlier(z);
    OffsetsBounded(e, t);
    if e.changes != [] && t < Last(e).at { OffsetsBounded(Earlier(e), t); }
  }

  /** A local day begins at its midnight. */
  lemma {:induction false} DayBeginsAtMidnight(z: Zone, d: int, t: int)
    requires Regular(z)
    ensures t + OffsetAt(z, t) >= MidnightOnWall(d) <==> t >= Midnight(z, d)
    decreases |z.changes|
  {
    if z.changes != [] {
      var wall := MidnightOnWall(d);
      if t < Last(z).at { NotShownBefore(z, t); }
      DayBeginsAtMidnight(Earlier(z), d, t);
      DayBeginsAtMidnight(Earlier(z), d, Last(z).at);
      AtChange(Earlier(z), Last(z).at);
    }
  }

  /** After the last change its offset stays. */
  lemma AtChange(z: Zone, t: int)
    requires z.changes != [] ==> t >= Last(z).at
    ensures OffsetAt(z, t) == FinalOffset(z)
  {}

  predicate Within(day: (int, int), t: int) {
    day.0 <= t < day.1
  }

  /** In a regular zone risk days do not overlap and leave no gap: the days of two instants are the
      same exactly when one lies in the day of the other. */
  lemma DaysPartitionTime(z: Zone, now: int, t: int)
    requires Regular(z)
    ensures Within(RiskDay(z, now), now)
    ensures Within(RiskDay(z, now), t) <==> LocalDay(z, t) == LocalDay(z, now)
    ensures Within(RiskDay(z, now), t) <==> RiskDay(z, t) == RiskDay(z, now)
  {
    var d := LocalDay(z, now);
    DayBeginsAtMidnight(z, d, now);
    DayBeginsAtMidnight(z, d + 1, now);
    DayBeginsAtMidnight(z, d, t);
    DayBeginsAtMidnight(z, d + 1, t);
    DayBeginsAtMidnight(z, LocalDay(z, t), t);
    DayBeginsAtMidnight(z, LocalDay(z, t) + 1, t);
  }

  lemma BackAcrossMidnight(z: Zone, d: int)
    requires Spaced(z) && z.changes != [] && Regular(Earlier(z))
    requires After(z) < MidnightOnWall(d) < Before(z)
    ensures !Within(RiskDay(z, Last(z).at), Last(z).at)
  {
    var at, day := Last(z).at, LocalDay(z, Last(z).at);
    AtChange(Earlier(z), at);
    DayBeginsAtMidnight(Earlier(z), day + 1, at);
    assert MidnightOnWall(day + 1) <= MidnightOnWall(d);
  }

  lemma OntoSkippedDay(z: Zone, d: int, day: int)
    requires Spaced(z) && z.changes != [] && Regular(Earlier(z))
    requires Before(z) < MidnightOnWall(d) < After(z)
    requires day == (Before(z) - 1) / DAY && MidnightOnWall(day + 1) == Before(z)
    ensures !Within(RiskDay(z, Last(z).at), Last(z).at)
  {
    var at, next := Last(z).at, LocalDay(z, Last(z).at);
    AtChange(Earlier(z), at);
    OffsetsBounded(z, at);
    OffsetsBounded(Earlier(z), at);
    DayBeginsAtMidnight(Earlier(z), next, at);
    OneDaySkipped(Before(z), After(z), d, day);
  }

  lemma OneDaySkipped(before: int, after: int, d: int, day: int)
    requires before == (day + 1) * DAY && before < d * DAY < after < before + 2 * DAY
    ensures after / DAY == day + 2 && (day + 2) * DAY < after
  {
    assert d == day + 2;
  }

  lemma ForwardAcrossMidnight(z: Zone, d: int, day: int)
    requires Spaced(z) && z.changes != [] && Regular(Earlier(z))
    requires Before(z) < MidnightOnWall(d) < After(z)
    requires day == (Before(z) - 1) / DAY && MidnightOnWall(day + 1) != Before(z)
    ensures LocalDay(z, Last(z).at - 1) == day < LocalDay(z, Last(z).at)
    ensures Within(RiskDay(z, Last(z).at - 1), Last(z).at)
  {
    var at := Last(z).at;
    AtChange(Earlier(z), at);
    AtChange(Earlier(z), at - 1);
    DayBeginsAtMidnight(Earlier(z), day, at - 1);
    DayBeginsAtMidnight(Earlier(z), day + 1, at);
    assert MidnightOnWall(day + 1) <= MidnightOnWall(d);
  }

  /** The range at one instant disagrees with the local date of another, neither of them after the
      last change. */
  ghost predicate Disagree(z: Zone, now: int, t: int)
    requires z.changes != []
  {
    && !(Within(RiskDay(z, now), t) <==> LocalDay(z, t) == LocalDay(z, now))
    && now <= Last(z).at && t <= Last(z).at && MidnightOnWall(LocalDay(z, now) + 1) <= After(z) + DAY
  }

  /** The first change that puts the clock past a midnight leaves such instants. */
  lemma FirstJumpBreaksDays(z: Zone) returns (now: int, t: int)
    requires Spaced(z) && z.changes != [] && Regular(Earlier(z)) && JumpsMidnight(z)
    ensures Disagree(z, now, t)
  {
    var d: int :| Min(Before(z), After(z)) < MidnightOnWall(d) < Max(Before(z), After(z));
    var day := (Before(z) - 1) / DAY;
    now, t := Last(z).at, Last(z).at;
    AtChange(Earlier(z), t);
    if After(z) < Before(z) {
      BackAcrossMidnight(z, d);
    } else if MidnightOnWall(day + 1) == Before(z) {
      OntoSkippedDay(z, d, day);
    } else {
      now := t - 1;
      ForwardAcrossMidnight(z, d, day);
    }
  }

  /** A change more than two days later alters neither the dates nor the ranges. */
  lemma LaterChangeIsOutside(z: Zone, now: int, t: int)
    requires Spaced(z) && z.changes != [] && Earlier(z).changes != [] && Disagree(Earlier(z), now, t)
    ensures Disagree(z, now, t)
  {
    var e := Earlier(z);
    assert OffsetAt(z, now) == OffsetAt(e, now) && OffsetAt(z, t) == OffsetAt(e, t);
    var day := LocalDay(e, now);
    assert MidnightOnWall(day) < MidnightOnWall(day + 1) < Before(z) - DAY;
    assert RiskDay(z, now) == RiskDay(e, now);
  }

  /** A clock put past a midnight leaves such instants, whatever changes come before or after. */
  lemma {:induction false} JumpBreaksDays(z: Zone) returns (now: int, t: int)
    requires Spaced(z) && !Regular(z)
    ensures z.changes != [] && Disagree(z, now, t)
    decreases |z.changes|
  {
    if Regular(Earlier(z)) {
      now, t := FirstJumpBreaksDays(z);
    } else {
      now, t := JumpBreaksDays(Earlier(z));
      LaterChangeIsOutside(z, now, t);
    }
  }

  /** Risk days are the local days for all instants exactly if no change jumps a midnight. */
  lemma PartitionExactlyWhen(z: Zone)
    requires Spaced(z)
    ensures (forall now, t :: Within(RiskDay(z, now), t) <==> LocalDay(z, t) == LocalDay(z, now)) <==> Regular(z)
  {
    if Regular(z) {
      forall now, t ensures Within(RiskDay(z, now), t) <==> LocalDay(z, t) == LocalDay(z, now) {
        DaysPartitionTime(z, now, t);
      }
    } else {
      var now, t := JumpBreaksDays(z);
    }
  }

  /** A day on which clocks go forward at two in the morning is an hour short. */
  lemma ShortDay(offset: int, at: int, day: int)
    requires -DAY < offset < DAY - HOUR && at + offset == day * DAY + 2 * HOUR
    ensures var z := Zone(offset, [Change(at, offset + HOUR)]);
            Regular(z) && RiskDay(z, at).1 - RiskDay(z, at).0 == DAY - HOUR
  {
    var z := Zone(offset, [Change(at, offset + HOUR)]);
    assert Earlier(z).changes == [] && Before(z) == day * DAY + 2 * HOUR && After(z) == day * DAY + 3 * HOUR;
    forall d: int ensures !(Before(z) < MidnightOnWall(d) < After(z)) {
      NoMidnightBetween(day, d);
    }
    assert Midnight(z, day) == day * DAY - offset && Midnight(z, day + 1) == (day + 1) * DAY - offset - HOUR;
  }

  /** A clock that goes from 00:01 back to 23:01 jumps it. */
  lemma JumpsBack(offset: int, at: int, day: int)
    requires HOUR - DAY < offset < DAY && at + offset == day * DAY + MINUTE
    ensures var z := Zone(offset, [Change(at, offset - HOUR)]); Spaced(z) && !Regular(z)
  {
    var z := Zone(offset, [Change(at, offset - HOUR)]);
    assert Earlier(z).changes == [] && After(z) < MidnightOnWall(day) < Before(z);
  }

  lemma NoMidnightBetween(day: int, d: int)
    ensures !(day * DAY + 2 * HOUR < d * DAY < day * DAY + 3 * HOUR)
  {
    if d <= day {
      assert d * DAY <= day * DAY;
    } else {
      assert d * DAY >= (day + 1) * DAY;
    }
  }

  const HOUR := 3_600_000_000
  const MINUTE := 60_000_000
}
