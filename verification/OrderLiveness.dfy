/** When an order can be matched at all: the opposite side has to be sortable, and then there is a
    ranking of it. */
module OrderLiveness {
  import opened Options
  import opened OrderTypes
  import opened MatchingSpec
  import opened OrderModel
  import opened OrderInvariants
  import opened OrderTheorems

  /** At most one order rests on the opposite side, or all that rest there have a price. */
  ghost predicate Sortable(orders: seq<Order>, id: nat)
    requires id < |orders|
  {
    forall i, j ::
      0 <= i < |orders| && 0 <= j < |orders| && i != j && Resting(orders, id, i) && Resting(orders, id, j) ==>
        orders[i].limit.Some?
  }

  /** Row a goes before row b: a better price for the incoming order, or the same and older. */
  predicate Goes(orders: seq<Order>, id: nat, a: nat, b: nat)
    requires id < |orders| && a < |orders| && b < |orders| && orders[a].limit.Some? && orders[b].limit.Some?
  {
    if orders[a].limit == orders[b].limit then orders[a].createdAt < orders[b].createdAt
    else if orders[id].side.Buy? then orders[a].limit.value < orders[b].limit.value
    else orders[a].limit.value > orders[b].limit.value
  }

  /** A ranking of the resting rows among the first n. */
  ghost predicate RankedUpTo(orders: seq<Order>, id: nat, n: nat, candidates: seq<nat>)
    requires id < |orders| && n <= |orders|
  {
    && (forall i :: 0 <= i < |candidates| ==> candidates[i] < n && Resting(orders, id, candidates[i]))
    && (forall i, j :: 0 <= i < j < |candidates| ==> candidates[i] != candidates[j])
    && (forall j :: 0 <= j < n && Resting(orders, id, j) ==> j in candidates)
    && (forall i :: 0 <= i < |candidates| ==> orders[candidates[i]].limit.Some?)
    && (forall i, j :: 0 <= i < j < |candidates| ==> !Goes(orders, id, candidates[j], candidates[i]))
  }

  /** The place for row x: behind everything it does not go before. */
  lemma Place(orders: seq<Order>, id: nat, n: nat, candidates: seq<nat>, x: nat) returns (k: nat)
    requires id < |orders| && n <= |orders| && RankedUpTo(orders, id, n, candidates)
    requires x < |orders| && orders[x].limit.Some?
    ensures k <= |candidates|
    ensures forall i :: 0 <= i < k ==> !Goes(orders, id, x, candidates[i])
    ensures forall i :: k <= i < |candidates| ==> !Goes(orders, id, candidates[i], x)
  {
    k := |candidates|;
    while k > 0 && Goes(orders, id, x, candidates[k - 1])
      invariant 0 <= k <= |candidates|
      invariant forall i :: k <= i < |candidates| ==> !Goes(orders, id, candidates[i], x)
    {
      k := k - 1;
    }
    forall i | 0 <= i < k ensures !Goes(orders, id, x, candidates[i]) {
      if i < k - 1 { assert !Goes(orders, id, candidates[k - 1], candidates[i]); }
    }
  }

  function InsertAt(candidates: seq<nat>, k: nat, x: nat): (r: seq<nat>)
    requires k <= |candidates|
    ensures |r| == |candidates| + 1
    ensures forall i :: 0 <= i < |r| ==>
              r[i] == if i < k then candidates[i] else if i == k then x else candidates[i - 1]
  {
    candidates[..k] + [x] + candidates[k..]
  }

  lemma InsertMembers(orders: seq<Order>, id: nat, n: nat, candidates: seq<nat>, k: nat)
    requires id < |orders| && n < |orders| && k <= |candidates| && RankedUpTo(orders, id, n, candidates)
    ensures forall j :: 0 <= j < n + 1 && Resting(orders, id, j) ==> j in InsertAt(candidates, k, n)
  {}

  lemma InsertRanks(orders: seq<Order>, id: nat, n: nat, candidates: seq<nat>, k: nat)
    requires id < |orders| && n < |orders| && k <= |candidates| && RankedUpTo(orders, id, n, candidates)
    requires orders[n].limit.Some?
    requires forall i :: 0 <= i < k ==> !Goes(orders, id, n, candidates[i])
    requires forall i :: k <= i < |candidates| ==> !Goes(orders, id, candidates[i], n)
    ensures var r := InsertAt(candidates, k, n);
            && (forall i :: 0 <= i < |r| ==> r[i] < |orders| && orders[r[i]].limit.Some?)
            && (forall i, j :: 0 <= i < j < |r| ==> r[i] != r[j] && !Goes(orders, id, r[j], r[i]))
  {}

  lemma RankedOneMore(orders: seq<Order>, id: nat, n: nat, candidates: seq<nat>) returns (r: seq<nat>)
    requires id < |orders| && n < |orders| && RankedUpTo(orders, id, n, candidates)
    requires Resting(orders, id, n) && orders[n].limit.Some?
    ensures RankedUpTo(orders, id, n + 1, r)
  {
    var k := Place(orders, id, n, candidates, n);
    r := InsertAt(candidates, k, n);
    InsertMembers(orders, id, n, candidates, k);
    InsertRanks(orders, id, n, candidates, k);
  }

  lemma {:induction false} PricedSideRanks(orders: seq<Order>, id: nat, n: nat) returns (candidates: seq<nat>)
    requires id < |orders| && n <= |orders|
    requires forall j :: 0 <= j < |orders| && Resting(orders, id, j) ==> orders[j].limit.Some?
    ensures RankedUpTo(orders, id, n, candidates)
  {
    candidates := [];
    if n > 0 {
      candidates := PricedSideRanks(orders, id, n - 1);
      if Resting(orders, id, n - 1) { candidates := RankedOneMore(orders, id, n - 1, candidates); }
    }
  }

  lemma RankedIsBook(orders: seq<Order>, id: nat, candidates: seq<nat>)
    requires id < |orders| && RankedUpTo(orders, id, |orders|, candidates)
    ensures Book(orders, id, candidates)
  {}

  lemma SortableHasBook(orders: seq<Order>, id: nat) returns (candidates: seq<nat>)
    requires id < |orders| && Sortable(orders, id)
    ensures Book(orders, id, candidates)
  {
    if j :| 0 <= j < |orders| && Resting(orders, id, j) && orders[j].limit.None? {
      candidates := [j];
    } else {
      candidates := PricedSideRanks(orders, id, |orders|);
      RankedIsBook(orders, id, candidates);
    }
  }

  /** An order can be matched exactly when the opposite side can be sorted.  One amendment that
      drops a price is enough to stop all matching against a side with another order on it. */
  lemma MatchableExactlyWhen(orders: seq<Order>, id: nat)
    requires id < |orders|
    ensures (exists candidates :: Book(orders, id, candidates)) <==> Sortable(orders, id)
  {
    if Sortable(orders, id) {
      var candidates := SortableHasBook(orders, id);
    }
    forall candidates | Book(orders, id, candidates) ensures Sortable(orders, id) {
      BookIsSortable(orders, id, candidates);
    }
  }

  lemma BookIsSortable(orders: seq<Order>, id: nat, candidates: seq<nat>)
    requires id < |orders| && Book(orders, id, candidates)
    ensures Sortable(orders, id)
  {
    forall i, j | 0 <= i < |orders| && 0 <= j < |orders| && i != j && Resting(orders, id, i) && Resting(orders, id, j)
      ensures orders[i].limit.Some?
    {
      var a :| 0 <= a < |candidates| && candidates[a] == i;
      var b :| 0 <= b < |candidates| && candidates[b] == j;
      var makers := MakersOf(orders, candidates);
      PairIsPriced(TakerOf(orders[id]), makers, a, b);
      assert makers[a].price == orders[i].limit;
    }
  }

  lemma PairIsPriced(t: Taker, makers: seq<Maker>, a: nat, b: nat)
    requires PriceRanked(t, makers) && a < |makers| && b < |makers| && a != b
    ensures makers[a].price.Some? && makers[b].price.Some?
  {}

  /** In a table of orders as they were submitted, every match goes through: the side can be
      ranked, and no execution is stored at a price the table refuses. */
  lemma UnamendedMatches(orders: seq<Order>, id: nat) returns (candidates: seq<nat>)
    requires id < |orders| && forall j :: 0 <= j < |orders| ==> Unamended(orders[j])
    ensures Book(orders, id, candidates) && Commits(orders, id, candidates)
  {
    forall j | 0 <= j < |orders| && Resting(orders, id, j) ensures Positive(orders[j].limit) {
      assert Unamended(orders[j]);
    }
    candidates := SortableHasBook(orders, id);
    forall i | 0 <= i < |candidates| ensures Positive(MakersOf(orders, candidates)[i].price) {
      assert Resting(orders, id, candidates[i]);
    }
  }

  /** The same step with another ranking of the book. */
  function Ranking(a: Action, candidates: seq<nat>): Action {
    match a
    case Submit(r, riskEnabled, dayExpiry, now, _) => Submit(r, riskEnabled, dayExpiry, now, candidates)
    case Decide(id, decision, _) => Decide(id, decision, candidates)
    case Trigger(id, referencePrice, _) => Trigger(id, referencePrice, candidates)
    case _ => a
  }

  lemma RankingOnly(s: State, a: Action, candidates: seq<nat>)
    ensures var b := Ranking(a, candidates);
            && Guard(s, b) == Guard(s, a) && Prepared(s, b) == Prepared(s, a) && ToMatch(s, b) == ToMatch(s, a)
            && (ToMatch(s, a).Some? ==> CandidatesOf(b) == candidates)
  {}

  /** Without amendments nothing but its guard can stop a step: in every reached state, each step
      whose guard holds goes through, including the match it makes. */
  lemma NeverStuck(acts: seq<Action>, a: Action) returns (candidates: seq<nat>)
    requires (forall k :: 0 <= k < |acts| ==> !acts[k].Amend?) && !a.Amend?
    requires Guard(Run(EMPTY, acts), a)
    ensures Enabled(Run(EMPTY, acts), Ranking(a, candidates))
  {
    var s := Run(EMPTY, acts);
    candidates := [];
    if ToMatch(s, a).Some? {
      RunUnamended(EMPTY, acts);
      RunKeeps(EMPTY, acts);
      PreparedKeeps(s, a);
      PreparedUnamended(s, a, Prepared(s, a));
      candidates := UnamendedMatches(Prepared(s, a).orders, ToMatch(s, a).value);
    }
    RankingOnly(s, a, candidates);
  }
}
