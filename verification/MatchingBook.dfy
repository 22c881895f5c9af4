/** The order book of one matching run: the resting orders split by side, each side stably
    sorted by price, then by age. */
module MatchingBook {
  import opened Options
  import opened OrderTypes

  /** An exact rational that several holders of a pointer share. */
  class Rat {
    var v: real

    constructor (v: real)
      ensures this.v == v
    {
      this.v := v;
    }

    method Add(x: Rat, y: Rat)
      modifies this
      ensures v == old(x.v) + old(y.v)
    {
      v := x.v + y.v;
    }

    method Sub(x: Rat, y: Rat)
      modifies this
      ensures v == old(x.v) - old(y.v)
    {
      v := x.v - y.v;
    }
  }

  /** Copying an order copies the pointers to its quantities.  A price is never written through,
      so it is a plain value; a nil price is None. */
  datatype Order = Order(
    id: nat,
    userID: string,
    side: Side,
    orderType: OrderType,
    tif: Option<TimeInForce>,
    limitPrice: Option<real>,
    createdAt: int,
    filled: Rat,
    remaining: Rat
  )

  ghost predicate Priced(s: seq<Order>) {
    forall i :: 0 <= i < |s| ==> s[i].limitPrice.Some?
  }

  /** Comparing prices dereferences them: a side of two or more orders needs all of them. */
  ghost predicate Sortable(s: seq<Order>) {
    |s| > 1 ==> Priced(s)
  }

  /** Strict priority of a over b within one side. */
  predicate Outranks(side: Side, a: Order, b: Order)
    requires a.limitPrice.Some? && b.limitPrice.Some?
  {
    if a.limitPrice.value == b.limitPrice.value then a.createdAt < b.createdAt
    else if side.Buy? then a.limitPrice.value > b.limitPrice.value
    else a.limitPrice.value < b.limitPrice.value
  }

  ghost predicate Ranked(side: Side, s: seq<Order>)
    requires Sortable(s)
  {
    forall i, j :: 0 <= i < j < |s| ==> !Outranks(side, s[j], s[i])
  }

  predicate HasKey(o: Order, price: real, at: int) {
    o.limitPrice == Some(price) && o.createdAt == at
  }

  function WithKey(s: seq<Order>, price: real, at: int): seq<Order> {
    if s == [] then []
    else WithKey(s[..|s| - 1], price, at) + (if HasKey(s[|s| - 1], price, at) then [s[|s| - 1]] else [])
  }

  ghost predicate SameKeys(xs: seq<Order>, ys: seq<Order>) {
    forall price, at :: WithKey(xs, price, at) == WithKey(ys, price, at)
  }

  /** A stable sort: ranked, and orders of equal priority stay in their original order. */
  ghost predicate StablySorted(side: Side, input: seq<Order>, output: seq<Order>) {
    && Sortable(input) && Sortable(output)
    && multiset(output) == multiset(input)
    && Ranked(side, output)
    && SameKeys(output, input)
  }

  // ----- what a stable sort is -----

  lemma {:induction false} WithKeyConcat(a: seq<Order>, b: seq<Order>, price: real, at: int)
    ensures WithKey(a + b, price, at) == WithKey(a, price, at) + WithKey(b, price, at)
  {
    if b == [] {
      assert a + b == a;
    } else {
      var n := |b| - 1;
      assert (a + b)[..|a + b| - 1] == a + b[..n];
      WithKeyConcat(a, b[..n], price, at);
    }
  }

  lemma {:induction false} WithKeyMembers(s: seq<Order>, price: real, at: int)
    ensures forall x <- WithKey(s, price, at) :: x in s && HasKey(x, price, at)
    ensures (exists x :: x in s && HasKey(x, price, at)) ==> WithKey(s, price, at) != []
    ensures WithKey(s, price, at) == [] <==> forall x <- s :: !HasKey(x, price, at)
  {
    if s != [] {
      var n := |s| - 1;
      WithKeyMembers(s[..n], price, at);
      assert s == s[..n] + [s[n]];
    }
  }

  lemma WithKeyHead(s: seq<Order>, price: real, at: int)
    requires s != []
    ensures WithKey(s, price, at) == (if HasKey(s[0], price, at) then [s[0]] else []) + WithKey(s[1..], price, at)
  {
    assert s == [s[0]] + s[1..];
    WithKeyConcat([s[0]], s[1..], price, at);
    assert [s[0]][..0] == [];
  }

  /** `StablySorted` determines its answer: the keyed subsequences and the ranking leave only one
      sequence. */
  lemma {:induction false} StableSortUnique(side: Side, xs: seq<Order>, ys: seq<Order>)
    requires Priced(xs) && Priced(ys) && Ranked(side, xs) && Ranked(side, ys) && SameKeys(xs, ys)
    ensures xs == ys
    decreases xs
  {
    if xs == [] {
      if ys != [] { var k := HeadOccurs(ys, xs); }
    } else {
      var k := HeadOccurs(xs, ys);
      HeadsAgree(side, xs, ys);
      TailsSameKeys(xs, ys);
      StableSortUnique(side, xs[1..], ys[1..]);
      assert xs == [xs[0]] + xs[1..] && ys == [ys[0]] + ys[1..];
    }
  }

  /** The first of both is the first of those with the best key. */
  lemma HeadsAgree(side: Side, xs: seq<Order>, ys: seq<Order>)
    requires xs != [] && ys != []
    requires Priced(xs) && Priced(ys) && Ranked(side, xs) && Ranked(side, ys) && SameKeys(xs, ys)
    ensures xs[0] == ys[0]
  {
    NothingOutranksHead(side, xs, ys);
    NothingOutranksHead(side, ys, xs);
    var price, at := xs[0].limitPrice.value, xs[0].createdAt;
    assert ys[0].limitPrice.value == price && ys[0].createdAt == at;
    WithKeyHead(xs, price, at);
    WithKeyHead(ys, price, at);
    assert WithKey(xs, price, at) == WithKey(ys, price, at);
    assert xs[0] == WithKey(xs, price, at)[0] == ys[0];
  }

  lemma TailsSameKeys(xs: seq<Order>, ys: seq<Order>)
    requires xs != [] && ys != [] && xs[0] == ys[0] && SameKeys(xs, ys)
    ensures SameKeys(xs[1..], ys[1..])
  {
    forall price, at ensures WithKey(xs[1..], price, at) == WithKey(ys[1..], price, at) {
      WithKeyHead(xs, price, at);
      WithKeyHead(ys, price, at);
      assert WithKey(xs, price, at) == WithKey(ys, price, at);
      var head := if HasKey(xs[0], price, at) then [xs[0]] else [];
      assert WithKey(xs[1..], price, at) == WithKey(xs, price, at)[|head|..];
      assert WithKey(ys[1..], price, at) == WithKey(ys, price, at)[|head|..];
    }
  }

  lemma HeadOccurs(xs: seq<Order>, ys: seq<Order>) returns (k: nat)
    requires xs != [] && xs[0].limitPrice.Some? && SameKeys(xs, ys)
    ensures k < |ys| && HasKey(ys[k], xs[0].limitPrice.value, xs[0].createdAt)
  {
    var price, at := xs[0].limitPrice.value, xs[0].createdAt;
    WithKeyMembers(xs, price, at);
    WithKeyMembers(ys, price, at);
    assert xs[0] in xs && HasKey(xs[0], price, at);
    assert WithKey(xs, price, at) == WithKey(ys, price, at);
    var z := WithKey(ys, price, at)[0];
    assert z in WithKey(ys, price, at);
    k :| 0 <= k < |ys| && ys[k] == z;
  }

  lemma NothingOutranksHead(side: Side, xs: seq<Order>, ys: seq<Order>)
    requires xs != [] && ys != [] && Priced(xs) && Priced(ys) && Ranked(side, xs) && SameKeys(ys, xs)
    ensures !Outranks(side, ys[0], xs[0])
  {
    var k := HeadOccurs(ys, xs);
    if k > 0 { assert !Outranks(side, xs[k], xs[0]); }
  }

  // ----- the sort and the book -----

  /** A stable insertion sort. */
  method StableSort(side: Side, s: seq<Order>) returns (r: seq<Order>)
    requires Sortable(s)
    ensures StablySorted(side, s, r)
  {
    r := [];
    if |s| <= 1 {
      r := s;
      return;
    }
    for i := 0 to |s|
      invariant |r| == i && multiset(r) == multiset(s[..i])
      invariant Priced(r) && Ranked(side, r)
      invariant SameKeys(r, s[..i])
    {
      var x := s[i];
      var j := |r|;
      while j > 0 && Outranks(side, x, r[j - 1])
        invariant 0 <= j <= |r|
        invariant forall k :: j <= k < |r| ==> Outranks(side, x, r[k])
      {
        j := j - 1;
      }
      InsertKeeps(side, s, i, r, j);
      r := r[..j] + [x] + r[j..];
    }
    assert s[..|s|] == s;
  }

  lemma InsertKeeps(side: Side, s: seq<Order>, i: nat, r: seq<Order>, j: nat)
    requires i < |s| && j <= |r| == i && multiset(r) == multiset(s[..i])
    requires s[i].limitPrice.Some? && Priced(r) && Ranked(side, r) && SameKeys(r, s[..i])
    requires forall k :: j <= k < |r| ==> Outranks(side, s[i], r[k])
    requires j > 0 ==> !Outranks(side, s[i], r[j - 1])
    ensures multiset(r[..j] + [s[i]] + r[j..]) == multiset(s[..i + 1])
    ensures Priced(r[..j] + [s[i]] + r[j..]) && Ranked(side, r[..j] + [s[i]] + r[j..])
    ensures SameKeys(r[..j] + [s[i]] + r[j..], s[..i + 1])
  {
    InsertMultiset(s, i, r, j);
    InsertRanked(side, r, j, s[i]);
    InsertSameKeys(side, s, i, r, j);
  }

  lemma InsertMultiset(s: seq<Order>, i: nat, r: seq<Order>, j: nat)
    requires i < |s| && j <= |r| && multiset(r) == multiset(s[..i])
    ensures multiset(r[..j] + [s[i]] + r[j..]) == multiset(s[..i + 1])
  {
    assert r == r[..j] + r[j..] && s[..i + 1] == s[..i] + [s[i]];
  }

  lemma InsertRanked(side: Side, r: seq<Order>, j: nat, x: Order)
    requires j <= |r| && x.limitPrice.Some? && Priced(r) && Ranked(side, r)
    requires forall k :: j <= k < |r| ==> Outranks(side, x, r[k])
    requires j > 0 ==> !Outranks(side, x, r[j - 1])
    ensures Priced(r[..j] + [x] + r[j..]) && Ranked(side, r[..j] + [x] + r[j..])
  {}

  lemma InsertSameKeys(side: Side, s: seq<Order>, i: nat, r: seq<Order>, j: nat)
    requires i < |s| && j <= |r| && SameKeys(r, s[..i])
    requires s[i].limitPrice.Some? && Priced(r)
    requires forall k :: j <= k < |r| ==> Outranks(side, s[i], r[k])
    ensures SameKeys(r[..j] + [s[i]] + r[j..], s[..i + 1])
  {
    var x := s[i];
    assert r == r[..j] + r[j..] && s[..i + 1] == s[..i] + [x];
    forall price, at ensures WithKey(r[..j] + [x] + r[j..], price, at) == WithKey(s[..i + 1], price, at) {
      WithKeyConcat(r[..j] + [x], r[j..], price, at);
      WithKeyConcat(r[..j], [x], price, at);
      WithKeyConcat(r[..j], r[j..], price, at);
      WithKeyConcat(s[..i], [x], price, at);
      assert WithKey(r, price, at) == WithKey(s[..i], price, at);
      assert [x][..0] == [];
      if HasKey(x, price, at) {
        NoKeyBehind(side, x, r[j..], price, at);
      }
    }
  }

  lemma NoKeyBehind(side: Side, x: Order, behind: seq<Order>, price: real, at: int)
    requires HasKey(x, price, at) && Priced(behind)
    requires forall k :: 0 <= k < |behind| ==> Outranks(side, x, behind[k])
    ensures WithKey(behind, price, at) == []
  {}

  function OfSide(s: seq<Order>, side: Side): seq<Order> {
    if s == [] then []
    else OfSide(s[..|s| - 1], side) + (if s[|s| - 1].side == side then [s[|s| - 1]] else [])
  }

  lemma {:induction false} OfSideMembers(s: seq<Order>, side: Side)
    ensures multiset(OfSide(s, side)) <= multiset(s)
    ensures forall x <- OfSide(s, side) :: x in s && x.side == side
  {
    if s != [] {
      var n := |s| - 1;
      OfSideMembers(s[..n], side);
      assert s == s[..n] + [s[n]];
    }
  }

  class Book {
    var bids: seq<Order>
    var asks: seq<Order>

    /** Splits and sorts; needs the prices of every side that has more than one order. */
    constructor (resting: seq<Order>)
      requires Sortable(OfSide(resting, Buy)) && Sortable(OfSide(resting, Sell))
      ensures StablySorted(Buy, OfSide(resting, Buy), bids)
      ensures StablySorted(Sell, OfSide(resting, Sell), asks)
    {
      bids, asks := [], [];
      new;
      for i := 0 to |resting|
        invariant bids == OfSide(resting[..i], Buy) && asks == OfSide(resting[..i], Sell)
      {
        assert resting[..i + 1][..i] == resting[..i];
        if resting[i].side.Buy? { bids := bids + [resting[i]]; } else { asks := asks + [resting[i]]; }
      }
      assert resting[..|resting|] == resting;
      Sort();
    }

    method Sort()
      requires Sortable(bids) && Sortable(asks)
      modifies this
      ensures StablySorted(Buy, old(bids), bids) && StablySorted(Sell, old(asks), asks)
    {
      bids := StableSort(Buy, bids);
      asks := StableSort(Sell, asks);
    }

    function RestingFor(side: Side): seq<Order>
      reads this
    {
      if side.Buy? then asks else bids
    }
  }
}
