/** The answer to a query with a condition, an order and a limit: the first rows by a key, then
    by their number. */
module Selection {
  import opened Options

  predicate NoDuplicates(ids: seq<nat>) {
    forall i, j :: 0 <= i < j < |ids| ==> ids[i] != ids[j]
  }

  predicate Precedes(key: nat -> int, a: nat, b: nat) {
    key(a) < key(b) || (key(a) == key(b) && a < b)
  }

  /** The ids fit the condition, stand in order, and come before everything left out that fits. */
  ghost predicate Leading(fit: nat -> bool, key: nat -> int, ids: seq<nat>) {
    && (forall i :: 0 <= i < |ids| ==> fit(ids[i]))
    && (forall i, j :: 0 <= i < j < |ids| ==> Precedes(key, ids[i], ids[j]))
    && (forall i, r: nat :: 0 <= i < |ids| && fit(r) && r !in ids ==> Precedes(key, ids[i], r))
  }

  /** As many leading rows as there are, up to the limit. */
  ghost predicate Selected(fit: nat -> bool, key: nat -> int, limit: nat, ids: seq<nat>) {
    && Leading(fit, key, ids)
    && |ids| <= limit
    && (|ids| < limit ==> forall r: nat :: fit(r) ==> r in ids)
  }

  /** `Selected` determines the answer. */
  lemma SelectedUnique(fit: nat -> bool, key: nat -> int, limit: nat, xs: seq<nat>, ys: seq<nat>)
    requires Selected(fit, key, limit, xs) && Selected(fit, key, limit, ys)
    ensures xs == ys
  {
    var extraY := if |xs| < |ys| then ys[|xs|] else 0;
    var extraX := if |ys| < |xs| then xs[|ys|] else 0;
    LeadingAgree(fit, key, xs, ys);
  }

  lemma NthComesFirst(fit: nat -> bool, key: nat -> int, xs: seq<nat>, n: nat, r: nat)
    requires Leading(fit, key, xs) && n < |xs| && fit(r) && r !in xs[..n]
    ensures xs[n] == r || Precedes(key, xs[n], r)
  {}

  lemma LeadingAgree(fit: nat -> bool, key: nat -> int, xs: seq<nat>, ys: seq<nat>)
    requires Leading(fit, key, xs) && Leading(fit, key, ys)
    ensures forall i :: 0 <= i < |xs| && i < |ys| ==> xs[i] == ys[i]
  {
    var n := 0;
    while n < |xs| && n < |ys|
      invariant 0 <= n <= |xs| && n <= |ys|
      invariant forall i :: 0 <= i < n ==> xs[i] == ys[i]
    {
      assert forall i :: 0 <= i < n ==> xs[..n][i] != ys[n] && ys[..n][i] != xs[n];
      NthComesFirst(fit, key, xs, n, ys[n]);
      NthComesFirst(fit, key, ys, n, xs[n]);
      n := n + 1;
    }
  }

  /** The first row that fits and has not been taken yet. */
  method SelectNext(fit: nat -> bool, key: nat -> int, rows: nat, taken: seq<nat>) returns (next: Option<nat>)
    requires forall r: nat :: fit(r) ==> r < rows
    ensures next.None? ==> forall r: nat :: fit(r) ==> r in taken
    ensures next.Some? ==>
      && fit(next.value) && next.value !in taken
      && forall r: nat :: fit(r) && r !in taken && r != next.value ==> Precedes(key, next.value, r)
  {
    next := None;
    for i := 0 to rows
      invariant next.None? ==> forall r: nat :: r < i && fit(r) ==> r in taken
      invariant next.Some? ==>
        && next.value < i && fit(next.value) && next.value !in taken
        && forall r: nat :: r < i && fit(r) && r !in taken && r != next.value ==> Precedes(key, next.value, r)
    {
      if fit(i) && i !in taken && (next.None? || key(i) < key(next.value)) {
        next := Some(i);
      }
    }
  }

  /** The query. */
  method SelectFirst(fit: nat -> bool, key: nat -> int, rows: nat, limit: nat) returns (ids: seq<nat>)
    requires forall r: nat :: fit(r) ==> r < rows
    ensures Selected(fit, key, limit, ids)
  {
    ids := [];
    var exhausted := false;
    while |ids| < limit && !exhausted
      invariant |ids| <= limit && Leading(fit, key, ids)
      invariant exhausted ==> forall r: nat :: fit(r) ==> r in ids
      decreases limit - |ids|, !exhausted
    {
      var next := SelectNext(fit, key, rows, ids);
      if next.None? { exhausted := true; } else { ids := ids + [next.value]; }
    }
  }
}
