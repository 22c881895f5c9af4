/** What the normal form of an event is, whatever blanks and letter case it came with. */
module LedgerNormal {
  import opened Options
  import opened LedgerModel
  import opened LedgerTheorems

  predicate Blank(s: string) {
    forall i :: 0 <= i < |s| ==> IsSpace(s[i])
  }

  /** The text with blanks around it. */
  ghost predicate Padded(core: string, s: string) {
    exists left, right :: Blank(left) && Blank(right) && s == left + core + right
  }

  // ----- trimming -----

  lemma {:induction false} TrimLeftSkips(left: string, s: string)
    requires Blank(left)
    ensures TrimLeft(left + s) == TrimLeft(s)
    decreases left
  {
    if left == "" {
      assert left + s == s;
    } else {
      assert (left + s)[0] == left[0] && (left + s)[1..] == left[1..] + s;
      TrimLeftSkips(left[1..], s);
    }
  }

  lemma {:induction false} TrimRightSkips(s: string, right: string)
    requires Blank(right)
    ensures TrimRight(s + right) == TrimRight(s)
    decreases right
  {
    if right == "" {
      assert s + right == s;
    } else {
      var n := |right| - 1;
      assert (s + right)[|s + right| - 1] == right[n] && (s + right)[..|s + right| - 1] == s + right[..n];
      TrimRightSkips(s, right[..n]);
    }
  }

  lemma {:induction false} TrimLeftOfText(s: string, right: string)
    requires !Blank(s)
    ensures TrimLeft(s + right) == TrimLeft(s) + right
    decreases s
  {
    if IsSpace(s[0]) {
      assert (s + right)[0] == s[0] && (s + right)[1..] == s[1..] + right;
      var i :| 0 <= i < |s| && !IsSpace(s[i]);
      assert s[1..][i - 1] == s[i];
      TrimLeftOfText(s[1..], right);
    }
  }

  lemma BlankIsNothing(s: string)
    requires Blank(s)
    ensures Trim(s) == ""
  {
    TrimLeftSkips(s, "");
    assert s + "" == s;
  }

  /** Blanks around a text do not matter. */
  lemma TrimPadded(core: string, s: string)
    requires Padded(core, s)
    ensures Trim(s) == Trim(core)
  {
    var left, right :| Blank(left) && Blank(right) && s == left + core + right;
    assert left + core + right == left + (core + right);
    TrimLeftSkips(left, core + right);
    if Blank(core) {
      BlankIsNothing(core);
      TrimLeftSkips(core, right);
      TrimLeftSkips(right, "");
      assert right + "" == right;
    } else {
      TrimLeftOfText(core, right);
      TrimRightSkips(TrimLeft(core), right);
    }
  }

  /** A text is its trimmed form with blanks around it, and the trimmed form has none at its ends. */
  lemma TrimmedExactly(s: string)
    ensures Padded(Trim(s), s)
    ensures Trim(s) != "" ==> !IsSpace(Trim(s)[0]) && !IsSpace(Trim(s)[|Trim(s)| - 1])
  {
    Trimmed(s);
    var left := LeftBlanks(s);
    var right := RightBlanks(TrimLeft(s));
    assert s == left + Trim(s) + right;
  }

  lemma {:induction false} LeftBlanks(s: string) returns (left: string)
    ensures Blank(left) && s == left + TrimLeft(s)
  {
    left := "";
    if s != "" && IsSpace(s[0]) {
      var rest := LeftBlanks(s[1..]);
      left := [s[0]] + rest;
    }
  }

  lemma {:induction false} RightBlanks(s: string) returns (right: string)
    ensures Blank(right) && s == TrimRight(s) + right
  {
    right := "";
    if s != "" && IsSpace(s[|s| - 1]) {
      var rest := RightBlanks(s[..|s| - 1]);
      right := rest + [s[|s| - 1]];
    }
  }

  // ----- letter case -----

  /** The same character, or a letter and its other case. */
  predicate SameLetter(x: char, y: char) {
    || x == y
    || ('a' <= x <= 'z' && y as int == x as int - 32)
    || ('A' <= x <= 'Z' && y as int == x as int + 32)
  }

  predicate SameText(s: string, t: string) {
    |s| == |t| && forall i :: 0 <= i < |s| ==> SameLetter(s[i], t[i])
  }

  /** In upper case a text is the same text, has no small letter, and is the same for every case. */
  lemma UpperExactly(s: string, t: string)
    requires SameText(s, t)
    ensures Upper(s) == Upper(t) && SameText(s, Upper(s))
    ensures forall i :: 0 <= i < |s| ==> !('a' <= Upper(s)[i] <= 'z')
  {}

  lemma {:induction false} TrimLeftOfSame(s: string, t: string)
    requires SameText(s, t)
    ensures SameText(TrimLeft(s), TrimLeft(t))
  {
    if s != "" && IsSpace(s[0]) { TrimLeftOfSame(s[1..], t[1..]); }
  }

  lemma {:induction false} TrimRightOfSame(s: string, t: string)
    requires SameText(s, t)
    ensures SameText(TrimRight(s), TrimRight(t))
  {
    if s != "" && IsSpace(s[|s| - 1]) { TrimRightOfSame(s[..|s| - 1], t[..|t| - 1]); }
  }

  /** Blanks around it and letter case do not matter. */
  ghost predicate PaddedText(s: string, t: string) {
    exists core :: SameText(s, core) && Padded(core, t)
  }

  lemma UpperPadded(s: string, t: string)
    requires PaddedText(s, t)
    ensures Upper(Trim(t)) == Upper(Trim(s))
  {
    var core :| SameText(s, core) && Padded(core, t);
    TrimPadded(core, t);
    TrimLeftOfSame(s, core);
    TrimRightOfSame(TrimLeft(s), TrimLeft(core));
    UpperExactly(Trim(s), Trim(core));
  }

  // ----- the normal form -----

  /** The same event, with blanks around its texts and its symbol and currency in any case. */
  ghost predicate SameEvent(a: Trade, b: Trade) {
    && Padded(a.version, b.version) && Padded(a.tenant, b.tenant) && Padded(a.execution, b.execution)
    && Padded(a.buyOrder, b.buyOrder) && Padded(a.sellOrder, b.sellOrder)
    && Padded(a.buyer, b.buyer) && Padded(a.seller, b.seller)
    && PaddedText(a.symbol, b.symbol) && PaddedText(a.currency, b.currency)
    && b.eventId == a.eventId && b.trade == a.trade && b.quantity == a.quantity && b.price == a.price
    && b.occurredAt == a.occurredAt
  }

  /** Events that differ in blanks and case only have one normal form, and are the same delivery. */
  lemma SameEventSameForm(a: Trade, b: Trade, l: Ledger, initialCash: real)
    requires SameEvent(a, b)
    ensures Normal(a) == Normal(b) && Deliver(l, a, initialCash) == Deliver(l, b, initialCash)
  {
    TrimPadded(a.version, b.version);
    TrimPadded(a.tenant, b.tenant);
    TrimPadded(a.execution, b.execution);
    TrimPadded(a.buyOrder, b.buyOrder);
    TrimPadded(a.sellOrder, b.sellOrder);
    TrimPadded(a.buyer, b.buyer);
    TrimPadded(a.seller, b.seller);
    UpperPadded(a.symbol, b.symbol);
    UpperPadded(a.currency, b.currency);
  }

  /** The normal form has no blanks around its texts and no small letters in symbol and currency, and
      is the same event; a missing version is 1.0 and a missing currency USD. */
  lemma NormalExactly(t: Trade)
    ensures var n := Normal(t);
            && Padded(n.tenant, t.tenant) && Padded(n.execution, t.execution)
            && Padded(n.buyOrder, t.buyOrder) && Padded(n.sellOrder, t.sellOrder)
            && Padded(n.buyer, t.buyer) && Padded(n.seller, t.seller) && PaddedText(n.symbol, t.symbol)
            && (if Blank(t.version) then n.version == "1.0" else Padded(n.version, t.version))
            && (if Blank(t.currency) then n.currency == "USD" else PaddedText(n.currency, t.currency))
            && n.eventId == t.eventId && n.trade == t.trade && n.quantity == t.quantity && n.price == t.price
            && n.occurredAt == t.occurredAt
            && forall i :: 0 <= i < |n.symbol| ==> !('a' <= n.symbol[i] <= 'z')
  {
    TrimmedExactly(t.tenant); TrimmedExactly(t.execution); TrimmedExactly(t.version);
    TrimmedExactly(t.buyOrder); TrimmedExactly(t.sellOrder); TrimmedExactly(t.buyer); TrimmedExactly(t.seller);
    NormalText(t.symbol);
    NormalText(t.currency);
    BlankExactly(t.version);
    BlankExactly(t.currency);
  }

  lemma NormalText(s: string)
    ensures PaddedText(Upper(Trim(s)), s)
    ensures forall i :: 0 <= i < |Upper(Trim(s))| ==> !('a' <= Upper(Trim(s))[i] <= 'z')
  {
    TrimmedExactly(s);
    UpperExactly(Trim(s), Trim(s));
    assert SameText(Upper(Trim(s)), Trim(s));
  }

  lemma BlankExactly(s: string)
    ensures Trim(s) == "" <==> Blank(s)
    ensures Upper(Trim(s)) == "" <==> Blank(s)
  {
    if Blank(s) {
      BlankIsNothing(s);
    } else {
      TrimmedExactly(s);
    }
  }

  // ----- what can be booked -----

  /** White space, by code point. */
  lemma SpaceExactly(c: char)
    ensures IsSpace(c) <==>
              || c as int in {9, 10, 11, 12, 13, 32, 133, 160, 5760, 8232, 8233, 8239, 8287, 12288}
              || 8192 <= c as int <= 8202
  {}

  /** An event in normal form can be booked unless something is wrong with it. */
  lemma AcceptableExactly(n: Trade)
    ensures !Acceptable(n) <==>
              || n.version !in {"1", "1.0"} || n.currency != "USD" || n.occurredAt.None?
              || "" in {n.eventId, n.tenant, n.execution, n.buyOrder, n.sellOrder}
              || "" in {n.buyer, n.seller, n.symbol}
              || n.buyOrder == n.sellOrder || n.buyer == n.seller || n.quantity <= 0.0 || n.price <= 0.0
  {}
}
