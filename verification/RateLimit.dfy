/** The gateway's fixed-window rate limiter: one window per client, opened by the first request
    that finds none or an old one. */
module RateLimit {
  import opened Integers

  datatype Options = Options(windowMs: int, maxRequests: int)

  datatype Window = Window(count: nat, resetAt: int)

  type Clients = map<string, Window>

  datatype Request = Request(client: string, at: int)

  /** A request that opens a window is admitted whatever the limit. */
  predicate Opens(s: Clients, r: Request) {
    r.client !in s || s[r.client].resetAt <= r.at
  }

  predicate Admits(o: Options, s: Clients, r: Request) {
    Opens(s, r) || s[r.client].count + 1 <= o.maxRequests
  }

  function Next(o: Options, s: Clients, r: Request): Clients {
    s[r.client := if Opens(s, r) then Window(1, r.at + o.windowMs)
                  else Window(s[r.client].count + 1, s[r.client].resetAt)]
  }

  // ----- the middleware -----

  class RateLimiter {
    const options: Options
    var clients: Clients

    constructor (options: Options)
      ensures this.options == options && clients == map[]
    {
      this.options := options;
      clients := map[];
    }

    /** Admits the request or names the seconds to wait.  A client that waits that long is
        admitted, and one that waits a second less than that is still inside its window. */
    method Handle(r: Request) returns (admitted: bool, retryAfter: int)
      modifies this
      ensures admitted == Admits(options, old(clients), r)
      ensures clients == Next(options, old(clients), r)
      ensures !admitted ==> retryAfter >= 1
      ensures !admitted ==> forall later :: later >= r.at + 1000 * retryAfter ==>
                Opens(clients, Request(r.client, later))
      ensures !admitted ==> !Opens(clients, Request(r.client, r.at + 1000 * (retryAfter - 1)))
    {
      retryAfter := 0;
      if r.client !in clients || clients[r.client].resetAt <= r.at {
        clients := clients[r.client := Window(1, r.at + options.windowMs)];
        return true, 0;
      }
      clients := clients[r.client := clients[r.client].(count := clients[r.client].count + 1)];
      if clients[r.client].count <= options.maxRequests {
        return true, 0;
      }
      var seconds := CeilDiv(clients[r.client].resetAt - r.at, 1000);
      retryAfter := if seconds > 1 then seconds else 1;
      admitted := false;
    }
  }

  function CeilDiv(x: int, d: int): int
    requires d > 0
  {
    (x + d - 1) / d
  }

  // ----- traces -----

  /** The clock does not run backwards. */
  ghost predicate InOrder(trace: seq<Request>) {
    forall i, j :: 0 <= i < j < |trace| ==> trace[i].at <= trace[j].at
  }

  predicate Counted(r: Request, c: string, lo: int, hi: int) {
    r.client == c && lo <= r.at < hi
  }

  /** How many requests of client c are admitted from time lo until before time hi. */
  function Admitted(o: Options, s: Clients, trace: seq<Request>, c: string, lo: int, hi: int): nat
    decreases trace
  {
    if trace == [] then 0
    else
      var first := if Counted(trace[0], c, lo, hi) && Admits(o, s, trace[0]) then 1 else 0;
      first + Admitted(o, Next(o, s, trace[0]), trace[1..], c, lo, hi)
  }

  /** How many requests client c makes before time hi. */
  function Requested(trace: seq<Request>, c: string, hi: int): nat {
    if trace == [] then 0
    else (if trace[0].client == c && trace[0].at < hi then 1 else 0) + Requested(trace[1..], c, hi)
  }

  /** What a client may still send in its window. */
  function Left(o: Options, w: Window): nat {
    if o.maxRequests > w.count then o.maxRequests - w.count else 0
  }

  /** At least one request goes through a window. */
  function PerWindow(o: Options): nat {
    if o.maxRequests >= 1 then o.maxRequests else 1
  }

  /** Every window in use was opened by a request. */
  ghost predicate Opened(s: Clients) {
    forall c :: c in s ==> s[c].count >= 1
  }

  lemma {:induction false} NoneBefore(o: Options, s: Clients, trace: seq<Request>, c: string, lo: int, hi: int)
    requires forall i :: 0 <= i < |trace| ==> trace[i].at >= hi
    ensures Admitted(o, s, trace, c, lo, hi) == 0
    ensures Requested(trace, c, hi) == 0
    decreases trace
  {
    if trace != [] { NoneBefore(o, Next(o, s, trace[0]), trace[1..], c, lo, hi); }
  }

  /** Within an open window, requests are admitted first come first served until the limit: what
      is admitted is the smaller of what is asked and what is left. */
  lemma {:induction false} RestOfWindow(o: Options, s: Clients, trace: seq<Request>, c: string, lo: int)
    requires InOrder(trace) && c in s
    requires forall i :: 0 <= i < |trace| ==> lo <= trace[i].at
    ensures Admitted(o, s, trace, c, lo, s[c].resetAt) == Min(Requested(trace, c, s[c].resetAt), Left(o, s[c]))
    decreases trace
  {
    var hi := s[c].resetAt;
    if trace != [] {
      var t := Next(o, s, trace[0]);
      if trace[0].at >= hi {
        NoneBefore(o, s, trace, c, lo, hi);
      } else {
        RestOfWindow(o, t, trace[1..], c, lo);
      }
    }
  }

  /** The same for any part of the time up to the end of the window: no more than what is left. */
  lemma {:induction false} WindowBound(o: Options, s: Clients, trace: seq<Request>, c: string, lo: int, hi: int)
    requires InOrder(trace) && c in s && hi <= s[c].resetAt
    ensures Admitted(o, s, trace, c, lo, hi) <= Left(o, s[c])
    decreases trace
  {
    if trace != [] {
      if trace[0].at >= hi {
        NoneBefore(o, s, trace, c, lo, hi);
      } else {
        WindowBound(o, Next(o, s, trace[0]), trace[1..], c, lo, hi);
      }
    }
  }

  /** A window that ends inside the interval leaves room for one full window after it. */
  lemma {:induction false} OneMoreWindow(o: Options, s: Clients, trace: seq<Request>, c: string, lo: int)
    requires InOrder(trace) && c in s && lo < s[c].resetAt
    ensures Admitted(o, s, trace, c, lo, lo + o.windowMs) <= Left(o, s[c]) + PerWindow(o)
    decreases trace
  {
    var hi := lo + o.windowMs;
    if trace != [] {
      var t := Next(o, s, trace[0]);
      if trace[0].client == c && Opens(s, trace[0]) {
        WindowBound(o, t, trace[1..], c, lo, hi);
      } else {
        OneMoreWindow(o, t, trace[1..], c, lo);
      }
    }
  }

  /** In any half-open interval as long as the window, a client gets at most two full windows but
      for the request that opened the first. */
  lemma {:induction false} AnyInterval(o: Options, s: Clients, trace: seq<Request>, c: string, lo: int)
    requires InOrder(trace) && Opened(s)
    ensures Admitted(o, s, trace, c, lo, lo + o.windowMs) <= 2 * PerWindow(o) - 1
    decreases trace
  {
    var hi := lo + o.windowMs;
    if c in s && lo < s[c].resetAt {
      OneMoreWindow(o, s, trace, c, lo);
    } else if trace != [] {
      var t := Next(o, s, trace[0]);
      if trace[0].client == c && trace[0].at >= lo {
        WindowBound(o, t, trace[1..], c, lo, hi);
      } else {
        AnyInterval(o, t, trace[1..], c, lo);
      }
    }
  }

  /** From the start of the gateway, for every trace. */
  lemma AtMostTwice(o: Options, trace: seq<Request>, c: string, lo: int)
    requires InOrder(trace)
    ensures Admitted(o, map[], trace, c, lo, lo + o.windowMs) <= 2 * PerWindow(o) - 1
  {
    AnyInterval(o, map[], trace, c, lo);
  }

  // ----- the bound is reached -----

  function Repeat(r: Request, n: nat): (trace: seq<Request>)
    ensures |trace| == n && forall i :: 0 <= i < n ==> trace[i] == r
  {
    seq(n, _ => r)
  }

  function After(o: Options, s: Clients, trace: seq<Request>): Clients
    decreases trace
  {
    if trace == [] then s else After(o, Next(o, s, trace[0]), trace[1..])
  }

  lemma {:induction false} AdmittedConcat(
      o: Options, s: Clients, xs: seq<Request>, ys: seq<Request>, c: string, lo: int, hi: int)
    ensures Admitted(o, s, xs + ys, c, lo, hi)
         == Admitted(o, s, xs, c, lo, hi) + Admitted(o, After(o, s, xs), ys, c, lo, hi)
    decreases xs
  {
    if xs == [] {
      assert xs + ys == ys;
    } else {
      assert (xs + ys)[0] == xs[0] && (xs + ys)[1..] == xs[1..] + ys;
      AdmittedConcat(o, Next(o, s, xs[0]), xs[1..], ys, c, lo, hi);
    }
  }

  /** As many requests as are left in the window all get through. */
  lemma {:induction false} BurstAdmitted(o: Options, s: Clients, r: Request, n: nat, lo: int, hi: int)
    requires r.client in s && s[r.client].resetAt > r.at && lo <= r.at < hi && n <= Left(o, s[r.client])
    ensures Admitted(o, s, Repeat(r, n), r.client, lo, hi) == n
    ensures After(o, s, Repeat(r, n)) == s[r.client := Window(s[r.client].count + n, s[r.client].resetAt)]
    decreases n
  {
    if n > 0 {
      assert Repeat(r, n)[1..] == Repeat(r, n - 1);
      BurstAdmitted(o, Next(o, s, r), r, n - 1, lo, hi);
    } else {
      assert s[r.client := Window(s[r.client].count + n, s[r.client].resetAt)] == s;
    }
  }

  /** The worst trace: open a window, use up the rest of it at its very end, then use up the next. */
  function Worst(o: Options, c: string): seq<Request>
    requires o.maxRequests >= 1
  {
    [Request(c, 0)] + (Repeat(Request(c, o.windowMs - 1), o.maxRequests - 1) + FullWindow(o, Request(c, o.windowMs)))
  }

  function FullWindow(o: Options, r: Request): seq<Request>
    requires o.maxRequests >= 1
  {
    [r] + Repeat(r, o.maxRequests - 1)
  }

  lemma FullWindowAdmitted(o: Options, s: Clients, r: Request, lo: int, hi: int)
    requires o.maxRequests >= 1 && o.windowMs >= 1 && Opens(s, r) && lo <= r.at < hi
    ensures Admitted(o, s, FullWindow(o, r), r.client, lo, hi) == o.maxRequests
  {
    AdmittedCons(o, s, r, Repeat(r, o.maxRequests - 1), r.client, lo, hi);
    BurstAdmitted(o, Next(o, s, r), r, o.maxRequests - 1, lo, hi);
  }

  lemma AdmittedCons(o: Options, s: Clients, r: Request, rest: seq<Request>, c: string, lo: int, hi: int)
    ensures Admitted(o, s, [r] + rest, c, lo, hi)
         == (if Counted(r, c, lo, hi) && Admits(o, s, r) then 1 else 0) + Admitted(o, Next(o, s, r), rest, c, lo, hi)
  {}

  lemma WorstInOrder(o: Options, c: string)
    requires o.maxRequests >= 1 && o.windowMs >= 2
    ensures InOrder(Worst(o, c))
  {}

  /** The bound cannot be lowered. */
  lemma BoundReached(o: Options, c: string)
    requires o.maxRequests >= 1 && o.windowMs >= 2
    ensures InOrder(Worst(o, c))
    ensures var lo := o.windowMs - 1; Admitted(o, map[], Worst(o, c), c, lo, lo + o.windowMs) == 2 * PerWindow(o) - 1
  {
    var w, m := o.windowMs, o.maxRequests;
    var lo, hi := w - 1, w - 1 + w;
    var early := Repeat(Request(c, w - 1), m - 1);
    var late := FullWindow(o, Request(c, w));
    WorstInOrder(o, c);
    var s1 := map[c := Window(1, w)];
    AdmittedCons(o, map[], Request(c, 0), early + late, c, lo, hi);
    AdmittedConcat(o, s1, early, late, c, lo, hi);
    BurstAdmitted(o, s1, Request(c, w - 1), m - 1, lo, hi);
    FullWindowAdmitted(o, s1[c := Window(m, w)], Request(c, w), lo, hi);
  }

  // ----- clients do not interfere -----

  function Only(trace: seq<Request>, c: string): seq<Request> {
    if trace == [] then [] else (if trace[0].client == c then [trace[0]] else []) + Only(trace[1..], c)
  }

  ghost predicate SameFor(s: Clients, t: Clients, c: string) {
    (c in s <==> c in t) && (c in s ==> s[c] == t[c])
  }

  /** Leaving out everybody else's requests changes nothing for a client. */
  lemma {:induction false} OthersDoNotMatter(
      o: Options, s: Clients, t: Clients, trace: seq<Request>, c: string, lo: int, hi: int)
    requires SameFor(s, t, c)
    ensures Admitted(o, s, trace, c, lo, hi) == Admitted(o, t, Only(trace, c), c, lo, hi)
    decreases trace
  {
    if trace != [] {
      if trace[0].client == c {
        assert Only(trace, c)[1..] == Only(trace[1..], c);
        OthersDoNotMatter(o, Next(o, s, trace[0]), Next(o, t, trace[0]), trace[1..], c, lo, hi);
      } else {
        assert Only(trace, c) == Only(trace[1..], c);
        OthersDoNotMatter(o, Next(o, s, trace[0]), t, trace[1..], c, lo, hi);
      }
    }
  }
}
