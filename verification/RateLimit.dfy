/** The token bucket (server/internal/reliability/ratelimit.go) over real-valued tokens and a clock
    that does not run backwards. */
module RateLimit {
  /** A request for `n` tokens at time `at`; a negative `n` hands tokens back. */
  datatype Request = Request(at: real, n: int)

  datatype Params = Params(rate: real, burst: int, start: real)

  predicate Proper(p: Params) {
    p.rate >= 0.0 && p.burst >= 0
  }

  datatype Bucket = Bucket(tokens: real, last: real)

  /** Tokens earned in a span of time. */
  function Earned(p: Params, span: real): real {
    span * p.rate
  }

  lemma EarnedIs(p: Params, span: real)
    ensures Earned(p, span) == span * p.rate
  {}

  lemma EarnedNothing(p: Params)
    ensures Earned(p, 0.0) == 0.0
  {}

  lemma EarnedNonNegative(p: Params, span: real)
    requires Proper(p) && span >= 0.0
    ensures Earned(p, span) >= 0.0
  {}

  lemma EarnedInParts(p: Params, from: real, mid: real, now: real)
    ensures Earned(p, now - from) == Earned(p, now - mid) + Earned(p, mid - from)
  {
    assert now - from == (now - mid) + (mid - from);
  }

  function Refilled(p: Params, b: Bucket, now: real): real {
    var t := b.tokens + Earned(p, now - b.last);
    if t > p.burst as real then p.burst as real else t
  }

  predicate Admits(p: Params, b: Bucket, r: Request) {
    Refilled(p, b, r.at) >= r.n as real
  }

  function Served(p: Params, b: Bucket, r: Request): Bucket {
    Bucket(Refilled(p, b, r.at) - (if Admits(p, b, r) then r.n as real else 0.0), r.at)
  }

  /** The bucket after a history of requests, starting full. */
  function After(p: Params, h: seq<Request>): Bucket {
    if h == [] then Bucket(p.burst as real, p.start) else Served(p, After(p, h[..|h| - 1]), h[|h| - 1])
  }

  predicate AdmittedAt(p: Params, h: seq<Request>, i: nat)
    requires i < |h|
  {
    Admits(p, After(p, h[..i]), h[i])
  }

  /** Tokens handed out from request `from` on, less those handed back. */
  function Admitted(p: Params, h: seq<Request>, from: nat): int
    decreases |h|
  {
    if |h| <= from then 0
    else Admitted(p, h[..|h| - 1], from) + if AdmittedAt(p, h, |h| - 1) then h[|h| - 1].n else 0
  }

  /** The clock does not run backwards. */
  predicate Orderly(p: Params, h: seq<Request>) {
    && (forall i :: 0 <= i < |h| ==> p.start <= h[i].at)
    && (forall i, j :: 0 <= i < j < |h| ==> h[i].at <= h[j].at)
  }

  /** What the limit `burst + rate * T` leaves free at time `now` in the window that opens with
      request `from`; the window that opens now is empty. */
  function Headroom(p: Params, h: seq<Request>, from: nat, now: real): real
    requires from <= |h|
  {
    p.burst as real - Admitted(p, h, from) as real + if from == |h| then 0.0 else (now - h[from].at) * p.rate
  }

  /** The clock has reached `now`. */
  predicate UpTo(p: Params, h: seq<Request>, now: real) {
    Proper(p) && Orderly(p, h) && if h == [] then p.start <= now else h[|h| - 1].at <= now
  }

  /** The level never falls below zero, and it is above `burst` at most right after tokens were handed
      back: the next call, whatever it asks for, caps it first. */
  lemma {:induction false} TokensInRange(p: Params, h: seq<Request>)
    requires Proper(p) && Orderly(p, h)
    ensures 0.0 <= After(p, h).tokens
    ensures h == [] || h[|h| - 1].n >= 0 ==> After(p, h).tokens <= p.burst as real
    ensures After(p, h).last == if h == [] then p.start else h[|h| - 1].at
    decreases |h|
  {
    hide Earned;
    if h != [] {
      var n := |h| - 1;
      TokensInRange(p, h[..n]);
      EarnedNonNegative(p, h[n].at - After(p, h[..n]).last);
    }
  }

  /** The same, through what is earned. */
  function Slack(p: Params, h: seq<Request>, from: nat, now: real): real
    requires from <= |h|
  {
    p.burst as real - Admitted(p, h, from) as real + if from == |h| then 0.0 else Earned(p, now - h[from].at)
  }

  lemma HeadroomIsSlack(p: Params, h: seq<Request>, from: nat, now: real)
    requires from <= |h|
    ensures Headroom(p, h, from, now) == Slack(p, h, from, now)
  {
    hide Admitted;
  }

  /** Appending a request charges it to every window that is open. */
  lemma ChargeLast(p: Params, h: seq<Request>, from: nat, now: real)
    requires UpTo(p, h, now) && h != [] && from < |h|
    ensures var t := h[|h| - 1].at;
            Slack(p, h, from, now) == Slack(p, h[..|h| - 1], from, t) + After(p, h).tokens
              - Refilled(p, After(p, h[..|h| - 1]), t) + Earned(p, now - t)
    ensures After(p, h).last == h[|h| - 1].at
  {
    hide Earned;
    var n := |h| - 1;
    EarnedNothing(p);
    EarnedInParts(p, h[from].at, h[n].at, now);
    hide Refilled;
  }

  lemma {:induction false} LevelBelowSlack(p: Params, h: seq<Request>, from: nat, now: real)
    requires UpTo(p, h, now) && from <= |h|
    ensures Refilled(p, After(p, h), now) <= Slack(p, h, from, now)
    decreases |h|
  {
    hide Earned, After;
    if from < |h| {
      LevelBelowSlack(p, h[..|h| - 1], from, h[|h| - 1].at);
      ChargeLast(p, h, from, now);
    }
  }

  lemma {:induction false} LevelIsSomeSlack(p: Params, h: seq<Request>, now: real) returns (from: nat)
    requires UpTo(p, h, now)
    ensures from <= |h| && Refilled(p, After(p, h), now) == Slack(p, h, from, now)
    decreases |h|
  {
    hide Earned;
    from := |h|;
    if h == [] {
      EarnedNonNegative(p, now - p.start);
    } else if Refilled(p, After(p, h), now) < p.burst as real {
      hide After;
      var w := LevelIsSomeSlack(p, h[..|h| - 1], h[|h| - 1].at);
      ChargeLast(p, h, w, now);
      from := w;
    }
  }

  /** The refilled level is the smallest headroom: never more than any window has left... */
  lemma LevelBelowHeadroom(p: Params, h: seq<Request>, from: nat, now: real)
    requires UpTo(p, h, now) && from <= |h|
    ensures Refilled(p, After(p, h), now) <= Headroom(p, h, from, now)
  {
    hide *;
    LevelBelowSlack(p, h, from, now);
    HeadroomIsSlack(p, h, from, now);
  }

  /** ... and exactly what some window has left. */
  lemma LevelIsSomeHeadroom(p: Params, h: seq<Request>, now: real) returns (from: nat)
    requires UpTo(p, h, now)
    ensures from <= |h| && Refilled(p, After(p, h), now) == Headroom(p, h, from, now)
  {
    hide *;
    from := LevelIsSomeSlack(p, h, now);
    HeadroomIsSlack(p, h, from, now);
  }

  /** A request is admitted exactly when admitting it keeps every window that ends with it within
      `burst + rate * T`. */
  lemma AdmittedIffWithinEveryWindow(p: Params, h: seq<Request>, r: Request)
    requires Proper(p) && Orderly(p, h + [r])
    ensures Admits(p, After(p, h), r) <==>
            forall from :: 0 <= from <= |h| ==> r.n as real <= Headroom(p, h, from, r.at)
  {
    assert forall i :: 0 <= i < |h| ==> (h + [r])[i] == h[i];
    assert (h + [r])[|h|] == r;
    forall from | 0 <= from <= |h| ensures Refilled(p, After(p, h), r.at) <= Headroom(p, h, from, r.at) {
      LevelBelowHeadroom(p, h, from, r.at);
    }
    var w := LevelIsSomeHeadroom(p, h, r.at);
    hide After, Refilled, Headroom;
  }

  /** The bound: in every history, the requests from `i` to the last one, which lie in the time
      window from `a` to `b`, get at most `burst + rate * (b - a)` tokens. */
  lemma WindowBound(p: Params, h: seq<Request>, i: nat, a: real, b: real)
    requires Proper(p) && Orderly(p, h) && i < |h| && a <= h[i].at && h[|h| - 1].at <= b
    ensures Admitted(p, h, i) as real <= p.burst as real + (b - a) * p.rate
  {
    hide *;
    WindowEarns(p, h, i, a, b);
    EarnedIs(p, b - a);
  }

  lemma WindowEarns(p: Params, h: seq<Request>, i: nat, a: real, b: real)
    requires Proper(p) && Orderly(p, h) && i < |h| && a <= h[i].at && h[|h| - 1].at <= b
    ensures Admitted(p, h, i) as real <= p.burst as real + Earned(p, b - a)
  {
    hide Earned, After;
    var from, to := h[i].at, h[|h| - 1].at;
    LevelBelowSlack(p, h, i, to);
    TokensInRange(p, h);
    EarnedNothing(p);
    EarnedInParts(p, a, from, b);
    EarnedInParts(p, from, to, b);
    EarnedNonNegative(p, from - a);
    EarnedNonNegative(p, b - to);
  }

  /* ---- handing tokens back ---- */

  /** Tokens taken by admitted requests from request `from` on. */
  function Taken(p: Params, h: seq<Request>, from: nat): nat
    decreases |h|
  {
    if |h| <= from then 0
    else
      var r := h[|h| - 1];
      Taken(p, h[..|h| - 1], from) + if r.n > 0 && AdmittedAt(p, h, |h| - 1) then r.n else 0
  }

  /** Tokens handed back from request `from` on. */
  function Returned(h: seq<Request>, from: nat): nat
    decreases |h|
  {
    if |h| <= from then 0
    else Returned(h[..|h| - 1], from) + if h[|h| - 1].n < 0 then -h[|h| - 1].n else 0
  }

  /** Handing back is never refused. */
  lemma {:induction false} AdmittedIsNet(p: Params, h: seq<Request>, from: nat)
    requires Proper(p) && Orderly(p, h)
    ensures Admitted(p, h, from) == Taken(p, h, from) - Returned(h, from)
    decreases |h|
  {
    hide Earned, After;
    if |h| > from {
      var n := |h| - 1;
      AdmittedIsNet(p, h[..n], from);
      TokensInRange(p, h[..n]);
      EarnedNonNegative(p, h[n].at - After(p, h[..n]).last);
    }
  }

  /** With tokens handed back, what is taken in a window is bounded by `burst + rate * T` and what was
      handed back in it. */
  lemma TakenBound(p: Params, h: seq<Request>, i: nat, a: real, b: real)
    requires Proper(p) && Orderly(p, h) && i < |h| && a <= h[i].at && h[|h| - 1].at <= b
    ensures Taken(p, h, i) as real <= p.burst as real + (b - a) * p.rate + Returned(h, i) as real
  {
    hide *;
    WindowBound(p, h, i, a, b);
    AdmittedIsNet(p, h, i);
  }

  /** Any amount handed back to an emptied bucket is worth as many extra tokens, up to `burst`: taking
      everything, handing back `m` and taking again exceeds `burst` in no time at all. */
  lemma HandingBackRaisesTaken(p: Params, m: int)
    requires Proper(p) && m >= 0
    ensures var again := if m < p.burst then m else p.burst;
            var h := [Request(p.start, p.burst), Request(p.start, -m), Request(p.start, again)];
            Orderly(p, h) && Taken(p, h, 0) == p.burst + again
  {
    hide Earned;
    var again := if m < p.burst then m else p.burst;
    var r0, r1, r2 := Request(p.start, p.burst), Request(p.start, -m), Request(p.start, again);
    var h := [r0, r1, r2];
    EarnedNothing(p);
    assert h[..2] == [r0, r1] && [r0, r1][..1] == [r0] && h[..1] == [r0] && [r0][..0] == [] && h[..0] == [];
    assert After(p, []) == Bucket(p.burst as real, p.start);
    assert After(p, [r0]) == Bucket(0.0, p.start);
    assert After(p, [r0, r1]) == Bucket(m as real, p.start);
    assert Taken(p, [r0], 0) == p.burst;
    assert Taken(p, [r0, r1], 0) == p.burst;
  }

  class TokenBucket {
    const rate: real
    const burst: int
    var tokens: real
    var lastRefill: real

    constructor (rate: real, burst: int, now: real)
      ensures this.rate == rate && this.burst == burst && State() == After(Params(rate, burst, now), [])
    {
      this.rate, this.burst := rate, burst;
      tokens, lastRefill := burst as real, now;
    }

    function State(): Bucket
      reads this
    {
      Bucket(tokens, lastRefill)
    }

    method Refill(now: real)
      modifies this
      ensures tokens == Refilled(Params(rate, burst, 0.0), old(State()), now) && lastRefill == now
      ensures var filled := old(tokens) + (now - old(lastRefill)) * rate;
              tokens == if filled < burst as real then filled else burst as real
    {
      var elapsed := now - lastRefill;
      lastRefill := now;
      tokens := tokens + elapsed * rate;
      if tokens > burst as real {
        tokens := burst as real;
      }
    }

    method AllowN(n: int, now: real) returns (ok: bool)
      modifies this
      ensures ok == Admits(Params(rate, burst, 0.0), old(State()), Request(now, n))
      ensures var filled := old(tokens) + (now - old(lastRefill)) * rate;
              var level := if filled < burst as real then filled else burst as real;
              ok == (n as real <= level) && tokens == if ok then level - n as real else level
      ensures State() == Served(Params(rate, burst, 0.0), old(State()), Request(now, n))
    {
      Refill(now);
      ok := tokens >= n as real;
      if ok {
        tokens := tokens - n as real;
      }
    }
  }
}
