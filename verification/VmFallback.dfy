/** A call followed by fallbacks is a first-success choice (`op_next` and `op_fallback` in
    runtime/src/executor/vm.rs). */
module VmFallback {
  import opened Prelude
  import opened Vm

  /** The machine after `k` dispatches, or fewer if the plan ends before. */
  function Turns(p: Plan, h: Host, c: Ctx, k: nat): Exec
    decreases k
  {
    if k == 0 || c.ip >= |p| then Ran(c)
    else match Turn(p, h, c)
      case Threw(e) => Threw(e)
      case Ran(c') => Turns(p, h, c', k - 1)
  }

  /** `run` goes on from where a number of dispatches leads. */
  lemma {:induction false} RunAfterTurns(p: Plan, h: Host, c: Ctx, k: nat, n: nat)
    requires k <= n
    ensures match Turns(p, h, c, k)
            case Threw(e) => RunFor(p, h, c, n) == Failed(e)
            case Ran(c') => RunFor(p, h, c, n) == RunFor(p, h, c', n - k)
    decreases k
  {
    hide Turn;
    if k > 0 && c.ip < |p| && Turn(p, h, c).Ran? {
      RunAfterTurns(p, h, Turn(p, h, c).ctx, k - 1, n - 1);
    }
  }

  /** What a call or fallback gets for a body. */
  function Answer(h: Host, i: Instr, body: Body): Reply {
    ExecNext(h, i, body, false)
  }

  /** The first instruction from `j` on, before `end`, whose service answers; or `end`. */
  function FirstAnswer(h: Host, p: Plan, body: Body, j: nat, end: nat): (k: nat)
    requires j <= end <= |p|
    ensures j <= k <= end
    ensures forall i :: j <= i < k ==> Answer(h, p[i], body).Fault?
    ensures k < end ==> Answer(h, p[k], body).Ok?
    decreases end - j
  {
    if j == end || Answer(h, p[j], body).Ok? then j else FirstAnswer(h, p, body, j + 1, end)
  }

  /** The messages of the services that failed before. */
  function Faults(h: Host, p: Plan, body: Body, j: nat, k: nat): (r: seq<string>)
    requires j <= k <= |p| && forall i :: j <= i < k ==> Answer(h, p[i], body).Fault?
    ensures |r| == k - j && forall i :: 0 <= i < |r| ==> r[i] == Answer(h, p[j + i], body).msg
    decreases k - j
  {
    if j == k then [] else [Answer(h, p[j], body).msg] + Faults(h, p, body, j + 1, k)
  }

  predicate FallbacksIn(p: Plan, j: nat, end: nat) {
    end <= |p| && forall i :: j <= i < end ==> p[i].op.Fallback?
  }

  /** Once a service has answered, the fallbacks behind it do nothing. */
  lemma {:induction false} AnsweredStays(p: Plan, h: Host, c: Ctx, end: nat)
    requires c.ip <= end && FallbacksIn(p, c.ip, end) && !c.failed
    ensures Turns(p, h, c, end - c.ip) == Ran(c.(ip := end))
    decreases end - c.ip
  {
    if c.ip < end {
      assert Turn(p, h, c) == Ran(c.(ip := c.ip + 1));
      AnsweredStays(p, h, c.(ip := c.ip + 1), end);
    }
  }

  /** First success from `c.ip` up to `end`: the answer of the first service that answers the body,
      one hop, and the messages of those that failed before it; with none, the body is kept and
      the context is marked as failed. */
  function FirstSuccess(h: Host, p: Plan, c: Ctx, end: nat): Ctx
    requires c.ip <= end <= |p|
  {
    var k := FirstAnswer(h, p, c.body, c.ip, end);
    var errors := c.errors + Faults(h, p, c.body, c.ip, k);
    if k < end then Ctx(end, Answer(h, p[k], c.body).body, Hop(c.hops), false, errors)
    else Ctx(end, c.body, c.hops, true, errors)
  }

  /** Fallbacks behind a failure are a first-success choice among themselves. */
  lemma {:induction false} FallbacksChoose(p: Plan, h: Host, c: Ctx, end: nat)
    requires c.ip <= end && FallbacksIn(p, c.ip, end) && c.failed
    ensures Turns(p, h, c, end - c.ip) == Ran(FirstSuccess(h, p, c, end))
    decreases end - c.ip
  {
    hide Turn;
    if c.ip < end {
      ChainStep(p, h, c, end);
    } else {
      assert c.errors + Faults(h, p, c.body, c.ip, c.ip) == c.errors;
    }
  }

  predicate Tried(p: Plan, c: Ctx) {
    c.ip < |p| && if c.failed then p[c.ip].op.Fallback? else p[c.ip].op.Next?
  }

  lemma TriedTurn(p: Plan, h: Host, c: Ctx)
    requires Tried(p, c)
    ensures Turn(p, h, c) == Ran(Absorb(c.(ip := c.ip + 1, failed := false), Answer(h, p[c.ip], c.body)))
  {
  }

  /** One call or fallback that is tried: either it answers, or the chain goes on behind it. */
  lemma {:induction false} ChainStep(p: Plan, h: Host, c: Ctx, end: nat)
    requires Tried(p, c) && c.ip < end && FallbacksIn(p, c.ip + 1, end)
    ensures Turns(p, h, c, end - c.ip) == Ran(FirstSuccess(h, p, c, end))
    decreases end - c.ip, 1
  {
    hide Turn, ExecNext, Answer;
    TriedTurn(p, h, c);
    match Answer(h, p[c.ip], c.body)
    case Ok(b) =>
      assert c.errors + Faults(h, p, c.body, c.ip, c.ip) == c.errors;
      AnsweredStays(p, h, Ctx(c.ip + 1, b, Hop(c.hops), false, c.errors), end);
    case Fault(e) => FaultStep(p, h, c, end, e);
  }

  /** A call or fallback that fails leaves the choice to the fallbacks behind it. */
  lemma {:induction false} FaultStep(p: Plan, h: Host, c: Ctx, end: nat, e: string)
    requires c.ip < end && FallbacksIn(p, c.ip + 1, end) && Answer(h, p[c.ip], c.body) == Fault(e)
    requires Turn(p, h, c) == Ran(Ctx(c.ip + 1, c.body, c.hops, true, c.errors + [e]))
    ensures Turns(p, h, c, end - c.ip) == Ran(FirstSuccess(h, p, c, end))
    decreases end - c.ip, 0
  {
    hide Turn, ExecNext, Answer;
    var next := Ctx(c.ip + 1, c.body, c.hops, true, c.errors + [e]);
    var k := FirstAnswer(h, p, c.body, c.ip + 1, end);
    FallbacksChoose(p, h, next, end);
    assert next.errors + Faults(h, p, c.body, c.ip + 1, k) == c.errors + Faults(h, p, c.body, c.ip, k);
  }

  /** What a call with fallbacks leaves, whatever came before: a first-success choice on the body;
      but when a failure is pending and the call answers, the failure stays pending, and the
      fallbacks make their own choice on the answer. */
  function ChainOutcome(h: Host, p: Plan, c: Ctx, end: nat): Ctx
    requires c.ip < end <= |p|
  {
    var r := Answer(h, p[c.ip], c.body);
    if c.failed && r.Ok? then FirstSuccess(h, p, Ctx(c.ip + 1, r.body, Hop(c.hops), true, c.errors), end)
    else FirstSuccess(h, p, c, end)
  }

  lemma NextTurn(p: Plan, h: Host, c: Ctx)
    requires c.ip < |p| && p[c.ip].op.Next?
    ensures Turn(p, h, c) == Ran(Absorb(c.(ip := c.ip + 1), Answer(h, p[c.ip], c.body)))
  {
  }

  /** A call with fallbacks anywhere in any plan, from any context. */
  lemma ChainMeans(p: Plan, h: Host, c: Ctx, end: nat)
    requires c.ip < end <= |p| && p[c.ip].op.Next? && FallbacksIn(p, c.ip + 1, end)
    ensures Turns(p, h, c, end - c.ip) == Ran(ChainOutcome(h, p, c, end))
  {
    hide Turn, FirstSuccess, ExecNext, Answer;
    if !c.failed {
      ChainStep(p, h, c, end);
    } else {
      NextTurn(p, h, c);
      match Answer(h, p[c.ip], c.body)
      case Ok(b) => FallbacksChoose(p, h, Ctx(c.ip + 1, b, Hop(c.hops), true, c.errors), end);
      case Fault(e) => FaultStep(p, h, c, end, e);
    }
  }

  /** The two choices on a pending failure never coincide: they differ in hops or in the flag. */
  lemma PendingFailureShows(h: Host, p: Plan, c: Ctx, end: nat)
    requires c.ip < end <= |p| && c.failed && Answer(h, p[c.ip], c.body).Ok?
    ensures ChainOutcome(h, p, c, end) != FirstSuccess(h, p, c, end)
  {
    hide Answer;
    assert FirstAnswer(h, p, c.body, c.ip, end) == c.ip;
    assert Hop(Hop(c.hops)) != Hop(c.hops);
  }

  /** A call with fallbacks is a first-success choice exactly if no failure is pending before it or
      the call itself fails: an answered call does not clear an earlier failure, so a fallback
      behind it still runs and replaces the answer. */
  lemma FirstSuccessIff(p: Plan, h: Host, c: Ctx, end: nat)
    requires c.ip < end <= |p| && p[c.ip].op.Next? && FallbacksIn(p, c.ip + 1, end)
    ensures Turns(p, h, c, end - c.ip) == Ran(FirstSuccess(h, p, c, end))
            <==> !c.failed || Answer(h, p[c.ip], c.body).Fault?
  {
    hide Turn, Turns, FirstSuccess, Answer;
    ChainMeans(p, h, c, end);
    if c.failed && Answer(h, p[c.ip], c.body).Ok? {
      PendingFailureShows(h, p, c, end);
    }
  }

  /** The same for `run`, when the chain ends the plan. */
  lemma RunFirstSuccessIff(p: Plan, h: Host, c: Ctx, n: nat)
    requires c.ip < |p| <= c.ip + n && p[c.ip].op.Next? && FallbacksIn(p, c.ip + 1, |p|)
    ensures RunFor(p, h, c, n) == Finished(FirstSuccess(h, p, c, |p|))
            <==> !c.failed || Answer(h, p[c.ip], c.body).Fault?
  {
    hide Turn, Turns, FirstSuccess, Answer;
    FirstSuccessIff(p, h, c, |p|);
    ChainMeans(p, h, c, |p|);
    RunAfterTurns(p, h, c, |p| - c.ip, n);
    EndsAt(h, p, c);
  }

  lemma EndsAt(h: Host, p: Plan, c: Ctx)
    requires c.ip < |p|
    ensures FirstSuccess(h, p, c, |p|).ip == |p| && ChainOutcome(h, p, c, |p|).ip == |p|
  {
  }

  /** Inside a longer plan, `run` goes on behind the chain with what the chain left. */
  lemma RunPassesChain(p: Plan, h: Host, c: Ctx, end: nat, n: nat)
    requires c.ip < end <= |p| && end - c.ip <= n && p[c.ip].op.Next? && FallbacksIn(p, c.ip + 1, end)
    ensures RunFor(p, h, c, n) == RunFor(p, h, ChainOutcome(h, p, c, end), n - (end - c.ip))
  {
    hide Turns, ChainOutcome;
    ChainMeans(p, h, c, end);
    RunAfterTurns(p, h, c, end - c.ip, n);
  }

  /** A plan that is a call with fallbacks, started on a body. */
  lemma FirstSuccessWins(p: Plan, h: Host, body: Body, n: nat)
    requires p != [] && p[0].op.Next? && FallbacksIn(p, 1, |p|) && n >= |p|
    ensures var k := FirstAnswer(h, p, body, 0, |p|);
            var errors := Faults(h, p, body, 0, k);
            RunFor(p, h, FreshCtx(body), n) ==
            Finished(if k < |p| then Ctx(|p|, Answer(h, p[k], body).body, 1, false, errors)
                     else Ctx(|p|, body, 0, true, errors))
  {
    hide Answer, RunFor;
    RunFirstSuccessIff(p, h, FreshCtx(body), n);
    var errors := Faults(h, p, body, 0, FirstAnswer(h, p, body, 0, |p|));
    assert [] + errors == errors;
  }

  /** The smallest plan in which an earlier failure makes a fallback replace an answer. */
  lemma FailureOutlivesAnswer(h: Host, a: Instr, b: Instr, f: Instr, body: Body, e: string, x: Body, y: Body)
    requires a.op.Next? && b.op.Next? && f.op.Fallback?
    requires Answer(h, a, body) == Fault(e) && Answer(h, b, body) == Ok(x) && Answer(h, f, x) == Ok(y)
    ensures RunFor([a, b, f], h, FreshCtx(body), 3) == Finished(Ctx(3, y, 2, false, [e]))
  {
    hide Answer, Turn, ExecNext;
    var p := [a, b, f];
    NextTurn(p, h, FreshCtx(body));
    var c := Ctx(1, body, 0, true, [e]);
    assert Turn(p, h, FreshCtx(body)) == Ran(c) by { assert [] + [e] == [e]; }
    RunPassesChain(p, h, c, 3, 2);
    assert FirstAnswer(h, p, x, 2, 3) == 2;
    assert [e] + Faults(h, p, x, 2, 2) == [e];
  }
}
