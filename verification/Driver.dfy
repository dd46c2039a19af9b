/** The durable step loop (server/internal/node/execute_plan.go) and its restart from a stored
    record (server/internal/node/recovery.go), as functions from a start to a trace of events. */
module Driver {
  import opened Prelude
  import opened Vm
  import VmModes
  import opened Names
  import opened Saga

  const MAX_STEPS: nat := 1000

  datatype Status = Created | Running | WaitingForService | Completed | Failed

  /** The stored state of an execution. */
  datatype Record = Record(status: Status, pendingSvc: U16, pendingBody: Body, ctx: Option<Ctx>, output: Body)

  /** The record an execution is created with. */
  const Blank: Record := Record(Created, 0, [], None, [])

  /** What an execution depends on: the plan, the functions the machine calls in process, the
      service table of the plan and the services themselves, addressed by service and method. */
  datatype World = World(plan: Plan, host: Host, names: map<U16, string>, service: (string, string, Body) -> Reply)

  /** What the outside sees of an execution, in order. */
  datatype Event = Saved(rec: Record) | Called(call: SagaStep)

  datatype End =
    | Output(body: Body)
    | Cancelled(step: nat)
    | Unexpected(step: nat)
    | ServiceFailed(service: string, msg: string)
    | OutOfSteps

  datatype Trace = Trace(events: seq<Event>, end: End, steps: nat) {
    function After(pre: seq<Event>): Trace {
      Trace(pre + events, end, steps + 1)
    }
  }

  /** The call that the step loop issues for a pending service id. */
  function CallFor(w: World, svc: U16, body: Body): SagaStep {
    var t := ParseCompensation(NameOf(w.names, svc));
    SagaStep(t.service, t.methodName, body, t.compSvc, t.compMethod)
  }

  function Waiting(rec: Record, c: Ctx, svc: U16, body: Body): Record {
    rec.(status := WaitingForService, pendingSvc := svc, pendingBody := body, ctx := Some(c))
  }

  function Resumed(rec: Record, c: Ctx): Record {
    rec.(status := Running, pendingSvc := 0, pendingBody := [], ctx := Some(c))
  }

  function Progressed(rec: Record, c: Ctx): Record {
    rec.(status := Running, ctx := Some(c))
  }

  /** No stored context means a fresh one with an empty body. */
  function Context(ctx: Option<Ctx>): Ctx {
    if ctx.Some? then ctx.value else FreshCtx([])
  }

  /** `runSteps` from step number `step`. */
  function Drive(w: World, cancelled: nat -> bool, step: nat, ctx: Option<Ctx>, resp: Option<Body>, rec: Record): Trace
    decreases MAX_STEPS - step
  {
    if step >= MAX_STEPS then Trace([], OutOfSteps, 0)
    else if cancelled(step) then Trace([], Cancelled(step), 0)
    else
      var (c, r) := Step(w.plan, w.host, Context(ctx), resp);
      match r
      case Done => Trace([], Output(c.body), 1)
      case Error(_) => Trace([], Unexpected(step), 1)
      case Pause(_) => Trace([], Unexpected(step), 1)
      case Continue =>
        var rec' := Progressed(rec, c);
        Drive(w, cancelled, step + 1, Some(c), None, rec').After([Saved(rec')])
      case Pending(svc, body, _) =>
        var call := CallFor(w, svc, body);
        match w.service(call.service, call.methodName, body)
        case Fault(e) => Trace([Saved(Waiting(rec, c, svc, body)), Called(call)], ServiceFailed(call.service, e), 1)
        case Ok(x) =>
          var rec' := Resumed(Waiting(rec, c, svc, body), c);
          Drive(w, cancelled, step + 1, Some(c), Some(x), rec')
          .After([Saved(Waiting(rec, c, svc, body)), Called(call), Saved(rec')])
  }

  function Never(step: nat): bool {
    false
  }

  /** `recoverExecution`: a waiting execution repeats its call, under the recovery parser's
      reading of the name, and then re-enters the step loop. */
  function Recover(w: World, rec: Record): Trace {
    if rec.status.WaitingForService? then
      var (svc, m) := ParseServiceMethod(NameOf(w.names, rec.pendingSvc));
      var call := SagaStep(svc, m, rec.pendingBody, "", "");
      match w.service(svc, m, rec.pendingBody)
      case Fault(e) => Trace([Called(call)], ServiceFailed(svc, e), 0)
      case Ok(x) =>
        var rec' := rec.(status := Running, pendingSvc := 0, pendingBody := []);
        var t := Drive(w, Never, 0, rec'.ctx, Some(x), rec');
        Trace([Called(call), Saved(rec')] + t.events, t.end, t.steps)
    else Drive(w, Never, 0, rec.ctx, None, rec)
  }

  function Calls(es: seq<Event>): seq<SagaStep> {
    if es == [] then [] else (if es[0].Called? then [es[0].call] else []) + Calls(es[1..])
  }

  lemma {:induction false} CallsConcat(a: seq<Event>, b: seq<Event>)
    ensures Calls(a + b) == Calls(a) + Calls(b)
  {
    if a == [] {
      assert a + b == b;
    } else {
      assert (a + b)[1..] == a[1..] + b && (a + b)[0] == a[0];
      CallsConcat(a[1..], b);
      var head := if a[0].Called? then [a[0].call] else [];
      assert Calls(a + b) == head + Calls(a[1..] + b);
      assert head + (Calls(a[1..]) + Calls(b)) == head + Calls(a[1..]) + Calls(b);
    }
  }

  /** The record that a crash after these events leaves in the store. */
  function LastSaved(es: seq<Event>, before: Option<Record>): Option<Record> {
    if es == [] then before
    else
      var e := es[|es| - 1];
      if e.Saved? then Some(e.rec) else LastSaved(es[..|es| - 1], before)
  }

  lemma {:induction false} LastSavedConcat(a: seq<Event>, b: seq<Event>, before: Option<Record>)
    ensures LastSaved(a + b, before) == LastSaved(b, LastSaved(a, before))
  {
    if b == [] {
      assert a + b == a;
    } else {
      assert (a + b)[..|a + b| - 1] == a + b[..|b| - 1];
      LastSavedConcat(a, b[..|b| - 1], before);
    }
  }

  /** The calls that registered a compensator. */
  function Compensable(calls: seq<SagaStep>): (r: seq<SagaStep>)
    ensures forall s :: s in r ==> s.compSvc != ""
  {
    if calls == [] then []
    else (if calls[0].compSvc != "" then [calls[0]] else []) + Compensable(calls[1..])
  }

  lemma {:induction false} CompensableConcat(a: seq<SagaStep>, b: seq<SagaStep>)
    ensures Compensable(a + b) == Compensable(a) + Compensable(b)
  {
    if a == [] {
      assert a + b == b;
    } else {
      assert (a + b)[1..] == a[1..] + b;
      CompensableConcat(a[1..], b);
    }
  }

  lemma StepAdvances(p: Plan, h: Host, c: Ctx, resp: Option<Body>)
    ensures var fed, (c', r) := Feed(c, resp), Step(p, h, c, resp);
            && (r.Pending? ==> c' == fed && fed.ip < |p| && p[fed.ip].Suspends())
            && (r.Continue? ==> fed.ip < |p| && !p[fed.ip].Suspends())
            && (r.Continue? && VmModes.ForwardJumps(p) ==> fed.ip < c'.ip < |p|)
            && (fed.ip >= |p| ==> r.Done?)
            && (fed.ip < |p| && p[fed.ip].Suspends() ==> r.Pending?)
  {
    if VmModes.ForwardJumps(p) && Feed(c, resp).ip < |p| {
      VmModes.TurnAdvances(p, h, Feed(c, resp));
    }
    hide Turn;
  }

  /** A plan whose jumps all go forward leaves the loop before the step limit whenever more steps
      are left than instructions. */
  lemma {:induction false} StaysInBudget(w: World, f: nat -> bool, step: nat, ctx: Option<Ctx>, resp: Option<Body>,
                                         rec: Record)
    requires VmModes.ForwardJumps(w.plan)
    requires step < MAX_STEPS && step + |w.plan| < MAX_STEPS + Feed(Context(ctx), resp).ip
    ensures !Drive(w, f, step, ctx, resp, rec).end.OutOfSteps?
    decreases MAX_STEPS - step
  {
    hide Step, CallFor;
    StepAdvances(w.plan, w.host, Context(ctx), resp);
    var (c, r) := Step(w.plan, w.host, Context(ctx), resp);
    if r.Continue? {
      StaysInBudget(w, f, step + 1, Some(c), None, Progressed(rec, c));
    } else if r.Pending? {
      var call := CallFor(w, r.svc, r.body);
      var x := w.service(call.service, call.methodName, r.body);
      if x.Ok? {
        StaysInBudget(w, f, step + 1, Some(c), Some(x.body), Resumed(Waiting(rec, c, r.svc, r.body), c));
      }
    }
  }

  /** Plans of at most 999 instructions with forward jumps never hit the step limit. */
  lemma SmallPlansFit(w: World, f: nat -> bool, rec: Record)
    requires VmModes.ForwardJumps(w.plan) && |w.plan| <= 999
    ensures !Drive(w, f, 0, None, None, rec).end.OutOfSteps?
  {
    StaysInBudget(w, f, 0, None, None, rec);
  }

  /** The bound is tight: a plan of nothing but answered service calls runs out of steps exactly
      when it has no fewer instructions left than steps. */
  lemma {:induction false} CallChainBudget(w: World, step: nat, ctx: Option<Ctx>, resp: Option<Body>, rec: Record)
    requires forall i :: i in w.plan ==> i.Suspends()
    requires forall s, m, b :: w.service(s, m, b).Ok?
    requires step <= MAX_STEPS && Feed(Context(ctx), resp).ip <= |w.plan|
    ensures Drive(w, Never, step, ctx, resp, rec).end.OutOfSteps?
            <==> step + |w.plan| >= MAX_STEPS + Feed(Context(ctx), resp).ip
    decreases MAX_STEPS - step
  {
    hide Step, CallFor;
    StepAdvances(w.plan, w.host, Context(ctx), resp);
    var fed := Feed(Context(ctx), resp);
    if step < MAX_STEPS && fed.ip < |w.plan| {
      assert w.plan[fed.ip] in w.plan;
      var (c, r) := Step(w.plan, w.host, Context(ctx), resp);
      var call := CallFor(w, r.svc, r.body);
      var x := w.service(call.service, call.methodName, r.body).body;
      CallChainBudget(w, step + 1, Some(c), Some(x), Resumed(Waiting(rec, c, r.svc, r.body), c));
    }
  }

  /** And a plan of a thousand answered calls does hit it. */
  lemma ThousandCallsDoNotFit(w: World, rec: Record)
    requires |w.plan| == 1000 && forall i :: i in w.plan ==> i.Suspends()
    requires forall s, m, b :: w.service(s, m, b).Ok?
    ensures Drive(w, Never, 0, None, None, rec).end.OutOfSteps?
  {
    hide Drive;
    CallChainBudget(w, 0, None, None, rec);
  }

  /** The call issued for a service named with a compensator in full. */
  lemma CallOfName(w: World, svc: U16, body: Body, s: string, m: string, compSvc: string, compMethod: string)
    requires '.' !in s && ':' !in s && ':' !in m && '.' !in compSvc
    requires svc in w.names && w.names[svc] == s + "." + m + ":" + (compSvc + "." + compMethod)
    ensures CallFor(w, svc, body) == SagaStep(s, m, body, compSvc, compMethod)
  {
    hide ParseCompensation;
    CompensationRoundTrip(s, m, compSvc, compMethod);
  }
}
