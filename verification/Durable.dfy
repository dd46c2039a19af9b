/** The output of a durable execution is the body that the machine computes. */
module Durable {
  import opened Prelude
  import opened Vm
  import opened VmModes
  import opened Names
  import opened Driver
  import Recovery

  /** The machine's own calls reach the services that the step loop reaches. */
  ghost predicate SameServices(w: World) {
    forall s, b, t ::
      w.host.call(s, b, t) ==
      var target := ParseCompensation(NameOf(w.names, s)); w.service(target.service, target.methodName, b)
  }

  predicate DelayFree(p: Plan) {
    forall i :: i in p ==> !i.op.Delay?
  }

  lemma NoPause(p: Plan, h: Host, c: Ctx, resp: Option<Body>)
    requires DelayFree(p)
    ensures !Step(p, h, c, resp).1.Pause?
  {
    hide Turn;
    var fed := Feed(c, resp);
    if fed.ip < |p| {
      assert p[fed.ip] in p;
    }
  }

  /** The step loop, from any step on, ends as driving the machine ends: with the body of the final
      context as output when the drive finishes within the steps left, and with an error when the
      drive fails. */
  lemma {:induction false} LoopEndsAsDrive(w: World, step: nat, ctx: Option<Ctx>, resp: Option<Body>, rec: Record,
                                           n: nat)
    requires SameServices(w) && DelayFree(w.plan) && step + n <= MAX_STEPS
    ensures var end := Drive(w, Never, step, ctx, resp, rec).end;
            match DriveFor(w.plan, w.host, Context(ctx), resp, n)
            case Finished(c) => end == Output(c.body)
            case Failed(_) => !end.Output?
            case Unfinished(_) => true
    decreases n
  {
    hide Step, ParseCompensation, NameOf;
    if n > 0 {
      NoPause(w.plan, w.host, Context(ctx), resp);
      var (c, r) := Step(w.plan, w.host, Context(ctx), resp);
      if r.Continue? {
        LoopEndsAsDrive(w, step + 1, Some(c), None, Progressed(rec, c), n - 1);
      } else if r.Pending? {
        var call := CallFor(w, r.svc, r.body);
        var x := w.service(call.service, call.methodName, r.body);
        assert w.host.call(r.svc, r.body, r.timeout) == x;
        if x.Ok? {
          LoopEndsAsDrive(w, step + 1, Some(c), Some(x.body), Resumed(Waiting(rec, c, r.svc, r.body), c), n - 1);
        }
      }
    }
  }

  /** A durable execution returns the body that `run` computes from an empty body: if `run` halts within
      fewer dispatches than there are steps, and the calls it reaches can be fed, the loop ends with
      that body as output, or with an error where `run` fails. */
  lemma OutputIsRun(w: World, rec: Record, n: nat)
    requires SameServices(w) && DelayFree(w.plan) && n < MAX_STEPS && FeedableRun(w.plan, w.host, FreshCtx([]), n)
    ensures var end := Drive(w, Never, 0, None, None, rec).end;
            match RunFor(w.plan, w.host, FreshCtx([]), n)
            case Finished(c) => end == Output(c.body)
            case Failed(_) => !end.Output?
            case Unfinished(_) => true
  {
    hide Drive, DriveFor, RunFor, FeedableRun, SameServices, DelayFree;
    StepRefinesRun(w.plan, w.host, FreshCtx([]), n);
    LoopEndsAsDrive(w, 0, None, None, rec, n + 1);
  }

  /* ---- what the loop writes down ---- */

  /** Every call is announced: right before it a record is saved that waits for this very service with
      this body, in a context in which the machine waits for it. */
  predicate Announced(w: World, es: seq<Event>, j: nat)
    requires j < |es|
  {
    es[j].Called? ==>
      && j > 0 && es[j - 1].Saved? && es[j - 1].rec.status.WaitingForService? && es[j - 1].rec.ctx.Some?
      && es[j].call == CallFor(w, es[j - 1].rec.pendingSvc, es[j - 1].rec.pendingBody)
      && var r := Step(w.plan, w.host, es[j - 1].rec.ctx.value, None).1;
         r.Pending? && r.svc == es[j - 1].rec.pendingSvc && r.body == es[j - 1].rec.pendingBody
  }

  lemma {:induction false} CallsAreAnnounced(w: World, f: nat -> bool, step: nat, ctx: Option<Ctx>, resp: Option<Body>,
                                             rec: Record, j: nat)
    requires j < |Drive(w, f, step, ctx, resp, rec).events|
    ensures Announced(w, Drive(w, f, step, ctx, resp, rec).events, j)
    decreases MAX_STEPS - step
  {
    hide Step, CallFor;
    var (c, r) := Step(w.plan, w.host, Context(ctx), resp);
    if r.Continue? {
      var next := Progressed(rec, c);
      var tail := Drive(w, f, step + 1, Some(c), None, next).events;
      if j >= 1 {
        CallsAreAnnounced(w, f, step + 1, Some(c), None, next, j - 1);
        ShiftsBy(w, [Saved(next)], tail, j - 1);
      }
    } else if r.Pending? {
      Recovery.SuspensionRepeats(w.plan, w.host, Context(ctx), resp);
      var call, waiting := CallFor(w, r.svc, r.body), Waiting(rec, c, r.svc, r.body);
      var x := w.service(call.service, call.methodName, r.body);
      if x.Ok? && j >= 3 {
        var next := Resumed(waiting, c);
        var tail := Drive(w, f, step + 1, Some(c), Some(x.body), next).events;
        CallsAreAnnounced(w, f, step + 1, Some(c), Some(x.body), next, j - 3);
        ShiftsBy(w, [Saved(waiting), Called(call), Saved(next)], tail, j - 3);
      }
    }
  }

  lemma ShiftsBy(w: World, pre: seq<Event>, tail: seq<Event>, j: nat)
    requires j < |tail| && Announced(w, tail, j)
    ensures Announced(w, pre + tail, |pre| + j)
  {
    hide Step, CallFor;
  }

  /* ---- why the loop ends ---- */

  /** What an end says about the run: a failed call is the last thing that happened, and the service named
      is the one that refused it; a cancellation was seen at that very step. */
  predicate Explained(w: World, f: nat -> bool, t: Trace) {
    match t.end
    case ServiceFailed(svc, msg) =>
      && t.events != [] && t.events[|t.events| - 1].Called?
      && var call := t.events[|t.events| - 1].call;
         call.service == svc && w.service(svc, call.methodName, call.body) == Fault(msg)
    case Cancelled(k) => k < MAX_STEPS && f(k)
    case _ => true
  }

  lemma {:induction false} EndExplained(w: World, f: nat -> bool, step: nat, ctx: Option<Ctx>, resp: Option<Body>,
                                        rec: Record)
    ensures Explained(w, f, Drive(w, f, step, ctx, resp, rec))
    ensures Drive(w, f, step, ctx, resp, rec).end.Cancelled? ==> Drive(w, f, step, ctx, resp, rec).end.step >= step
    decreases MAX_STEPS - step
  {
    hide Step, ParseCompensation, NameOf;
    var (c, r) := Step(w.plan, w.host, Context(ctx), resp);
    if step >= MAX_STEPS || f(step) {
    } else if r.Continue? {
      EndExplained(w, f, step + 1, Some(c), None, Progressed(rec, c));
    } else if r.Pending? {
      var call, waiting := CallFor(w, r.svc, r.body), Waiting(rec, c, r.svc, r.body);
      var x := w.service(call.service, call.methodName, r.body);
      if x.Ok? {
        EndExplained(w, f, step + 1, Some(c), Some(x.body), Resumed(waiting, c));
      }
    }
  }
}
