/** The two execution modes of the machine agree, and forward-only plans stop. */
module VmModes {
  import opened Prelude
  import opened Vm

  /** Drive `step` for at most `n` calls, answering each `Pending` with the service's response. */
  function DriveFor(p: Plan, h: Host, c: Ctx, resp: Option<Body>, n: nat): Run
    decreases n
  {
    if n == 0 then Unfinished(Feed(c, resp))
    else
      var (c', r) := Step(p, h, c, resp);
      match r
      case Done => Finished(c')
      case Error(e) => Failed(e)
      case Continue => DriveFor(p, h, c', None, n - 1)
      case Pause(_) => DriveFor(p, h, c', None, n - 1)
      case Pending(s, b, t) =>
        match h.call(s, b, t)
        case Ok(x) => DriveFor(p, h, c', Some(x), n - 1)
        case Fault(e) => Failed(HostError(e))
  }

  /** The instruction at which the machine stands can be fed its answer instead of being dispatched:
      the call is answered, it is no Emit, which uses `a` as a count, and no retrying Async, which
      throws away the answer that step mode keeps. */
  predicate Feedable(p: Plan, h: Host, c: Ctx)
    requires c.ip < |p|
  {
    var i := p[c.ip];
    i.Suspends() ==>
      var r := h.call(i.a, c.body, i.Millis());
      r.Ok? && !i.op.Emit? && !(i.op.Async? && i.HasRetry() && r.body != [])
  }

  /** So is every instruction that `run` reaches within `n` dispatches. */
  predicate FeedableRun(p: Plan, h: Host, c: Ctx, n: nat)
    decreases n
  {
    n == 0 || c.ip >= |p| ||
    (Feedable(p, h, c) && match Turn(p, h, c) case Ran(c') => FeedableRun(p, h, c', n - 1) case Threw(_) => true)
  }

  /** Plans without Emit and retrying Async, on hosts that always answer, are feedable throughout. */
  lemma {:induction false} SafePlansAreFeedable(p: Plan, h: Host, c: Ctx, n: nat)
    requires forall i :: i in p ==> !i.op.Emit? && !(i.op.Async? && i.HasRetry())
    requires forall s, b, t :: h.call(s, b, t).Ok?
    ensures FeedableRun(p, h, c, n)
    decreases n
  {
    hide Turn;
    if n > 0 && c.ip < |p| {
      assert p[c.ip] in p;
      var t := Turn(p, h, c);
      if t.Ran? {
        SafePlansAreFeedable(p, h, t.ctx, n - 1);
      }
    }
  }

  /** At a suspending instruction whose call is answered, feeding the answer reaches the context
      that dispatching the instruction reaches, exactly when the instruction is neither an Emit
      nor a retrying Async that throws a non-empty answer away. */
  lemma FeedMatchesDispatch(p: Plan, h: Host, c: Ctx)
    requires c.ip < |p| && p[c.ip].Suspends()
    requires h.call(p[c.ip].a, c.body, p[c.ip].Millis()).Ok?
    ensures var x := h.call(p[c.ip].a, c.body, p[c.ip].Millis()).body;
            Turn(p, h, c) == Ran(Feed(c, Some(x))) <==> Feedable(p, h, c)
  {
    var i := p[c.ip];
    var c1 := c.(ip := c.ip + 1);
    assert Turn(p, h, c) == Effect(h, i, c1);
    assert Hop(c.hops) != c.hops;
  }

  /** One step call at a suspending instruction whose call is answered. */
  lemma DriveSuspends(p: Plan, h: Host, c: Ctx, resp: Option<Body>, x: Body, n: nat)
    requires n > 0 && Feed(c, resp).ip < |p| && p[Feed(c, resp).ip].Suspends()
    requires var i := p[Feed(c, resp).ip]; h.call(i.a, Feed(c, resp).body, i.Millis()) == Ok(x)
    ensures DriveFor(p, h, c, resp, n) == DriveFor(p, h, Feed(c, resp), Some(x), n - 1)
  {}

  /** One step call at any other instruction is one dispatch. */
  lemma DriveDispatches(p: Plan, h: Host, c: Ctx, resp: Option<Body>, n: nat)
    requires n > 0 && Feed(c, resp).ip < |p| && !p[Feed(c, resp).ip].Suspends()
    ensures match Turn(p, h, Feed(c, resp))
            case Threw(e) => DriveFor(p, h, c, resp, n) == Failed(e)
            case Ran(c') =>
              DriveFor(p, h, c, resp, n) ==
              if c'.ip >= |p| && !p[Feed(c, resp).ip].op.Delay? then Finished(c') else DriveFor(p, h, c', None, n - 1)
  {}

  /** One step call and one dispatch stay together; a suspended call counts as dispatched as soon
      as its response is waiting to be fed. */
  lemma {:induction false} Lockstep(p: Plan, h: Host, c: Ctx, resp: Option<Body>, n: nat)
    requires FeedableRun(p, h, Feed(c, resp), n)
    ensures var r, d := RunFor(p, h, Feed(c, resp), n), DriveFor(p, h, c, resp, n);
            d == r || (d.Unfinished? && r == Finished(d.ctx) && d.ctx.ip >= |p|)
    decreases n
  {
    var fed := Feed(c, resp);
    if n > 0 && fed.ip < |p| {
      var i := p[fed.ip];
      if i.Suspends() {
        var x := h.call(i.a, fed.body, i.Millis()).body;
        FeedMatchesDispatch(p, h, fed);
        DriveSuspends(p, h, c, resp, x, n);
        Lockstep(p, h, fed, Some(x), n - 1);
      } else {
        DriveDispatches(p, h, c, resp, n);
        var t := Turn(p, h, fed);
        if t.Ran? {
          Lockstep(p, h, t.ctx, None, n - 1);
        }
      }
    }
  }

  /** A halted drive stays halted, and a drive whose context has reached the end of the plan
      needs one more call to say so. */
  lemma {:induction false} OneMoreCall(p: Plan, h: Host, c: Ctx, resp: Option<Body>, n: nat)
    ensures var d := DriveFor(p, h, c, resp, n);
            if !d.Unfinished? then DriveFor(p, h, c, resp, n + 1) == d
            else d.ctx.ip >= |p| ==> DriveFor(p, h, c, resp, n + 1) == Finished(d.ctx)
    decreases n
  {
    var fed := Feed(c, resp);
    if n > 0 && fed.ip < |p| {
      var i := p[fed.ip];
      if i.Suspends() {
        var x := h.call(i.a, fed.body, i.Millis());
        if x.Ok? {
          DriveSuspends(p, h, c, resp, x.body, n);
          DriveSuspends(p, h, c, resp, x.body, n + 1);
          OneMoreCall(p, h, fed, Some(x.body), n - 1);
        }
      } else {
        DriveDispatches(p, h, c, resp, n);
        DriveDispatches(p, h, c, resp, n + 1);
        var t := Turn(p, h, fed);
        if t.Ran? {
          OneMoreCall(p, h, t.ctx, None, n - 1);
        }
      }
    }
  }

  /** Step mode refines run mode, for every plan (loops included), every start and every bound, if the
      instructions reached within the bound are feedable:
      a run that halts within `n` dispatches is reproduced exactly by `n + 1` step calls, a drive
      that halts within `n` step calls is a run that halts within `n` dispatches with the same
      context or error, and while neither has halted they are in the same context. */
  lemma StepRefinesRun(p: Plan, h: Host, c: Ctx, n: nat)
    requires FeedableRun(p, h, c, n)
    ensures !RunFor(p, h, c, n).Unfinished? ==> DriveFor(p, h, c, None, n + 1) == RunFor(p, h, c, n)
    ensures !DriveFor(p, h, c, None, n).Unfinished? ==> RunFor(p, h, c, n) == DriveFor(p, h, c, None, n)
    ensures RunFor(p, h, c, n).Unfinished? ==> DriveFor(p, h, c, None, n) == RunFor(p, h, c, n)
  {
    Lockstep(p, h, c, None, n);
    OneMoreCall(p, h, c, None, n);
  }

  /** Without the side condition the modes differ: a lone Emit is a hop in step mode only. */
  lemma EmitDiverges(h: Host, i: Instr, body: Body)
    requires i.op.Emit? && h.emit(i, body).Ok? && h.call(i.a, body, i.Millis()).Ok?
    ensures RunFor([i], h, FreshCtx(body), 1).Finished?
    ensures DriveFor([i], h, FreshCtx(body), None, 2).Finished?
    ensures RunFor([i], h, FreshCtx(body), 1).ctx.hops == 0
    ensures DriveFor([i], h, FreshCtx(body), None, 2).ctx.hops == 1
  {
    var p, c := [i], FreshCtx(body);
    assert Turn(p, h, c) == Ran(c.(ip := 1));
    assert RunFor(p, h, c, 1) == RunFor(p, h, c.(ip := 1), 0);
    var x := h.call(i.a, body, i.Millis()).body;
    assert Step(p, h, c, None) == (c, Pending(i.a, body, i.Millis()));
    assert DriveFor(p, h, c, None, 2) == DriveFor(p, h, c, Some(x), 1);
  }

  /** A failed call is recorded by run mode, which goes on, and ends the drive in step mode. */
  lemma FaultDiverges(h: Host, i: Instr, body: Body, e: string)
    requires i.op.Next? && h.call(i.a, body, i.Millis()) == Fault(e)
    ensures RunFor([i], h, FreshCtx(body), 1) == Finished(Ctx(1, body, 0, true, [e]))
    ensures DriveFor([i], h, FreshCtx(body), None, 1) == Failed(HostError(e))
  {
    var p, c := [i], FreshCtx(body);
    assert Turn(p, h, c) == Ran(Ctx(1, body, 0, true, [e]));
    assert Step(p, h, c, None) == (c, Pending(i.a, body, i.Millis()));
  }

  predicate ForwardJumps(p: Plan) {
    forall k :: 0 <= k < |p| && p[k].op.Jmp? ==> k < p[k].a
  }

  /** Every dispatch moves the instruction index forward. */
  lemma TurnAdvances(p: Plan, h: Host, c: Ctx)
    requires ForwardJumps(p) && c.ip < |p|
    ensures Turn(p, h, c).Ran? ==> c.ip < Turn(p, h, c).ctx.ip
  {
    assert p[c.ip].op.Jmp? ==> c.ip < p[c.ip].a;
  }

  /** With forward jumps only, `run` makes at most one dispatch per remaining instruction,
      whatever the services answer. */
  lemma {:induction false} RunTerminates(p: Plan, h: Host, c: Ctx, n: nat)
    requires ForwardJumps(p) && |p| <= c.ip + n
    ensures !RunFor(p, h, c, n).Unfinished?
    decreases n
  {
    if c.ip < |p| {
      TurnAdvances(p, h, c);
      match Turn(p, h, c)
      case Threw(_) =>
      case Ran(c') => RunTerminates(p, h, c', n - 1);
    }
  }

  /** The stepping driver needs one call more than that, for the final `Done`. */
  lemma {:induction false} DriveTerminates(p: Plan, h: Host, c: Ctx, resp: Option<Body>, n: nat)
    requires ForwardJumps(p) && |p| < Feed(c, resp).ip + n && n > 0
    ensures !DriveFor(p, h, c, resp, n).Unfinished?
    decreases n
  {
    var fed := Feed(c, resp);
    if fed.ip < |p| {
      var i := p[fed.ip];
      if i.Suspends() {
        var r := h.call(i.a, fed.body, i.Millis());
        if r.Ok? {
          DriveSuspends(p, h, c, resp, r.body, n);
          DriveTerminates(p, h, fed, Some(r.body), n - 1);
        }
      } else {
        DriveDispatches(p, h, c, resp, n);
        TurnAdvances(p, h, fed);
        var t := Turn(p, h, fed);
        if t.Ran? {
          DriveTerminates(p, h, t.ctx, None, n - 1);
        }
      }
    }
  }

  /** What a single step reports: at a service call the service, the body and the timeout, with nothing
      changed; at a delay its milliseconds, with only the position moved. */
  lemma StepReports(p: Plan, h: Host, c: Ctx)
    requires c.ip < |p|
    ensures var i, (c', r) := p[c.ip], Step(p, h, c, None);
            && (i.op.Next? || i.op.Async? || i.op.Emit? || i.op.SvcCall? ==>
                  c' == c && r == Pending(i.a, c.body, i.b * 65536 + i.c))
            && (i.op.Delay? ==> c' == c.(ip := c.ip + 1) && r == Pause(i.b * 65536 + i.c))
            && (r.Pending? ==> i.op.Next? || i.op.Async? || i.op.Emit? || i.op.SvcCall?) && (r.Pause? ==> i.op.Delay?)
  {
    hide Turn;
  }
}
