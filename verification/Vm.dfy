/** The bytecode machine (runtime/src/executor/vm.rs): a pure meaning for one dispatched
    instruction, for `run` and for `step`, and the imperative machine proved against it. */
module Vm {
  import opened Prelude

  datatype OpCode =
    | Next | Parallel | Collect | Fallback | Gate | Map | Emit | Drop | Buffer | Key
    | Async | Chunk | Dag | Jmp | Label | SvcArg | JumpOffset | TypeGuard | SvcCall | Delay

  datatype Instr = Instr(op: OpCode, flags: U8, a: U16, b: U16, c: U16) {
    /** The timeout (and the delay) is stored as two 16-bit halves. */
    function Millis(): nat {
      b * 0x1_0000 + c
    }

    predicate HasRetry() {
      flags % 2 == 1
    }

    /** A cut point of the flat code: gates skip forward to the next one of these. */
    predicate Boundary() {
      op.Gate? || op.Label?
    }

    /** The instructions at which `step` hands a service call to its driver. */
    predicate Suspends() {
      op.Next? || op.Async? || op.Emit? || op.SvcCall?
    }
  }

  type Plan = seq<Instr>

  /** Everything an instruction needs from outside the machine, fixed for one plan. */
  datatype Host = Host(
    call: (U16, Body, nat) -> Reply,
    gate: (Instr, Body) -> bool,
    parallel: (Instr, Body) -> Reply,
    collect: (Instr, Body) -> Reply,
    map_: (Instr, Body) -> Reply,
    dag: (Instr, Body) -> Reply,
    guard: (Instr, Body) -> Reply,
    emit: (Instr, Body) -> Reply)

  /** The part of the execution context that the machine reads and writes. */
  datatype Ctx = Ctx(ip: nat, body: Body, hops: U16, failed: bool, errors: seq<string>)

  datatype VmError = JumpOutOfBounds(target: nat, len: nat) | BufferInVm | HostError(msg: string)

  datatype Exec = Ran(ctx: Ctx) | Threw(err: VmError)

  function FreshCtx(body: Body): Ctx {
    Ctx(0, body, 0, false, [])
  }

  /** `hop_count` is a u16. */
  function Hop(h: U16): U16 {
    (h + 1) % 0x1_0000
  }

  /** `exec_next`: the caller is a function, so retrying it cannot change its answer; only the
      retrying asynchronous form discards the response (next.rs:55-57). */
  function ExecNext(h: Host, i: Instr, body: Body, isAsync: bool): Reply {
    var r := h.call(i.a, body, i.Millis());
    if i.HasRetry() && isAsync && r.Ok? then Ok([]) else r
  }

  /** A call records its answer or its failure; it never stops the machine. */
  function Absorb(c: Ctx, r: Reply): Ctx {
    match r
    case Ok(b) => c.(body := b, hops := Hop(c.hops))
    case Fault(e) => c.(failed := true, errors := c.errors + [e])
  }

  function Replace(c: Ctx, r: Reply, hop: bool): Exec {
    match r
    case Ok(b) => Ran(c.(body := b, hops := if hop then Hop(c.hops) else c.hops))
    case Fault(e) => Threw(HostError(e))
  }

  function Check(c: Ctx, r: Reply): Exec {
    match r
    case Ok(_) => Ran(c)
    case Fault(e) => Threw(HostError(e))
  }

  /** The instructions that leave the instruction index alone. */
  function Effect(h: Host, i: Instr, c: Ctx): (r: Exec)
    ensures r.Ran? ==> r.ctx.ip == c.ip
  {
    match i.op
    case Next => Ran(Absorb(c, ExecNext(h, i, c.body, false)))
    case Async => Ran(Absorb(c, ExecNext(h, i, c.body, true)))
    case SvcCall => Ran(Absorb(c, h.call(i.a, c.body, i.Millis())))
    case Fallback =>
      if c.failed then Ran(Absorb(c.(failed := false), ExecNext(h, i, c.body, false))) else Ran(c)
    case Parallel => Replace(c, h.parallel(i, c.body), false)
    case Collect => Replace(c, h.collect(i, c.body), true)
    case Map => Replace(c, h.map_(i, c.body), false)
    case Dag => Replace(c, h.dag(i, c.body), true)
    case Emit => Check(c, h.emit(i, c.body))
    case TypeGuard => Check(c, h.guard(i, c.body))
    case Buffer => Threw(BufferInVm)
    case _ => Ran(c)
  }

  /** Length of the straight run of instructions from `i` to the next boundary or the end. */
  function StraightLen(p: Plan, i: nat): (n: nat)
    ensures i <= |p| ==> i + n <= |p|
    ensures i + n < |p| ==> p[i + n].Boundary()
    decreases |p| - i
  {
    if i >= |p| || p[i].Boundary() then 0 else 1 + StraightLen(p, i + 1)
  }

  /** How far a failed gate skips; `ip` already points behind the gate. */
  function SkipCount(p: Plan, ip: nat): nat {
    1 + StraightLen(p, ip + 1)
  }

  /** One dispatched instruction; `c.ip` has already been advanced past it. */
  function Dispatch(p: Plan, h: Host, i: Instr, c: Ctx): Exec {
    match i.op
    case Gate => Ran(if h.gate(i, c.body) then c else c.(ip := c.ip + SkipCount(p, c.ip)))
    case Drop => Ran(c.(ip := |p|))
    case Jmp => if i.a >= |p| then Threw(JumpOutOfBounds(i.a, |p|)) else Ran(c.(ip := i.a))
    case _ => Effect(h, i, c)
  }

  /** One turn of the loop in `run`. */
  function Turn(p: Plan, h: Host, c: Ctx): Exec
    requires c.ip < |p|
  {
    Dispatch(p, h, p[c.ip], c.(ip := c.ip + 1))
  }

  datatype Run = Finished(ctx: Ctx) | Failed(err: VmError) | Unfinished(ctx: Ctx)

  /** `run` cut off after at most `n` dispatches. */
  function RunFor(p: Plan, h: Host, c: Ctx, n: nat): Run
    decreases n
  {
    if c.ip >= |p| then Finished(c)
    else if n == 0 then Unfinished(c)
    else match Turn(p, h, c)
      case Threw(e) => Failed(e)
      case Ran(c') => RunFor(p, h, c', n - 1)
  }

  datatype StepResult =
    | Done
    | Continue
    | Pending(svc: U16, body: Body, timeout: nat)
    | Pause(ms: nat)
    | Error(err: VmError)

  /** Feeding a response completes the suspended call. */
  function Feed(c: Ctx, resp: Option<Body>): Ctx {
    match resp
    case None => c
    case Some(b) => c.(body := b, hops := Hop(c.hops), ip := c.ip + 1)
  }

  /** `step` once the response, if any, has been fed. */
  function StepFed(p: Plan, h: Host, c: Ctx): (Ctx, StepResult) {
    if c.ip >= |p| then (c, Done)
    else
      var i := p[c.ip];
      if i.Suspends() then (c, Pending(i.a, c.body, i.Millis()))
      else if i.op.Delay? then (c.(ip := c.ip + 1), Pause(i.Millis()))
      else match Turn(p, h, c)
        case Threw(e) => (c, Error(e))
        case Ran(c') => (c', if c'.ip >= |p| then Done else Continue)
  }

  function Step(p: Plan, h: Host, c: Ctx, resp: Option<Body>): (Ctx, StepResult) {
    StepFed(p, h, Feed(c, resp))
  }

  /** The machine itself: the fields of the context are updated in place. */
  class VM {
    const plan: Plan
    const host: Host
    var ip: nat
    var body: Body
    var hopCount: U16
    var failed: bool
    var errors: seq<string>

    constructor (plan: Plan, host: Host, c: Ctx)
      ensures this.plan == plan && this.host == host && State() == c
    {
      this.plan, this.host := plan, host;
      ip, body, hopCount, failed, errors := c.ip, c.body, c.hops, c.failed, c.errors;
    }

    function State(): Ctx
      reads this
    {
      Ctx(ip, body, hopCount, failed, errors)
    }

    /** The forward scan of `gate::skip_count`. */
    method CountSkipped() returns (count: nat)
      ensures count == SkipCount(plan, ip)
    {
      count := 1;
      var i := ip + 1;
      while i < |plan|
        invariant ip + 1 <= i
        invariant SkipCount(plan, ip) == count + StraightLen(plan, i)
        decreases |plan| - i
      {
        if plan[i].Boundary() {
          break;
        }
        count := count + 1;
        i := i + 1;
      }
    }

    method Settle(r: Reply)
      modifies this
      ensures State() == Absorb(old(State()), r)
    {
      match r
      case Ok(b) => body, hopCount := b, Hop(hopCount);
      case Fault(e) => failed, errors := true, errors + [e];
    }

    /** `exec_with_retry` as a loop over attempts. */
    method CallWithRetry(i: Instr, maxAttempts: U8, isAsync: bool) returns (r: Reply)
      requires i.HasRetry()
      ensures r == ExecNext(host, i, body, isAsync)
    {
      var attempt := 0;
      r := Fault("all retries exhausted");
      while attempt < maxAttempts + 1
        invariant 0 <= attempt <= maxAttempts + 1
        invariant attempt > 0 ==> r.Fault? && r == host.call(i.a, body, i.Millis())
      {
        r := host.call(i.a, body, i.Millis());
        if r.Ok? {
          return if isAsync then Ok([]) else r;
        }
        attempt := attempt + 1;
      }
    }

    method CallNext(i: Instr, maxAttempts: U8, isAsync: bool) returns (r: Reply)
      ensures r == ExecNext(host, i, body, isAsync)
    {
      if i.HasRetry() {
        r := CallWithRetry(i, maxAttempts, isAsync);
      } else {
        r := host.call(i.a, body, i.Millis());
      }
    }

    /** `dispatch`; an error leaves a context nobody looks at again. */
    method Execute(i: Instr, maxAttempts: U8) returns (err: Option<VmError>)
      modifies this
      ensures err.None? ==> Dispatch(plan, host, i, old(State())) == Ran(State())
      ensures err.Some? ==> Dispatch(plan, host, i, old(State())) == Threw(err.value)
    {
      err := None;
      var reply: Reply;
      match i.op
      case Next => reply := CallNext(i, maxAttempts, false); Settle(reply);
      case Async => reply := CallNext(i, maxAttempts, true); Settle(reply);
      case SvcCall => Settle(host.call(i.a, body, i.Millis()));
      case Fallback =>
        if failed {
          failed := false;
          reply := CallNext(i, maxAttempts, false);
          Settle(reply);
        }
      case Gate =>
        if !host.gate(i, body) {
          var skip := CountSkipped();
          ip := ip + skip;
        }
      case Drop => ip := |plan|;
      case Jmp =>
        if i.a >= |plan| {
          err := Some(JumpOutOfBounds(i.a, |plan|));
        } else {
          ip := i.a;
        }
      case Parallel => err := Become(host.parallel(i, body), false);
      case Collect => err := Become(host.collect(i, body), true);
      case Map => err := Become(host.map_(i, body), false);
      case Dag => err := Become(host.dag(i, body), true);
      case Emit => err := Refusal(host.emit(i, body));
      case TypeGuard => err := Refusal(host.guard(i, body));
      case Buffer => err := Some(BufferInVm);
      case _ =>
    }

    method Become(r: Reply, hop: bool) returns (err: Option<VmError>)
      modifies this
      ensures err.None? ==> Replace(old(State()), r, hop) == Ran(State())
      ensures err.Some? ==> Replace(old(State()), r, hop) == Threw(err.value)
    {
      match r
      case Ok(b) =>
        body := b;
        if hop { hopCount := Hop(hopCount); }
        err := None;
      case Fault(e) => err := Some(HostError(e));
    }

    static function Refusal(r: Reply): Option<VmError> {
      if r.Fault? then Some(HostError(r.msg)) else None
    }

    /** Fetch, advance, dispatch. */
    method Proceed(maxAttempts: U8) returns (err: Option<VmError>)
      requires ip < |plan|
      modifies this
      ensures err.None? ==> Turn(plan, host, old(State())) == Ran(State())
      ensures err.Some? ==> Turn(plan, host, old(State())) == Threw(err.value)
    {
      var i := plan[ip];
      ip := ip + 1;
      err := Execute(i, maxAttempts);
    }

    /** `run`, for every start from which the loop stops at all. */
    method RunToEnd(maxAttempts: U8, ghost n: nat) returns (err: Option<VmError>)
      requires !RunFor(plan, host, State().(ip := 0), n).Unfinished?
      modifies this
      ensures err.None? ==> RunFor(plan, host, old(State()).(ip := 0), n) == Finished(State())
      ensures err.Some? ==> RunFor(plan, host, old(State()).(ip := 0), n) == Failed(err.value)
    {
      ip := 0;
      ghost var start := State();
      ghost var left := n;
      while ip < |plan|
        invariant RunFor(plan, host, State(), left) == RunFor(plan, host, start, n)
        decreases left
      {
        err := Proceed(maxAttempts);
        if err.Some? {
          return;
        }
        left := left - 1;
      }
      err := None;
    }

    /** `step`. */
    method StepOnce(response: Option<Body>, maxAttempts: U8) returns (r: StepResult)
      modifies this
      ensures r == Step(plan, host, old(State()), response).1
      ensures !r.Error? ==> State() == Step(plan, host, old(State()), response).0
    {
      if response.Some? {
        body, hopCount, ip := response.value, Hop(hopCount), ip + 1;
      }
      if ip >= |plan| {
        return Done;
      }
      var i := plan[ip];
      if i.Suspends() {
        r := Pending(i.a, body, i.Millis());
      } else if i.op.Delay? {
        ip := ip + 1;
        r := Pause(i.Millis());
      } else {
        var err := Proceed(maxAttempts);
        if err.Some? {
          return Error(err.value);
        }
        r := if ip >= |plan| then Done else Continue;
      }
    }
  }
}
