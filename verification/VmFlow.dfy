/** A reference meaning for every plan, jumps included: what each opcode does to the data is read off
    tables of opcodes, and control moves between blocks cut at Gate and Label. */
module VmFlow {
  import opened Prelude
  import opened Vm
  import opened VmGates

  /* ---- what one instruction does to the data ---- */

  /** The opcodes that call a service, */
  predicate Calls(op: OpCode) {
    op.Next? || op.Async? || op.SvcCall? || op.Fallback?
  }

  /** those whose answer becomes the body, */
  predicate Replaces(op: OpCode) {
    Calls(op) || op.Parallel? || op.Collect? || op.Map? || op.Dag?
  }

  /** those that count a hop, */
  predicate Hops(op: OpCode) {
    Calls(op) || op.Collect? || op.Dag?
  }

  /** and those that only check the body. */
  predicate Checks(op: OpCode) {
    op.Emit? || op.TypeGuard?
  }

  /** The answer an instruction gets. A timeout is stored with its high half in `b` and its low half in
      `c`; a retrying Async gets an empty answer. */
  function Asked(h: Host, i: Instr, c: Ctx): Reply
    requires Replaces(i.op) || Checks(i.op)
  {
    match i.op
    case Parallel => h.parallel(i, c.body)
    case Collect => h.collect(i, c.body)
    case Map => h.map_(i, c.body)
    case Dag => h.dag(i, c.body)
    case Emit => h.emit(i, c.body)
    case TypeGuard => h.guard(i, c.body)
    case _ =>
      var r := h.call(i.a, c.body, i.b * 65536 + i.c);
      if i.op == Async && i.flags % 2 == 1 && r.Ok? then Ok([]) else r
  }

  /** An instruction that is neither a gate, a jump nor a drop. A fallback is idle while no failure is
      pending and otherwise uses it up. Failing calls are recorded, other failures stop the run. */
  function Obey(h: Host, i: Instr, c: Ctx): Exec {
    if i.op == Buffer then Threw(BufferInVm)
    else if !(Replaces(i.op) || Checks(i.op)) || (i.op == Fallback && !c.failed) then Ran(c)
    else match Asked(h, i, c)
      case Ok(b) =>
        Ran(Ctx(c.ip, if Replaces(i.op) then b else c.body, if Hops(i.op) then (c.hops + 1) % 65536 else c.hops,
                c.failed && i.op != Fallback, c.errors))
      case Fault(e) => if Calls(i.op) then Ran(c.(failed := true, errors := c.errors + [e])) else Threw(HostError(e))
  }

  predicate Plain(i: Instr) {
    !i.op.Gate? && !i.op.Jmp? && !i.op.Drop?
  }

  lemma EffectObeys(h: Host, i: Instr, c: Ctx)
    requires Plain(i)
    ensures Effect(h, i, c) == Obey(h, i, c)
  {
    assert i.flags % 2 == 1 <==> i.HasRetry();
  }

  /* ---- blocks with jumps ---- */

  /** How straight code ends: behind its last instruction, with a jump, with a drop or with an error. */
  datatype Exit = On(c: Ctx) | Leap(target: nat, c: Ctx) | Halt(c: Ctx) | Bad(err: VmError)

  function Code(h: Host, len: nat, code: seq<Instr>, c: Ctx): Exit
    decreases |code|
  {
    if code == [] then On(c)
    else if code[0].op == Drop then Halt(c)
    else if code[0].op == Jmp then if code[0].a < len then Leap(code[0].a, c) else Bad(JumpOutOfBounds(code[0].a, len))
    else match Obey(h, code[0], c)
      case Threw(e) => Bad(e)
      case Ran(c') => Code(h, len, code[1..], c')
  }

  datatype Outcome = Ended(c: Ctx) | Broke(err: VmError) | At(k: nat, c: Ctx)

  /** Where the block that starts at `k` ends. */
  function BlockEnd(p: Plan, k: nat): nat {
    k + 1 + StraightLen(p, k + 1)
  }

  /** One block from position `k`: a guarded block is passed over if its gate fails; behind a block
      comes the next one, and a jump goes on at its target, which may be inside a block. */
  function Block(h: Host, p: Plan, k: nat, c: Ctx): Outcome
    requires k < |p|
  {
    var end := BlockEnd(p, k);
    if p[k].op == Gate && !h.gate(p[k], c.body) then At(end, c)
    else Stretch(h, p, if p[k].op == Gate then k + 1 else k, end, c)
  }

  /** The code from `lo` up to `end`. */
  function Stretch(h: Host, p: Plan, lo: nat, end: nat, c: Ctx): Outcome
    requires lo <= end <= |p|
  {
    match Code(h, |p|, p[lo..end], c)
    case On(c') => At(end, c')
    case Leap(t, c') => At(t, c')
    case Halt(c') => Ended(c')
    case Bad(e) => Broke(e)
  }

  /** Block after block, at most `fuel` of them. */
  function Follow(h: Host, p: Plan, k: nat, c: Ctx, fuel: nat): Outcome
    decreases fuel
  {
    if k >= |p| then Ended(c)
    else if fuel == 0 then At(k, c)
    else match Block(h, p, k, c)
      case At(k', c') => Follow(h, p, k', c', fuel - 1)
      case o => o
  }

  /** The machine's outcome is the reference outcome. */
  predicate Agrees(r: Run, o: Outcome) {
    match o
    case Ended(c) => r.Finished? && SameData(r.ctx, c)
    case Broke(e) => r == Failed(e)
    case At(_, _) => false
  }

  /** A jump goes on at its target; out of range it ends the run with an error and no other effect. */
  lemma JumpGoes(p: Plan, h: Host, c: Ctx, n: nat)
    requires c.ip < |p| && p[c.ip].op.Jmp? && n > 0
    ensures RunFor(p, h, c, n) ==
            if p[c.ip].a < |p| then RunFor(p, h, c.(ip := p[c.ip].a), n - 1)
            else Failed(JumpOutOfBounds(p[c.ip].a, |p|))
  {
  }

  /** Enough dispatches for the code at hand, or a run that halts with those it has. */
  predicate Enough(p: Plan, h: Host, d: Ctx, k: nat, end: nat, n: nat) {
    n >= end - k || !RunFor(p, h, d.(ip := k), n).Unfinished?
  }

  /** Running through gate-free code is what the reference says; `j` dispatches are used up. */
  lemma {:induction false} RunsCode(p: Plan, h: Host, d: Ctx, k: nat, end: nat, n: nat) returns (j: nat)
    requires k <= end <= |p| && Enough(p, h, d, k, end, n)
    requires forall i :: k <= i < end ==> !p[i].op.Gate?
    ensures match Code(h, |p|, p[k..end], d)
            case On(d') => end - k == j <= n && RunFor(p, h, d.(ip := k), n) == RunFor(p, h, d'.(ip := end), n - j)
            case Leap(t, d') =>
              1 <= j <= n && j <= end - k && RunFor(p, h, d.(ip := k), n) == RunFor(p, h, d'.(ip := t), n - j)
            case Halt(d') => RunFor(p, h, d.(ip := k), n) == Finished(d'.(ip := |p|))
            case Bad(e) => RunFor(p, h, d.(ip := k), n) == Failed(e)
    decreases end - k
  {
    hide Turn, Effect, Obey;
    j := 0;
    if k < end {
      var c := d.(ip := k);
      assert p[k..end][0] == p[k] && p[k..end][1..] == p[k + 1..end];
      assert n > 0;
      if p[k].op.Jmp? {
        JumpGoes(p, h, c, n);
        j := 1;
      } else {
        PlainTurn(p, h, d, k, n);
        if !p[k].op.Drop? {
          EffectObeys(h, p[k], d);
          var e := Effect(h, p[k], d);
          if e.Ran? {
            var rest := RunsCode(p, h, e.ctx, k + 1, end, n - 1);
            j := rest + 1;
          }
        }
      }
    }
  }

  lemma RunsStretch(p: Plan, h: Host, d: Ctx, lo: nat, end: nat, n: nat) returns (j: nat)
    requires lo <= end <= |p| && Enough(p, h, d, lo, end, n)
    requires forall i :: lo <= i < end ==> !p[i].op.Gate?
    ensures match Stretch(h, p, lo, end, d)
            case At(k', d') =>
              && j <= n && j <= end - lo && (lo < end ==> j > 0)
              && RunFor(p, h, d.(ip := lo), n) == RunFor(p, h, d'.(ip := k'), n - j)
            case o => Agrees(RunFor(p, h, d.(ip := lo), n), o)
  {
    hide Turn, Effect, Code, RunFor;
    j := RunsCode(p, h, d, lo, end, n);
  }

  /** One block of the reference is between one and |p| dispatches of the machine. Behind the end of the
      plan all positions are the same. */
  lemma RunsBlock(p: Plan, h: Host, d: Ctx, k: nat, n: nat) returns (next: nat, j: nat)
    requires GatesPadded(p) && k < |p| && (n >= |p| || !RunFor(p, h, d.(ip := k), n).Unfinished?)
    ensures match Block(h, p, k, d)
            case At(k', d') =>
              && 1 <= j <= n && j <= |p| && (next == k' || (next >= |p| && k' >= |p|))
              && RunFor(p, h, d.(ip := k), n) == RunFor(p, h, d'.(ip := next), n - j)
            case o => Agrees(RunFor(p, h, d.(ip := k), n), o)
  {
    hide Turn, Effect, Code, StraightLen, RunFor, Stretch, SkipCount, GatesPadded, Agrees;
    Alive(p, h, d, k, n);
    var end := BlockEnd(p, k);
    forall i | k + 1 <= i < end ensures !p[i].op.Gate? {
      StraightIsPlain(p, k + 1, i);
    }
    j := 1;
    if !p[k].op.Gate? {
      j := RunsStretch(p, h, d, k, end, n);
      var o := Block(h, p, k, d);
      next := if o.At? then o.k else end;
    } else {
      GateTurn(p, h, d, k, n);
      if !h.gate(p[k], d.body) {
        next := GateLanding(p, k);
      } else {
        j := RunsStretch(p, h, d, k + 1, end, n - 1);
        var o := Block(h, p, k, d);
        next, j := if o.At? then o.k else end, j + 1;
      }
    }
  }

  lemma GateLanding(p: Plan, k: nat) returns (next: nat)
    requires GatesPadded(p) && k < |p| && p[k].op.Gate?
    ensures next == k + 1 + SkipCount(p, k + 1) && (next == BlockEnd(p, k) || (next >= |p| && BlockEnd(p, k) >= |p|))
  {
    SkipLandsAtBlockEnd(p, k);
    next := k + 1 + SkipCount(p, k + 1);
  }

  lemma Alive(p: Plan, h: Host, d: Ctx, k: nat, n: nat)
    requires k < |p| && (n >= |p| || !RunFor(p, h, d.(ip := k), n).Unfinished?)
    ensures n > 0
  {
  }

  /** For every plan with padded gates, jumps in any direction included: a run that halts within `n`
      dispatches has the outcome that the blocks have. */
  lemma {:induction false} RunFollowsBlocks(p: Plan, h: Host, d: Ctx, k: nat, n: nat)
    requires GatesPadded(p) && !RunFor(p, h, d.(ip := k), n).Unfinished?
    ensures Agrees(RunFor(p, h, d.(ip := k), n), Follow(h, p, k, d, n))
    decreases n
  {
    hide RunFor, Follow, Block, GatesPadded;
    if k >= |p| {
      Over(p, h, d, k, n, n);
    } else {
      Alive(p, h, d, k, n);
      var next, j := RunsBlock(p, h, d, k, n);
      FollowStep(h, p, k, d, n);
      var o := Block(h, p, k, d);
      if o.At? {
        if next == o.k {
          RunFollowsBlocks(p, h, o.c, o.k, n - j);
          FollowsOn(h, p, o.k, o.c, n - j, n - 1);
        } else {
          Over(p, h, o.c, next, n - j, n - 1);
          Over(p, h, o.c, o.k, n - j, n - 1);
        }
      }
    }
  }

  lemma Over(p: Plan, h: Host, d: Ctx, k: nat, n: nat, fuel: nat)
    requires k >= |p|
    ensures RunFor(p, h, d.(ip := k), n) == Finished(d.(ip := k)) && Follow(h, p, k, d, fuel) == Ended(d)
  {
  }

  lemma FollowStep(h: Host, p: Plan, k: nat, c: Ctx, fuel: nat)
    requires k < |p| && fuel > 0
    ensures var o := Block(h, p, k, c);
            Follow(h, p, k, c, fuel) == if o.At? then Follow(h, p, o.k, o.c, fuel - 1) else o
  {
    hide Block;
  }

  /** More fuel does not change an outcome. */
  lemma {:induction false} FollowsOn(h: Host, p: Plan, k: nat, c: Ctx, fuel: nat, more: nat)
    requires fuel <= more && !Follow(h, p, k, c, fuel).At?
    ensures Follow(h, p, k, c, more) == Follow(h, p, k, c, fuel)
    decreases fuel
  {
    hide Block;
    if k < |p| {
      var o := Block(h, p, k, c);
      if o.At? {
        FollowsOn(h, p, o.k, o.c, fuel - 1, more - 1);
      }
    }
  }

  /** And if the blocks come to an end, so does the run, with at most |p| dispatches per block. */
  lemma {:induction false} BlocksAreRun(p: Plan, h: Host, d: Ctx, k: nat, fuel: nat, n: nat)
    requires GatesPadded(p) && !Follow(h, p, k, d, fuel).At? && n >= Budget(fuel, |p|)
    ensures Agrees(RunFor(p, h, d.(ip := k), n), Follow(h, p, k, d, fuel))
    decreases fuel
  {
    hide RunFor, Follow, Block, GatesPadded, Budget;
    if k >= |p| {
      Over(p, h, d, k, n, fuel);
    } else {
      NotSpent(h, p, k, d, fuel);
      BudgetStep(fuel, |p|);
      var next, j := RunsBlock(p, h, d, k, n);
      FollowStep(h, p, k, d, fuel);
      var o := Block(h, p, k, d);
      if o.At? {
        if next == o.k {
          BlocksAreRun(p, h, o.c, o.k, fuel - 1, n - j);
        } else {
          Over(p, h, o.c, next, n - j, fuel - 1);
          Over(p, h, o.c, o.k, n - j, fuel - 1);
        }
      }
    }
  }

  lemma NotSpent(h: Host, p: Plan, k: nat, c: Ctx, fuel: nat)
    requires k < |p| && !Follow(h, p, k, c, fuel).At?
    ensures fuel > 0
  {
  }

  function Budget(fuel: nat, len: nat): nat {
    fuel * len
  }

  lemma BudgetStep(fuel: nat, len: nat)
    ensures fuel > 0 ==> Budget(fuel, len) == Budget(fuel - 1, len) + len
  {
  }
}
