/** Flat gated bytecode has a structured meaning: a list of blocks, some of them guarded. */
module VmGates {
  import opened Prelude
  import opened Vm

  /** A stretch of code cut at Gate and Label; a guarded block runs only if its gate passes. */
  datatype Block = Block(guard: Option<Instr>, code: seq<Instr>)

  datatype Flow = Go(ctx: Ctx) | Stop(ctx: Ctx) | Raise(err: VmError)

  function Blocks(p: Plan, k: nat): (bs: seq<Block>)
    decreases |p| - k
  {
    if k >= |p| then []
    else
      var end := k + 1 + StraightLen(p, k + 1);
      var b := if p[k].op.Gate? then Block(Some(p[k]), p[k + 1..end]) else Block(None, p[k..end]);
      [b] + Blocks(p, end)
  }

  /** Straight-line code, without an instruction index. */
  function ExecCode(h: Host, code: seq<Instr>, c: Ctx): Flow
    decreases |code|
  {
    if code == [] then Go(c)
    else if code[0].op.Drop? then Stop(c)
    else match Effect(h, code[0], c)
      case Threw(e) => Raise(e)
      case Ran(c') => ExecCode(h, code[1..], c')
  }

  function ExecBlock(h: Host, b: Block, c: Ctx): Flow {
    if b.guard.Some? && !h.gate(b.guard.value, c.body) then Go(c) else ExecCode(h, b.code, c)
  }

  function ExecBlocks(h: Host, bs: seq<Block>, c: Ctx): Flow
    decreases |bs|
  {
    if bs == [] then Go(c)
    else match ExecBlock(h, bs[0], c)
      case Go(c') => ExecBlocks(h, bs[1..], c')
      case f => f
  }

  predicate JumpFree(p: Plan) {
    forall i :: i in p ==> !i.op.Jmp?
  }

  /** No gate is directly followed by another gate or a label; the compiler puts a JumpOffset
      behind every gate, which is stronger. */
  predicate GatesPadded(p: Plan) {
    forall k :: 0 <= k < |p| - 1 && p[k].op.Gate? ==> !p[k + 1].Boundary()
  }

  /** The two contexts agree on everything but the instruction index. */
  predicate SameData(c: Ctx, d: Ctx) {
    c.(ip := 0) == d.(ip := 0)
  }

  /** The machine's outcome is the structured outcome. */
  predicate Means(r: Run, f: Flow) {
    match f
    case Go(d) => r.Finished? && SameData(r.ctx, d)
    case Stop(d) => r.Finished? && SameData(r.ctx, d)
    case Raise(e) => r == Failed(e)
  }

  /** A failed gate lands exactly at the end of its block (or behind the end of the plan) if and
      only if it is not directly followed by a boundary. */
  lemma SkipLandsAtBlockEnd(p: Plan, g: nat)
    requires g < |p| && p[g].op.Gate?
    ensures var landing, end := g + 1 + SkipCount(p, g + 1), g + 1 + StraightLen(p, g + 1);
            (landing == end || (landing >= |p| && end >= |p|)) <==> g + 1 >= |p| || !p[g + 1].Boundary()
  {}

  lemma {:induction false} StraightIsPlain(p: Plan, i: nat, k: nat)
    requires i <= k < i + StraightLen(p, i)
    ensures k < |p| && !p[k].Boundary()
    decreases |p| - i
  {
    if i < k { StraightIsPlain(p, i + 1, k); }
  }

  lemma EffectIgnoresIp(h: Host, i: Instr, c: Ctx, k: nat)
    ensures match Effect(h, i, c)
            case Threw(e) => Effect(h, i, c.(ip := k)) == Threw(e)
            case Ran(c') => Effect(h, i, c.(ip := k)) == Ran(c'.(ip := k))
  {}

  /** One dispatch of an instruction that is no gate and no jump, on data `d`. */
  lemma PlainTurn(p: Plan, h: Host, d: Ctx, k: nat, n: nat)
    requires k < |p| && n > 0 && !p[k].op.Gate? && !p[k].op.Jmp?
    ensures p[k].op.Drop? ==> RunFor(p, h, d.(ip := k), n) == Finished(d.(ip := |p|))
    ensures !p[k].op.Drop? ==>
              match Effect(h, p[k], d)
              case Threw(e) => RunFor(p, h, d.(ip := k), n) == Failed(e)
              case Ran(d') => RunFor(p, h, d.(ip := k), n) == RunFor(p, h, d'.(ip := k + 1), n - 1)
  {
    var c := d.(ip := k);
    EffectIgnoresIp(h, p[k], d, k + 1);
    assert Turn(p, h, c) == if p[k].op.Drop? then Ran(c.(ip := |p|)) else Effect(h, p[k], d.(ip := k + 1));
  }

  /** Running through straight-line code up to `end` is executing it as code. */
  lemma {:induction false} RunsStraight(p: Plan, h: Host, d: Ctx, k: nat, end: nat, n: nat)
    requires JumpFree(p) && k <= end <= |p| && n >= |p| - k
    requires forall j :: k <= j < end ==> !p[j].op.Gate?
    ensures match ExecCode(h, p[k..end], d)
            case Go(d') => RunFor(p, h, d.(ip := k), n) == RunFor(p, h, d'.(ip := end), n - (end - k))
            case f => Means(RunFor(p, h, d.(ip := k), n), f)
    decreases end - k
  {
    hide Turn, Effect;
    if k < end {
      assert p[k..end][0] == p[k] && p[k..end][1..] == p[k + 1..end];
      assert p[k] in p;
      PlainTurn(p, h, d, k, n);
      if !p[k].op.Drop? {
        var e := Effect(h, p[k], d);
        if e.Ran? {
          RunsStraight(p, h, e.ctx, k + 1, end, n - 1);
        }
      }
    }
  }

  /** One dispatch of a gate. */
  lemma GateTurn(p: Plan, h: Host, d: Ctx, k: nat, n: nat)
    requires k < |p| && n > 0 && p[k].op.Gate?
    ensures RunFor(p, h, d.(ip := k), n) ==
            RunFor(p, h, d.(ip := if h.gate(p[k], d.body) then k + 1 else k + 1 + SkipCount(p, k + 1)), n - 1)
  {}

  /** Code from `lo` to `end` followed by whatever the later blocks mean. */
  lemma RunsCodeThenBlocks(p: Plan, h: Host, d: Ctx, lo: nat, end: nat, n: nat)
    requires JumpFree(p) && GatesPadded(p) && lo <= end <= |p| && n >= |p| - lo
    requires forall j :: lo <= j < end ==> !p[j].op.Gate?
    ensures match ExecCode(h, p[lo..end], d)
            case Go(d') => Means(RunFor(p, h, d.(ip := lo), n), ExecBlocks(h, Blocks(p, end), d'))
            case f => Means(RunFor(p, h, d.(ip := lo), n), f)
    decreases |p| - end, 1
  {
    hide Turn, Effect;
    RunsStraight(p, h, d, lo, end, n);
    var f := ExecCode(h, p[lo..end], d);
    if f.Go? {
      RunsBlocks(p, h, f.ctx, end, n - (end - lo));
    }
  }

  lemma FirstBlock(p: Plan, h: Host, d: Ctx, k: nat)
    requires k < |p|
    ensures var end := k + 1 + StraightLen(p, k + 1);
            var f := if p[k].op.Gate? && !h.gate(p[k], d.body) then Go(d)
                     else ExecCode(h, p[if p[k].op.Gate? then k + 1 else k..end], d);
            ExecBlocks(h, Blocks(p, k), d) == if f.Go? then ExecBlocks(h, Blocks(p, end), f.ctx) else f
  {
    hide Effect, ExecCode, StraightLen, ExecBlocks;
    var end := k + 1 + StraightLen(p, k + 1);
    var b := if p[k].op.Gate? then Block(Some(p[k]), p[k + 1..end]) else Block(None, p[k..end]);
    assert Blocks(p, k) == [b] + Blocks(p, end);
    hide Blocks;
    HeadBlock(h, b, Blocks(p, end), d);
  }

  lemma HeadBlock(h: Host, b: Block, rest: seq<Block>, d: Ctx)
    ensures var f := ExecBlock(h, b, d);
            ExecBlocks(h, [b] + rest, d) == if f.Go? then ExecBlocks(h, rest, f.ctx) else f
  {
    hide ExecBlock;
    assert ([b] + rest)[1..] == rest;
  }

  lemma NoBlocks(p: Plan, h: Host, d: Ctx, k: nat)
    requires k >= |p|
    ensures ExecBlocks(h, Blocks(p, k), d) == Go(d)
  {}

  /** Running from the start of a block is interpreting the remaining blocks. */
  lemma {:induction false} RunsBlocks(p: Plan, h: Host, d: Ctx, k: nat, n: nat)
    requires JumpFree(p) && GatesPadded(p) && n >= |p| - k
    ensures Means(RunFor(p, h, d.(ip := k), n), ExecBlocks(h, Blocks(p, k), d))
    decreases |p| - k, 0
  {
    hide Turn, Effect, Blocks, ExecBlocks, ExecCode, StraightLen;
    if k >= |p| {
      NoBlocks(p, h, d, k);
    } else {
      var end := k + 1 + StraightLen(p, k + 1);
      FirstBlock(p, h, d, k);
      forall j | k + 1 <= j < end ensures !p[j].op.Gate? {
        StraightIsPlain(p, k + 1, j);
      }
      if !p[k].op.Gate? {
        RunsCodeThenBlocks(p, h, d, k, end, n);
      } else {
        GateTurn(p, h, d, k, n);
        if h.gate(p[k], d.body) {
          RunsCodeThenBlocks(p, h, d, k + 1, end, n - 1);
        } else {
          var landing := k + 1 + SkipCount(p, k + 1);
          SkipLandsAtBlockEnd(p, k);
          RunsBlocks(p, h, d, landing, n - 1);
          if landing != end {
            NoBlocks(p, h, d, end);
            NoBlocks(p, h, d, landing);
          }
        }
      }
    }
  }

  /** For jump-free plans with padded gates, `run` is the structured interpreter: each block in
      turn, a guarded one iff its gate holds on the body at that moment. */
  lemma RunIsStructured(p: Plan, h: Host, body: Body, n: nat)
    requires JumpFree(p) && GatesPadded(p) && n >= |p|
    ensures Means(RunFor(p, h, FreshCtx(body), n), ExecBlocks(h, Blocks(p, 0), FreshCtx(body)))
  {
    RunsBlocks(p, h, FreshCtx(body), 0, n);
  }

  function Source(b: Block): seq<Instr> {
    (if b.guard.Some? then [b.guard.value] else []) + b.code
  }

  function Flatten(bs: seq<Block>): seq<Instr> {
    if bs == [] then [] else Source(bs[0]) + Flatten(bs[1..])
  }

  /** The blocks are the plan, cut: nothing lost, nothing reordered. */
  lemma {:induction false} BlocksCoverPlan(p: Plan, k: nat)
    requires k <= |p|
    ensures Flatten(Blocks(p, k)) == p[k..]
    decreases |p| - k
  {
    hide StraightLen, Source;
    if k < |p| {
      var end := k + 1 + StraightLen(p, k + 1);
      BlocksCoverPlan(p, end);
      var bs := Blocks(p, k);
      assert bs[1..] == Blocks(p, end);
      FirstSource(p, k, end, bs[0]);
      assert p[k..] == p[k..end] + p[end..];
    }
  }

  lemma FirstSource(p: Plan, k: nat, end: nat, b: Block)
    requires k < end <= |p|
    requires b == if p[k].op.Gate? then Block(Some(p[k]), p[k + 1..end]) else Block(None, p[k..end])
    ensures Source(b) == p[k..end]
  {
    assert p[k..end] == [p[k]] + p[k + 1..end];
  }

  /** Unpadded, the meaning is lost: a failed gate in front of a label skips the label's block. */
  lemma UnpaddedGateSkipsLabel(h: Host, g: Instr, l: Instr, m: Instr, body: Body)
    requires g.op.Gate? && l.op.Label? && m.op.Map?
    requires !h.gate(g, body) && h.map_(m, body).Ok? && h.map_(m, body).body != body
    ensures !Means(RunFor([g, l, m], h, FreshCtx(body), 3), ExecBlocks(h, Blocks([g, l, m], 0), FreshCtx(body)))
  {
    var p, c := [g, l, m], FreshCtx(body);
    var c' := c.(body := h.map_(m, body).body);
    GateTurn(p, h, c, 0, 3);
    assert StraightLen(p, 2) == 1 && StraightLen(p, 1) == 0;
    var bs := [Block(Some(g), []), Block(None, [l, m])];
    assert Blocks(p, 3) == [];
    assert Blocks(p, 1) == [Block(None, p[1..3])] + Blocks(p, 3);
    assert Blocks(p, 0) == [Block(Some(g), p[1..1])] + Blocks(p, 1);
    assert p[1..3] == [l, m] && p[1..1] == [];
    assert Blocks(p, 0) == bs;
    assert [l, m][1..] == [m] && [m][1..] == [];
    assert Effect(h, m, c) == Ran(c');
    assert ExecCode(h, [m], c) == ExecCode(h, [], c');
    assert ExecCode(h, [l, m], c) == ExecCode(h, [m], c);
    assert ExecBlocks(h, bs[1..], c) == Go(c');
  }

  /** A block ends right before the next gate or label, or with the plan. */
  lemma BlockCut(p: Plan, k: nat)
    requires k < |p|
    ensures var end := k + 1 + StraightLen(p, k + 1);
            && end <= |p| && (forall i :: k < i < end ==> !p[i].op.Gate? && !p[i].op.Label?)
            && (end < |p| ==> p[end].op.Gate? || p[end].op.Label?)
  {
    var end := k + 1 + StraightLen(p, k + 1);
    forall i | k < i < end ensures !p[i].op.Gate? && !p[i].op.Label? {
      StraightIsPlain(p, k + 1, i);
    }
  }
}
