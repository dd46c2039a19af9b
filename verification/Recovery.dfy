/** Crash-recovery transparency of the durable step loop. */
module Recovery {
  import opened Prelude
  import opened Vm
  import opened Names
  import opened Saga
  import opened Driver

  /** A record of an execution that is not waiting and has not ended. */
  predicate Live(rec: Record) {
    rec.pendingSvc == 0 && rec.pendingBody == [] && rec.output == []
  }

  lemma {:induction false} StepsBounded(w: World, f: nat -> bool, step: nat, ctx: Option<Ctx>, resp: Option<Body>,
                                        rec: Record)
    ensures step <= MAX_STEPS ==> Drive(w, f, step, ctx, resp, rec).steps <= MAX_STEPS - step
    decreases MAX_STEPS - step
  {
    hide Step, CallFor;
    if step < MAX_STEPS && !f(step) {
      var (c, r) := Step(w.plan, w.host, Context(ctx), resp);
      if r.Continue? {
        StepsBounded(w, f, step + 1, Some(c), None, Progressed(rec, c));
      } else if r.Pending? {
        var call := CallFor(w, r.svc, r.body);
        var x := w.service(call.service, call.methodName, r.body);
        if x.Ok? {
          StepsBounded(w, f, step + 1, Some(c), Some(x.body), Resumed(Waiting(rec, c, r.svc, r.body), c));
        }
      }
    }
  }

  /** A drive that completes does the same from any other step number that leaves room for it,
      whatever cancellations it was exposed to. */
  lemma {:induction false} Shift(w: World, f: nat -> bool, s: nat, s': nat, ctx: Option<Ctx>, resp: Option<Body>,
                                 rec: Record, rec': Record)
    requires Live(rec) && Live(rec')
    requires Drive(w, f, s, ctx, resp, rec).end.Output?
    requires s' + Drive(w, f, s, ctx, resp, rec).steps <= MAX_STEPS
    ensures Drive(w, Never, s', ctx, resp, rec') == Drive(w, f, s, ctx, resp, rec)
    decreases MAX_STEPS - s
  {
    hide Step, CallFor;
    var (c, r) := Step(w.plan, w.host, Context(ctx), resp);
    if r.Continue? {
      Shift(w, f, s + 1, s' + 1, Some(c), None, Progressed(rec, c), Progressed(rec', c));
    } else if r.Pending? {
      var call := CallFor(w, r.svc, r.body);
      var x := w.service(call.service, call.methodName, r.body);
      if x.Ok? {
        var next := Resumed(Waiting(rec, c, r.svc, r.body), c);
        Shift(w, f, s + 1, s' + 1, Some(c), Some(x.body), next, next);
      }
    }
  }

  /** The run that starts over from a context with no response at hand. */
  function Replay(w: World, c: Ctx): Trace {
    Drive(w, Never, 0, Some(c), None, Blank)
  }

  /** If the record waits for a service, that service answers alike under both readings of its name;
      if `plain`, because the name has only one reading. */
  predicate OneReading(w: World, plain: bool, r: Record) {
    var name := NameOf(w.names, r.pendingSvc);
    var (svc, m) := ParseServiceMethod(name);
    var t := ParseCompensation(name);
    r.status.WaitingForService? ==>
      && w.service(svc, m, r.pendingBody) == w.service(t.service, t.methodName, r.pendingBody)
      && (plain ==> ':' !in name)
  }

  /** So do all services that a stretch of events waits for. */
  predicate Waits(w: World, plain: bool, es: seq<Event>) {
    forall e :: e in es && e.Saved? ==> OneReading(w, plain, e.rec)
  }

  lemma WaitsConcat(w: World, plain: bool, a: seq<Event>, b: seq<Event>)
    ensures Waits(w, plain, a + b) <==> Waits(w, plain, a) && Waits(w, plain, b)
  {
    hide OneReading;
    assert forall e :: e in a + b <==> e in a || e in b;
  }

  /** A stored record from which the execution can still reach its output. */
  predicate Sound(w: World, plain: bool, r: Record, out: Body) {
    && r.output == [] && r.ctx.Some?
    && Replay(w, r.ctx.value).end == Output(out) && Waits(w, plain, Replay(w, r.ctx.value).events)
    && (r.status.Running? || r.status.WaitingForService?)
    && (r.status.Running? ==> Live(r))
    && (r.status.WaitingForService? ==>
          var (c, p) := Step(w.plan, w.host, r.ctx.value, None);
          c == r.ctx.value && p.Pending? && p.svc == r.pendingSvc && p.body == r.pendingBody)
  }

  /** A step that suspends leaves a context that suspends again in the same way. */
  lemma SuspensionRepeats(p: Plan, h: Host, c: Ctx, resp: Option<Body>)
    ensures var (c', r) := Step(p, h, c, resp); r.Pending? ==> Step(p, h, c', None) == (c', r)
  {
    hide Turn;
  }

  /** What a completing drive did at its first step, and how its tail relates to a replay. */
  lemma AfterContinue(w: World, f: nat -> bool, s: nat, ctx: Option<Ctx>, resp: Option<Body>, rec: Record, c: Ctx)
    requires Live(rec) && Drive(w, f, s, ctx, resp, rec).end.Output?
    requires Step(w.plan, w.host, Context(ctx), resp) == (c, Continue)
    ensures s < MAX_STEPS
    ensures Drive(w, f, s + 1, Some(c), None, Progressed(rec, c)) == Replay(w, c)
    ensures Drive(w, f, s, ctx, resp, rec) == Replay(w, c).After([Saved(Progressed(rec, c))])
  {
    hide Step;
    StepsBounded(w, f, s + 1, Some(c), None, Progressed(rec, c));
    Shift(w, f, s + 1, 0, Some(c), None, Progressed(rec, c), Blank);
  }

  lemma AfterPending(w: World, f: nat -> bool, s: nat, ctx: Option<Ctx>, resp: Option<Body>, rec: Record, c: Ctx,
                     p: StepResult)
    returns (x: Body)
    requires Live(rec) && Drive(w, f, s, ctx, resp, rec).end.Output?
    requires Step(w.plan, w.host, Context(ctx), resp) == (c, p) && p.Pending?
    ensures s < MAX_STEPS
    ensures var call := CallFor(w, p.svc, p.body);
            var waiting := Waiting(rec, c, p.svc, p.body);
            var tail := Drive(w, f, s + 1, Some(c), Some(x), Resumed(waiting, c));
            && w.service(call.service, call.methodName, p.body) == Ok(x)
            && tail.end.Output? && tail.steps + 1 <= MAX_STEPS
            && Drive(w, f, s, ctx, resp, rec) == tail.After([Saved(waiting), Called(call), Saved(Resumed(waiting, c))])
            && Replay(w, c) ==
               tail.After([Saved(Waiting(Blank, c, p.svc, p.body)), Called(call), Saved(Resumed(waiting, c))])
  {
    SuspensionRepeats(w.plan, w.host, Context(ctx), resp);
    hide Step, CallFor;
    var call := CallFor(w, p.svc, p.body);
    var waiting := Waiting(rec, c, p.svc, p.body);
    x := w.service(call.service, call.methodName, p.body).body;
    StepsBounded(w, f, s + 1, Some(c), Some(x), Resumed(waiting, c));
    Shift(w, f, s + 1, 1, Some(c), Some(x), Resumed(waiting, c), Resumed(Waiting(Blank, c, p.svc, p.body), c));
  }

  predicate Suffix<T(==)>(a: seq<T>, b: seq<T>) {
    |a| <= |b| && a == b[|b| - |a|..]
  }

  /** After the first `i` of the events `es`, resuming from `r` still ends with `out`, issuing a
      suffix of the calls `todo` of the whole run and repeating at most one of those already
      issued. */
  predicate Resumable(w: World, plain: bool, es: seq<Event>, i: nat, todo: seq<SagaStep>, r: Record, out: Body)
    requires i <= |es|
  {
    && Sound(w, plain, r, out)
    && var again := Calls(Replay(w, r.ctx.value).events);
       && Suffix(again, todo)
       && |Calls(es[..i])| + |again| <= |todo| + 1
  }

  /** What holds of a crash in the tail of a run holds of it in the whole run. */
  lemma LiftCrash(w: World, plain: bool, pre: seq<Event>, tail: seq<Event>, k: nat, before: Option<Record>,
                  first: seq<SagaStep>, out: Body)
    requires k <= |tail| && |first| == |Calls(pre)|
    requires var r := LastSaved(tail[..k], LastSaved(pre, before));
             r.Some? && Resumable(w, plain, tail, k, Calls(tail), r.value, out)
    ensures var r := LastSaved((pre + tail)[..|pre| + k], before);
            r.Some? && Resumable(w, plain, pre + tail, |pre| + k, first + Calls(tail), r.value, out)
  {
    hide Drive, Sound;
    assert (pre + tail)[..|pre| + k] == pre + tail[..k];
    LastSavedConcat(pre, tail[..k], before);
    CallsConcat(pre, tail[..k]);
  }

  /** Crashing after any non-empty prefix of the events of a completing run leaves a record from
      which the run can be resumed. */
  lemma {:induction false} CrashPoint(w: World, plain: bool, f: nat -> bool, s: nat, ctx: Option<Ctx>,
                                      resp: Option<Body>, rec: Record, i: nat, before: Option<Record>, out: Body)
    requires Live(rec) && Drive(w, f, s, ctx, resp, rec).end == Output(out)
    requires Waits(w, plain, Drive(w, f, s, ctx, resp, rec).events)
    requires 1 <= i <= |Drive(w, f, s, ctx, resp, rec).events|
    ensures var es := Drive(w, f, s, ctx, resp, rec).events;
            var r := LastSaved(es[..i], before);
            r.Some? && Resumable(w, plain, es, i, Calls(es), r.value, out)
    decreases MAX_STEPS - s
  {
    var es := Drive(w, f, s, ctx, resp, rec).events;
    var (c, r) := Step(w.plan, w.host, Context(ctx), resp);
    if r.Continue? {
      CrashAtContinue(w, plain, f, s, ctx, resp, rec, c, i, before, out);
    } else {
      assert r.Pending? by { hide Step; }
      CrashAtPending(w, plain, f, s, ctx, resp, rec, c, r, i, before, out);
    }
  }

  lemma CrashAtContinue(w: World, plain: bool, f: nat -> bool, s: nat, ctx: Option<Ctx>, resp: Option<Body>,
                        rec: Record, c: Ctx, i: nat, before: Option<Record>, out: Body)
    requires Live(rec) && Drive(w, f, s, ctx, resp, rec).end == Output(out)
    requires Waits(w, plain, Drive(w, f, s, ctx, resp, rec).events)
    requires 1 <= i <= |Drive(w, f, s, ctx, resp, rec).events|
    requires Step(w.plan, w.host, Context(ctx), resp) == (c, Continue)
    ensures var es := Drive(w, f, s, ctx, resp, rec).events;
            var r := LastSaved(es[..i], before);
            r.Some? && Resumable(w, plain, es, i, Calls(es), r.value, out)
    decreases MAX_STEPS - s, 0
  {
    hide Step, Drive, Waits, OneReading;
    AfterContinue(w, f, s, ctx, resp, rec, c);
    var rec' := Progressed(rec, c);
    var pre := [Saved(rec')];
    var tail := Replay(w, c).events;
    WaitsConcat(w, plain, pre, tail);
    CallsConcat(pre, tail);
    if i == 1 {
      assert (pre + tail)[..1] == pre;
    } else {
      hide Resumable, LastSaved;
      CrashPoint(w, plain, f, s + 1, Some(c), None, rec', i - 1, LastSaved(pre, before), out);
      LiftCrash(w, plain, pre, tail, i - 1, before, Calls(pre), out);
    }
  }

  lemma CrashAtPending(w: World, plain: bool, f: nat -> bool, s: nat, ctx: Option<Ctx>, resp: Option<Body>, rec: Record,
                       c: Ctx, p: StepResult, i: nat, before: Option<Record>, out: Body)
    requires Live(rec) && Drive(w, f, s, ctx, resp, rec).end == Output(out)
    requires Waits(w, plain, Drive(w, f, s, ctx, resp, rec).events)
    requires 1 <= i <= |Drive(w, f, s, ctx, resp, rec).events|
    requires Step(w.plan, w.host, Context(ctx), resp) == (c, p) && p.Pending?
    ensures var es := Drive(w, f, s, ctx, resp, rec).events;
            var r := LastSaved(es[..i], before);
            r.Some? && Resumable(w, plain, es, i, Calls(es), r.value, out)
    decreases MAX_STEPS - s, 0
  {
    hide Step, Drive, CallFor, Waits, OneReading;
    var x := AfterPending(w, f, s, ctx, resp, rec, c, p);
    SuspensionRepeats(w.plan, w.host, Context(ctx), resp);
    var waiting := Waiting(rec, c, p.svc, p.body);
    var rec', call := Resumed(waiting, c), CallFor(w, p.svc, p.body);
    var pre := [Saved(waiting), Called(call), Saved(rec')];
    var tail := Drive(w, f, s + 1, Some(c), Some(x), rec').events;
    hide Resumable, LastSaved, Calls;
    WaitsConcat(w, plain, pre, tail);
    if i > 3 {
      hide Sound;
      CrashPoint(w, plain, f, s + 1, Some(c), Some(x), rec', i - 3, LastSaved(pre, before), out);
      LiftCrash(w, plain, pre, tail, i - 3, before, Calls(pre), out);
      CallsConcat(pre, tail);
    } else {
      WaitsAgain(w, plain, waiting, call, rec', tail, c, p);
      CallsAround(Saved(Waiting(Blank, c, p.svc, p.body)), call, Saved(rec'), tail);
      EarlyCrash(w, plain, waiting, call, rec', tail, i, before, out);
    }
  }

  /** A replay from a suspension waits for the same services as the run it repeats. */
  lemma WaitsAgain(w: World, plain: bool, waiting: Record, call: SagaStep, rec': Record, tail: seq<Event>, c: Ctx,
                   p: StepResult)
    requires p.Pending? && waiting.pendingSvc == p.svc && waiting.pendingBody == p.body &&
             waiting.status.WaitingForService?
    requires Waits(w, plain, [Saved(waiting), Called(call), Saved(rec')] + tail)
    ensures Waits(w, plain, [Saved(Waiting(Blank, c, p.svc, p.body)), Called(call), Saved(rec')] + tail)
  {
    var pre := [Saved(waiting), Called(call), Saved(rec')];
    var again := [Saved(Waiting(Blank, c, p.svc, p.body)), Called(call), Saved(rec')];
    WaitsConcat(w, plain, pre, tail);
    WaitsConcat(w, plain, again, tail);
    assert pre[0] in pre && pre[2] in pre;
  }

  lemma EarlyCrash(w: World, plain: bool, waiting: Record, call: SagaStep, rec': Record, tail: seq<Event>,
                   i: nat, before: Option<Record>, out: Body)
    requires Sound(w, plain, waiting, out) && Sound(w, plain, rec', out) && waiting.ctx == rec'.ctx
    requires Calls(Replay(w, rec'.ctx.value).events) == [call] + Calls(tail)
    requires 1 <= i <= 3
    ensures var es := [Saved(waiting), Called(call), Saved(rec')] + tail;
            var r := LastSaved(es[..i], before);
            r.Some? && Resumable(w, plain, es, i, Calls(es), r.value, out)
  {
    hide Sound, Replay;
    var pre := [Saved(waiting), Called(call), Saved(rec')];
    CallsAround(Saved(waiting), call, Saved(rec'), tail);
    assert (pre + tail)[..i] == pre[..i];
    assert pre[..1] == [Saved(waiting)] && pre[..2] == [Saved(waiting), Called(call)] && pre[..3] == pre;
    assert [Saved(waiting), Called(call)][..1] == [Saved(waiting)];
  }

  lemma CallsAround(a: Event, call: SagaStep, b: Event, tail: seq<Event>)
    requires a.Saved? && b.Saved?
    ensures Calls([a, Called(call), b] + tail) == [call] + Calls(tail)
    ensures Calls([a, Called(call), b]) == [call] == Calls([a, Called(call)]) && Calls([a]) == []
  {
    assert [a, Called(call), b][1..] == [Called(call), b] && [Called(call), b][1..] == [b];
    assert [a, Called(call)][1..] == [Called(call)];
    assert [b][1..] == [] && [Called(call)][1..] == [];
    assert Calls([b]) == [];
    assert Calls([Called(call), b]) == [call] && Calls([Called(call)]) == [call];
    CallsConcat([a, Called(call), b], tail);
  }

  /** A waiting record waits for what its replay waits for first. */
  lemma WaitsFirst(w: World, plain: bool, r: Record, first: Record, rest: seq<Event>)
    requires Waits(w, plain, [Saved(first)] + rest)
    requires first.status == r.status && first.pendingSvc == r.pendingSvc && first.pendingBody == r.pendingBody
    ensures OneReading(w, plain, r)
  {
    assert ([Saved(first)] + rest)[0] == Saved(first);
    assert OneReading(w, plain, first);
  }

  /** The same calls, but for the name under which the first one was issued. */
  predicate AlikeCalls(plain: bool, a: seq<SagaStep>, b: seq<SagaStep>) {
    && |a| == |b| && (plain ==> a == b)
    && (a != [] ==> a[0].body == b[0].body && a[1..] == b[1..])
  }

  /** Recovering a waiting execution repeats the call it was waiting for, under the recovery parser's
      reading of its name, and then follows the replay from behind that call. */
  lemma RecoverWaiting(w: World, plain: bool, r: Record, out: Body)
    returns (call: SagaStep, again: SagaStep, t: Trace, x: Body)
    requires Sound(w, plain, r, out) && r.status.WaitingForService?
    ensures var rec' := Resumed(r, r.ctx.value);
            && t == Drive(w, Never, 0, r.ctx, Some(x), rec') && t.end == Output(out) && Waits(w, plain, t.events)
            && Recover(w, r) == Trace([Called(again), Saved(rec')] + t.events, t.end, t.steps)
            && Calls(Replay(w, r.ctx.value).events) == [call] + Calls(t.events)
            && call.body == again.body && (plain ==> call == again)
  {
    hide Step, Drive, ParseCompensation, ParseServiceMethod, NameOf, Calls;
    var c := r.ctx.value;
    var p := Step(w.plan, w.host, c, None).1;
    x := AfterPending(w, Never, 0, Some(c), None, Blank, c, p);
    call, again := CallFor(w, p.svc, p.body), RetryOf(w, r);
    var first, mid := Waiting(Blank, c, p.svc, p.body), Resumed(Waiting(Blank, c, p.svc, p.body), c);
    StepsBounded(w, Never, 1, Some(c), Some(x), mid);
    Shift(w, Never, 1, 0, Some(c), Some(x), mid, Resumed(r, c));
    t := Drive(w, Never, 0, Some(c), Some(x), Resumed(r, c));
    CallsAround(Saved(first), call, Saved(mid), t.events);
    var pre := [Saved(first), Called(call), Saved(mid)];
    assert Replay(w, c).events == pre + t.events;
    WaitsConcat(w, plain, pre, t.events);
    WaitsFirst(w, plain, r, first, [Called(call), Saved(mid)]);
    assert [Saved(first)] + [Called(call), Saved(mid)] == pre;
    hide Waits;
    RetryAnswers(w, plain, r, x);
  }

  /** The call that recovery repeats for a waiting record. */
  function RetryOf(w: World, r: Record): SagaStep {
    var (svc, m) := ParseServiceMethod(NameOf(w.names, r.pendingSvc));
    SagaStep(svc, m, r.pendingBody, "", "")
  }

  /** The repeated call gets the answer of the first one. */
  lemma RetryAnswers(w: World, plain: bool, r: Record, x: Body)
    requires r.status.WaitingForService? && r.ctx.Some? && OneReading(w, plain, r)
    requires var call := CallFor(w, r.pendingSvc, r.pendingBody);
             w.service(call.service, call.methodName, call.body) == Ok(x)
    ensures var rec' := Resumed(r, r.ctx.value);
            var t := Drive(w, Never, 0, r.ctx, Some(x), rec');
            Recover(w, r) == Trace([Called(RetryOf(w, r)), Saved(rec')] + t.events, t.end, t.steps)
    ensures plain ==> RetryOf(w, r) == CallFor(w, r.pendingSvc, r.pendingBody)
  {
    hide Drive;
    var name := NameOf(w.names, r.pendingSvc);
    ParsersAgree(name);
    PlainCall(name);
    hide ParseCompensation, ParseServiceMethod, NameOf;
  }

  lemma PlainCall(name: string)
    ensures ':' !in name ==> ParseCompensation(name).compSvc == "" && ParseCompensation(name).compMethod == ""
  {
  }

  /** Recovery from a sound record ends with the output and issues the calls of the replay. */
  lemma RecoverCompletes(w: World, plain: bool, r: Record, out: Body)
    requires Sound(w, plain, r, out)
    ensures Recover(w, r).end == Output(out)
    ensures AlikeCalls(plain, Calls(Recover(w, r).events), Calls(Replay(w, r.ctx.value).events))
  {
    hide Step;
    if r.status.WaitingForService? {
      hide Drive, Waits;
      var call, again, t, x := RecoverWaiting(w, plain, r, out);
      var rec' := Resumed(r, r.ctx.value);
      CallsConcat([Called(again), Saved(rec')], t.events);
      CallsOfPair(again, rec');
    } else {
      hide Waits;
      StepsBounded(w, Never, 0, r.ctx, None, Blank);
      Shift(w, Never, 0, 0, r.ctx, None, Blank, r);
    }
  }

  lemma CallsOfPair(call: SagaStep, rec: Record)
    ensures Calls([Called(call), Saved(rec)]) == [call] == Calls([Called(call)])
  {
    assert [Called(call), Saved(rec)][1..] == [Saved(rec)] && [Saved(rec)][1..] == [] && [Called(call)][1..] == [];
    assert Calls([Saved(rec)]) == [];
  }

  /** The record left by a crash after the first `i` events of a recovery. */
  function AfterCrash(w: World, r: Record, i: nat): Record {
    var es := Recover(w, r).events;
    var left := LastSaved(es[..if i < |es| then i else |es|], Some(r));
    if left.Some? then left.value else r
  }

  /** The calls that a recovery issued before it crashed after its first `i` events. */
  function IssuedBefore(w: World, r: Record, i: nat): nat {
    var es := Recover(w, r).events;
    |Calls(es[..if i < |es| then i else |es|])|
  }

  /** A recovery that crashes in turn leaves a sound record again, with at most one more call
      to repeat. */
  lemma CrashDuringRecovery(w: World, plain: bool, r: Record, i: nat, out: Body)
    requires Sound(w, plain, r, out)
    ensures Sound(w, plain, AfterCrash(w, r, i), out)
    ensures var todo := Calls(Replay(w, r.ctx.value).events);
            var again := Calls(Replay(w, AfterCrash(w, r, i).ctx.value).events);
            Suffix(again, todo) && IssuedBefore(w, r, i) + |again| <= |todo| + 1
  {
    hide Sound, Replay, Recover, LastSaved, Calls;
    var es := Recover(w, r).events;
    CrashedRecovery(w, plain, r, if i < |es| then i else |es|, out);
  }

  lemma CrashedRecovery(w: World, plain: bool, r: Record, k: nat, out: Body)
    requires Sound(w, plain, r, out) && k <= |Recover(w, r).events|
    ensures var es := Recover(w, r).events;
            var left := LastSaved(es[..k], Some(r));
            left.Some? && Resumable(w, plain, es, k, Calls(Replay(w, r.ctx.value).events), left.value, out)
  {
    hide Step, Drive, Waits;
    if r.status.WaitingForService? {
      hide Resumable, LastSaved, Calls;
      var call, again, t, x := RecoverWaiting(w, plain, r, out);
      CrashAfterRetry(w, plain, r, call, again, x, t, k, out);
    } else {
      RunningReplays(w, r, out);
      if k > 0 {
        hide Resumable, LastSaved, Calls;
        CrashPoint(w, plain, Never, 0, r.ctx, None, r, k, Some(r), out);
      } else {
        assert Recover(w, r).events[..0] == [];
      }
    }
  }

  /** A running record is recovered by its replay. */
  lemma RunningReplays(w: World, r: Record, out: Body)
    requires r.status.Running? && r.ctx.Some? && Live(r) && Replay(w, r.ctx.value).end == Output(out)
    ensures Recover(w, r) == Drive(w, Never, 0, r.ctx, None, r) == Replay(w, r.ctx.value)
  {
    hide Step;
    StepsBounded(w, Never, 0, r.ctx, None, Blank);
    Shift(w, Never, 0, 0, r.ctx, None, Blank, r);
  }

  lemma CrashAfterRetry(w: World, plain: bool, r: Record, call: SagaStep, again: SagaStep, x: Body, t: Trace, k: nat,
                        out: Body)
    requires Sound(w, plain, r, out) && r.status.WaitingForService? && Waits(w, plain, t.events)
    requires t == Drive(w, Never, 0, r.ctx, Some(x), Resumed(r, r.ctx.value)) && t.end == Output(out)
    requires Calls(Replay(w, r.ctx.value).events) == [call] + Calls(t.events)
    requires k <= 2 + |t.events|
    ensures var es := [Called(again), Saved(Resumed(r, r.ctx.value))] + t.events;
            var left := LastSaved(es[..k], Some(r));
            left.Some? && Resumable(w, plain, es, k, [call] + Calls(t.events), left.value, out)
  {
    hide Step, Drive, Waits;
    var rec' := Resumed(r, r.ctx.value);
    var pre := [Called(again), Saved(rec')];
    CallsOfPair(again, rec');
    if k > 2 {
      hide Resumable;
      CrashPoint(w, plain, Never, 0, r.ctx, Some(x), rec', k - 2, LastSaved(pre, Some(r)), out);
      LiftCrash(w, plain, pre, t.events, k - 2, Some(r), [call], out);
    } else {
      assert (pre + t.events)[..k] == pre[..k];
      assert pre[..0] == [] && pre[..1] == [Called(again)] && pre[..2] == pre;
      assert [Called(again)][..0] == [];
    }
  }

  /** The record in the store after a series of crashed recoveries, each cut off after the given
      number of events. */
  function AfterCrashes(w: World, r: Record, crashes: seq<nat>): Record
    decreases |crashes|
  {
    if crashes == [] then r else AfterCrashes(w, AfterCrash(w, r, crashes[0]), crashes[1..])
  }

  /** All calls issued by those crashed recoveries. */
  function IssuedInCrashes(w: World, r: Record, crashes: seq<nat>): nat
    decreases |crashes|
  {
    if crashes == [] then 0
    else IssuedBefore(w, r, crashes[0]) + IssuedInCrashes(w, AfterCrash(w, r, crashes[0]), crashes[1..])
  }

  lemma {:induction false} CrashesAreTransparent(w: World, plain: bool, r: Record, crashes: seq<nat>, out: Body)
    requires Sound(w, plain, r, out)
    ensures var last := AfterCrashes(w, r, crashes);
            && Sound(w, plain, last, out)
            && Suffix(Calls(Replay(w, last.ctx.value).events), Calls(Replay(w, r.ctx.value).events))
            && IssuedInCrashes(w, r, crashes) + |Calls(Replay(w, last.ctx.value).events)|
               <= |Calls(Replay(w, r.ctx.value).events)| + |crashes|
    decreases |crashes|
  {
    hide Replay, AfterCrash, IssuedBefore;
    if crashes != [] {
      CrashDuringRecovery(w, plain, r, crashes[0], out);
      CrashesAreTransparent(w, plain, AfterCrash(w, r, crashes[0]), crashes[1..], out);
    }
  }

  /** Crash-recovery transparency. Take any execution that would complete and whose awaited services
      answer alike under both readings of their names. Crash it after any number `i > 0` of its
      events, and crash any number of recoveries at any of their events: the next recovery that is
      left alone ends with the same output, it issues a tail of the calls of the undisturbed run
      (the first of them under the recovery parser's reading of its name, unless all names are
      plain), and n + 1 crashes repeat at most n + 1 calls in all. */
  lemma CrashRecoveryTransparent(w: World, plain: bool, f: nat -> bool, i: nat, crashes: seq<nat>)
    requires Drive(w, f, 0, None, None, Blank).end.Output?
    requires Waits(w, plain, Drive(w, f, 0, None, None, Blank).events)
    requires 0 < i <= |Drive(w, f, 0, None, None, Blank).events|
    ensures var whole := Drive(w, f, 0, None, None, Blank);
            var left := LastSaved(whole.events[..i], Some(Blank));
            && left.Some?
            && var final := Recover(w, AfterCrashes(w, left.value, crashes));
               && final.end == whole.end
               && AlikeSuffix(plain, Calls(final.events), Calls(whole.events))
               && |Calls(whole.events[..i])| + IssuedInCrashes(w, left.value, crashes) + |Calls(final.events)|
                  <= |Calls(whole.events)| + 1 + |crashes|
  {
    hide Step, Drive, Calls, LastSaved, Waits;
    var whole := Drive(w, f, 0, None, None, Blank);
    var out := whole.end.body;
    CrashPoint(w, plain, f, 0, None, None, Blank, i, Some(Blank), out);
    var left := LastSaved(whole.events[..i], Some(Blank)).value;
    CrashesAreTransparent(w, plain, left, crashes, out);
    RecoverCompletes(w, plain, AfterCrashes(w, left, crashes), out);
  }

  /** A suffix, but for the name under which its first call was issued. */
  predicate AlikeSuffix(plain: bool, a: seq<SagaStep>, b: seq<SagaStep>) {
    |a| <= |b| && AlikeCalls(plain, a, b[|b| - |a|..])
  }
}
