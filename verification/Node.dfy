/** The node that runs executions: the step loop with its store and its saga, and recovery. */
module Node {
  import opened Prelude
  import opened Vm
  import opened Names
  import opened Saga
  import opened Driver

  /** The store after these events of one execution. */
  function StoreAfter(store: map<string, Record>, id: string, es: seq<Event>): map<string, Record> {
    var last := LastSaved(es, None);
    if last.Some? then store[id := last.value] else store
  }

  lemma StoreConcat(store: map<string, Record>, id: string, a: seq<Event>, b: seq<Event>)
    ensures StoreAfter(store, id, a + b) == StoreAfter(StoreAfter(store, id, a), id, b)
  {
    LastSavedConcat(a, b, None);
    SavedOrNot(b, LastSaved(a, None));
  }

  lemma {:induction false} SavedOrNot(es: seq<Event>, before: Option<Record>)
    ensures LastSaved(es, before) == if LastSaved(es, None).Some? then LastSaved(es, None) else before
  {
    if es != [] && !es[|es| - 1].Saved? {
      SavedOrNot(es[..|es| - 1], before);
    }
  }

  /** The steps registered for an execution after these events. */
  function Registered(before: seq<SagaStep>, es: seq<Event>): seq<SagaStep> {
    before + Compensable(Calls(es))
  }

  lemma RegisteredConcat(before: seq<SagaStep>, a: seq<Event>, b: seq<Event>)
    ensures Registered(before, a + b) == Registered(Registered(before, a), b)
  {
    CallsConcat(a, b);
    CompensableConcat(Calls(a), Calls(b));
  }

  /** What the step loop can change: the store, the log, the record in hand and the saga, split
      into this execution's steps and everybody else's. */
  datatype View = View(store: map<string, Record>, log: seq<Event>, rec: Option<Record>, mine: seq<SagaStep>,
                       others: map<string, seq<SagaStep>>, invoked: seq<SagaStep>)

  /** The view after these events of execution `id`. */
  function Play(v: View, id: string, es: seq<Event>): View {
    View(StoreAfter(v.store, id, es), v.log + es, LastSaved(es, v.rec), Registered(v.mine, es), v.others, v.invoked)
  }

  lemma PlayConcat(v: View, id: string, a: seq<Event>, b: seq<Event>)
    ensures Play(Play(v, id, a), id, b) == Play(v, id, a + b)
  {
    hide StoreAfter, LastSaved, Registered;
    StoreConcat(v.store, id, a, b);
    LastSavedConcat(a, b, v.rec);
    RegisteredConcat(v.mine, a, b);
    assert v.log + a + b == v.log + (a + b);
  }

  lemma PlayNothing(v: View, id: string)
    ensures Play(v, id, []) == v
  {
    assert v.log + [] == v.log && v.mine + [] == v.mine;
  }

  class Runner {
    const world: World
    const saga: SagaTracker
    const attempts: U8
    var store: map<string, Record>
    /** Everything this node saved and called, in order. */
    var log: seq<Event>

    constructor (world: World, saga: SagaTracker, attempts: U8)
      ensures this.world == world && this.saga == saga && store == map[] && log == []
    {
      this.world, this.saga, this.attempts := world, saga, attempts;
      store, log := map[], [];
    }

    method Save(id: string, rec: Record)
      modifies this
      ensures store == old(store)[id := rec] && log == old(log) + [Saved(rec)]
      ensures store - {id} == old(store) - {id}
    {
      store := store[id := rec];
      log := log + [Saved(rec)];
    }

    /** `bridge.ExecuteStep`: a machine is rebuilt from the stored context for one step. */
    method ExecuteStep(ctx: Option<Ctx>, resp: Option<Body>) returns (c: Ctx, r: StepResult)
      ensures r == Step(world.plan, world.host, Context(ctx), resp).1
      ensures !r.Error? ==> c == Step(world.plan, world.host, Context(ctx), resp).0
    {
      hide Step;
      var vm := new VM(world.plan, world.host, Context(ctx));
      r := vm.StepOnce(resp, attempts);
      c := vm.State();
    }

    /** Calls the service a step is pending on, its compensator registered beforehand. */
    method Invoke(id: string, svc: U16, body: Body) returns (service: string, reply: Reply)
      modifies `log, saga
      ensures var call := CallFor(world, svc, body);
              && service == call.service && reply == world.service(call.service, call.methodName, body)
              && log == old(log) + [Called(call)] && saga.invoked == old(saga.invoked)
              && StepsOf(saga.steps, id) == StepsOf(old(saga.steps), id) + (if call.compSvc != "" then [call] else [])
              && saga.steps - {id} == old(saga.steps) - {id}
    {
      var t := ParseCompensation(NameOf(world.names, svc));
      service := t.service;
      var call := SagaStep(t.service, t.methodName, body, t.compSvc, t.compMethod);
      if t.compSvc != "" {
        saga.RegisterStep(id, call);
      }
      log := log + [Called(call)];
      reply := world.service(service, t.methodName, body);
    }

    ghost function Look(id: string, rec: Record): View
      reads this, saga
    {
      View(store, log, Some(rec), StepsOf(saga.steps, id), saga.steps - {id}, saga.invoked)
    }

    /** The body of the loop in `runSteps`: one step of the machine and what follows from it. */
    method Iterate(id: string, ghost cancelled: nat -> bool, step: nat, ctx: Option<Ctx>, resp: Option<Body>,
                   rec: Record)
      returns (end: Option<End>, ctx': Option<Ctx>, resp': Option<Body>, rec': Record, ghost es: seq<Event>)
      requires step < MAX_STEPS && !cancelled(step)
      modifies this, saga
      ensures Look(id, rec') == Play(old(Look(id, rec)), id, es)
      ensures Drive(world, cancelled, step, ctx, resp, rec) ==
              if end.Some? then Trace(es, end.value, 1)
              else Drive(world, cancelled, step + 1, ctx', resp', rec').After(es)
    {
      hide Step, CallFor, StepsOf, Registered, StoreAfter, LastSaved;
      var c, r := ExecuteStep(ctx, resp);
      end, ctx', resp', rec', es := None, Some(c), None, rec, [];
      PlayNothing(Look(id, rec), id);
      match r
      case Done => end := Some(Output(c.body));
      case Error(_) => end := Some(Unexpected(step));
      case Pause(_) => end := Some(Unexpected(step));
      case Continue =>
        rec' := Progressed(rec, c);
        es := [Saved(rec')];
        OneSave(store, id, StepsOf(saga.steps, id), rec, rec');
        Save(id, rec');
      case Pending(svc, body, _) =>
        var waiting := Waiting(rec, c, svc, body);
        ghost var call := CallFor(world, svc, body);
        CallBetweenSaves(store, id, StepsOf(saga.steps, id), rec, waiting, call, Resumed(waiting, c));
        rec', es := waiting, [Saved(waiting), Called(call)];
        Save(id, waiting);
        var service, reply := Invoke(id, svc, body);
        if reply.Fault? {
          end := Some(ServiceFailed(service, reply.msg));
        } else {
          rec', resp' := Resumed(waiting, c), Some(reply.body);
          es := [Saved(waiting), Called(call), Saved(rec')];
          Save(id, rec');
        }
    }

    /** The loop of `runSteps`, up to the point where the saga is settled. */
    method Loop(id: string, cancelled: nat -> bool, startCtx: Option<Ctx>, startResp: Option<Body>, start: Record)
      returns (end: End, rec: Record)
      modifies this, saga
      ensures var t := Drive(world, cancelled, 0, startCtx, startResp, start);
              end == t.end && Look(id, rec) == Play(old(Look(id, start)), id, t.events)
    {
      hide Look, Play, Drive;
      ghost var t := Drive(world, cancelled, 0, startCtx, startResp, start);
      ghost var before, done: seq<Event> := Look(id, start), [];
      var ctx, resp := startCtx, startResp;
      rec := start;
      var step := 0;
      PlayNothing(before, id);
      while step < MAX_STEPS
        invariant step <= MAX_STEPS
        invariant var rest := Drive(world, cancelled, step, ctx, resp, rec);
                  t.end == rest.end && t.events == done + rest.events
        invariant Look(id, rec) == Play(before, id, done)
      {
        if cancelled(step) {
          DriveStops(world, cancelled, step, ctx, resp, rec);
          assert t.events == done;
          return Cancelled(step), rec;
        }
        var stop;
        ghost var es;
        stop, ctx, resp, rec, es := Iterate(id, cancelled, step, ctx, resp, rec);
        PlayConcat(before, id, done, es);
        done := done + es;
        if stop.Some? {
          return stop.value, rec;
        }
        step := step + 1;
      }
      DriveStops(world, cancelled, step, ctx, resp, rec);
      assert t.events == done;
      end := OutOfSteps;
    }

    /** `runSteps`. The loop does exactly what its trace says. If it ends in an error, every
        compensable call of this execution, the failing one included, has been undone once, in
        reverse order; if it completes, nothing is undone; either way nothing stays registered,
        and other executions are untouched. */
    method RunSteps(id: string, cancelled: nat -> bool, startCtx: Option<Ctx>, startResp: Option<Body>, start: Record)
      returns (end: End, rec: Record)
      modifies this, saga
      ensures var t := Drive(world, cancelled, 0, startCtx, startResp, start);
              && end == t.end && log == old(log) + t.events
              && store == StoreAfter(old(store), id, t.events)
              && Some(rec) == LastSaved(t.events, Some(start))
              && saga.steps == old(saga.steps) - {id}
              && saga.invoked == old(saga.invoked) +
                 (if end.Output? then [] else Undo(Registered(StepsOf(old(saga.steps), id), t.events)))
              && (id !in old(saga.steps) && !end.Output? ==>
                    saga.invoked == old(saga.invoked) + Reverse(Compensable(Calls(t.events))))
    {
      hide Drive, LastSaved, StoreAfter, Registered, Undo, Calls, Compensable;
      end, rec := Loop(id, cancelled, startCtx, startResp, start);
      UndoFresh(Drive(world, cancelled, 0, startCtx, startResp, start).events);
      assert saga.steps - {id} == old(saga.steps) - {id};
      if end.Output? {
        saga.Clear(id);
      } else {
        var _ := saga.Compensate(id);
      }
    }

    /** `executePlan`: create the record, run, and store how it ended. What the run did and undid is
        what its trace says; for a fresh id the compensable calls of a failed run are undone once
        each, in reverse. */
    method ExecutePlan(id: string, cancelled: nat -> bool) returns (end: End)
      modifies this, saga
      ensures end == Drive(world, cancelled, 0, None, None, Blank).end
      ensures id in store && store - {id} == old(store) - {id}
      ensures end.Output? ==> store[id].status == Completed && store[id].output == end.body
      ensures !end.Output? ==> store[id].status == Status.Failed
      ensures log == old(log) + Drive(world, cancelled, 0, None, None, Blank).events + [Saved(store[id])]
      ensures saga.steps == old(saga.steps) - {id}
      ensures end.Output? ==> saga.invoked == old(saga.invoked)
      ensures !end.Output? && id !in old(saga.steps) ==>
                var t := Drive(world, cancelled, 0, None, None, Blank);
                saga.invoked == old(saga.invoked) + Reverse(Compensable(Calls(t.events)))
    {
      hide Drive, LastSaved, Registered, Undo, Calls, Compensable;
      if id !in store {
        store := store[id := Blank];
      }
      var rec;
      end, rec := RunSteps(id, cancelled, None, None, Blank);
      rec := if end.Output? then rec.(status := Completed, output := end.body) else rec.(status := Status.Failed);
      Save(id, rec);
    }

    /** The call that recovery repeats for a waiting execution. */
    method Retry(id: string, rec: Record) returns (service: string, reply: Reply, rec': Record, ghost es: seq<Event>)
      requires rec.status.WaitingForService?
      modifies this
      ensures log == old(log) + es && store - {id} == old(store) - {id}
      ensures reply.Fault? <==> RetryFails(world, rec)
      ensures Compensable(Calls(es)) == []
      ensures reply.Fault? ==> Recover(world, rec) == Trace(es, ServiceFailed(service, reply.msg), 0)
      ensures reply.Ok? ==>
                var t := Drive(world, Never, 0, rec'.ctx, Some(reply.body), rec');
                Recover(world, rec) == Trace(es + t.events, t.end, t.steps)
    {
      hide Drive, NameOf, ParseServiceMethod;
      var (svc, m) := ParseServiceMethod(NameOf(world.names, rec.pendingSvc));
      var call := SagaStep(svc, m, rec.pendingBody, "", "");
      es := [Called(call)];
      log := log + [Called(call)];
      service, reply := svc, world.service(svc, m, rec.pendingBody);
      rec' := rec.(status := Running, pendingSvc := 0, pendingBody := []);
      UncompensatedCall(call, rec');
      if reply.Ok? {
        es := [Called(call), Saved(rec')];
        Save(id, rec');
      }
    }

    /** `recoverExecution`: it does and ends as its trace says, and the record is deleted when it
        completed and marked as failed otherwise. When the repeated call fails, the saga is left as
        it is, with whatever steps are registered; otherwise it is settled as by `runSteps`. */
    method RecoverExecution(id: string) returns (end: End)
      requires id in store
      modifies this, saga
      ensures end == Recover(world, old(store)[id]).end
      ensures end.Output? ==> log == old(log) + Recover(world, old(store)[id]).events && id !in store
      ensures !end.Output? ==>
                id in store && store[id].status == Status.Failed &&
                log == old(log) + Recover(world, old(store)[id]).events + [Saved(store[id])]
      ensures store - {id} == old(store) - {id}
      ensures RetryFails(world, old(store)[id]) ==>
                && store[id] == old(store)[id].(status := Status.Failed)
                && saga.steps == old(saga.steps) && saga.invoked == old(saga.invoked)
      ensures !RetryFails(world, old(store)[id]) ==>
                && saga.steps == old(saga.steps) - {id}
                && saga.invoked == old(saga.invoked) +
                   if end.Output? then []
                   else Undo(Registered(StepsOf(old(saga.steps), id), Recover(world, old(store)[id]).events))
    {
      hide Recover, Drive, Registered, Undo, Calls, Compensable, RetryFails;
      var rec := store[id];
      var startResp: Option<Body> := None;
      if !rec.status.WaitingForService? {
        RecoverRunning(world, rec);
      } else {
        var service, reply, rec';
        ghost var es;
        service, reply, rec', es := Retry(id, rec);
        if reply.Fault? {
          Save(id, rec.(status := Status.Failed));
          return ServiceFailed(service, reply.msg);
        }
        ghost var t := Drive(world, Never, 0, rec'.ctx, Some(reply.body), rec');
        RetryRegistersNothing(StepsOf(saga.steps, id), es, t.events);
        rec, startResp := rec', Some(reply.body);
      }
      end, rec := RunRecovered(id, rec, startResp);
    }

    method RunRecovered(id: string, rec: Record, startResp: Option<Body>) returns (end: End, rec': Record)
      modifies this, saga
      ensures var t := Drive(world, Never, 0, rec.ctx, startResp, rec);
              && end == t.end
              && (end.Output? ==> log == old(log) + t.events && id !in store)
              && (!end.Output? ==>
                    && id in store && store[id].status == Status.Failed
                    && log == old(log) + t.events + [Saved(store[id])])
              && saga.invoked == old(saga.invoked) +
                 if end.Output? then [] else Undo(Registered(StepsOf(old(saga.steps), id), t.events))
      ensures store - {id} == old(store) - {id} && saga.steps == old(saga.steps) - {id}
    {
      hide Drive, LastSaved, Registered, Undo, Calls, Compensable;
      end, rec' := RunSteps(id, Never, rec.ctx, startResp, rec);
      if end.Output? {
        store := store - {id};
      } else {
        Save(id, rec'.(status := Status.Failed));
      }
    }
  }

  /** The execution is waiting, and the call that recovery repeats for it fails. */
  predicate RetryFails(w: World, rec: Record) {
    && rec.status.WaitingForService?
    && var (svc, m) := ParseServiceMethod(NameOf(w.names, rec.pendingSvc));
       w.service(svc, m, rec.pendingBody).Fault?
  }

  lemma UncompensatedCall(call: SagaStep, rec: Record)
    requires call.compSvc == ""
    ensures Compensable(Calls([Called(call)])) == [] && Compensable(Calls([Called(call), Saved(rec)])) == []
  {
    assert [Called(call), Saved(rec)][1..] == [Saved(rec)] && [Saved(rec)][1..] == [];
    assert Calls([Called(call)]) == [call] && Calls([Called(call), Saved(rec)]) == [call];
    assert [call][1..] == [] && [call][..0] == [];
  }

  /** The repeated call has no compensator, as the recovery parser knows none. */
  lemma RetryRegistersNothing(before: seq<SagaStep>, es: seq<Event>, rest: seq<Event>)
    requires Compensable(Calls(es)) == []
    ensures Registered(before, es + rest) == Registered(before, rest)
  {
    RegisteredConcat(before, es, rest);
    assert before + [] == before;
  }

  /** With nothing registered beforehand, undoing reverses exactly the compensable calls. */
  lemma UndoFresh(es: seq<Event>)
    ensures Undo(Registered([], es)) == Reverse(Compensable(Calls(es)))
  {
    assert [] + Compensable(Calls(es)) == Compensable(Calls(es));
    UndoIsReverse(Compensable(Calls(es)));
  }

  lemma RecoverRunning(w: World, rec: Record)
    requires !rec.status.WaitingForService?
    ensures Recover(w, rec) == Drive(w, Never, 0, rec.ctx, None, rec) && !RetryFails(w, rec)
  {
    hide Drive;
  }

  lemma DriveStops(w: World, f: nat -> bool, step: nat, ctx: Option<Ctx>, resp: Option<Body>, rec: Record)
    ensures step >= MAX_STEPS ==> Drive(w, f, step, ctx, resp, rec) == Trace([], OutOfSteps, 0)
    ensures step < MAX_STEPS && f(step) ==> Drive(w, f, step, ctx, resp, rec) == Trace([], Cancelled(step), 0)
  {}

  lemma OneSave(store: map<string, Record>, id: string, before: seq<SagaStep>, start: Record, rec: Record)
    ensures StoreAfter(store, id, [Saved(rec)]) == store[id := rec]
    ensures Registered(before, [Saved(rec)]) == before
    ensures LastSaved([Saved(rec)], Some(start)) == Some(rec)
  {
    assert [Saved(rec)][1..] == [];
    assert Calls([Saved(rec)]) == [] && before + [] == before;
  }

  lemma CallBetweenSaves(store: map<string, Record>, id: string, before: seq<SagaStep>, start: Record,
                         a: Record, call: SagaStep, b: Record)
    ensures StoreAfter(store, id, [Saved(a), Called(call)]) == store[id := a]
    ensures StoreAfter(store, id, [Saved(a), Called(call), Saved(b)]) == store[id := a][id := b]
    ensures LastSaved([Saved(a), Called(call)], Some(start)) == Some(a)
    ensures LastSaved([Saved(a), Called(call), Saved(b)], Some(start)) == Some(b)
    ensures Registered(before, [Saved(a), Called(call)]) == before + (if call.compSvc != "" then [call] else [])
    ensures Registered(before, [Saved(a), Called(call), Saved(b)]) ==
            before + (if call.compSvc != "" then [call] else [])
  {
    var two, three := [Saved(a), Called(call)], [Saved(a), Called(call), Saved(b)];
    assert two[..1] == [Saved(a)] && two[1..] == [Called(call)] && [Called(call)][1..] == [];
    assert three[1..] == [Called(call), Saved(b)] && [Called(call), Saved(b)][1..] == [Saved(b)] &&
      [Saved(b)][1..] == [];
    assert Calls([Saved(b)]) == [] && Calls(two) == [call];
    assert Calls([Called(call), Saved(b)]) == [call];
    assert [call][1..] == [] && before + [] == before;
    assert LastSaved(two, None) == Some(a);
    assert Compensable([call]) == if call.compSvc != "" then [call] else [];
  }
}
