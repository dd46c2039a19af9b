/** Saga compensation (server/internal/reliability/saga.go). */
module Saga {
  import opened Prelude

  /** A service call together with the compensator that undoes it, if it has one. */
  datatype SagaStep = SagaStep(service: string, methodName: string, body: Body, compSvc: string, compMethod: string)

  predicate Invocable(s: SagaStep) {
    s.compSvc != "" || s.compMethod != ""
  }

  /** The compensations that undo the registered steps, in the order they are invoked. */
  function Undo(steps: seq<SagaStep>): seq<SagaStep> {
    if steps == [] then []
    else
      var s := steps[|steps| - 1];
      (if Invocable(s) then [s] else []) + Undo(steps[..|steps| - 1])
  }

  /** Undoing visits exactly the steps with a compensator, once each, newest first. */
  lemma {:induction false} UndoIsReverse(steps: seq<SagaStep>)
    requires forall s :: s in steps ==> Invocable(s)
    ensures Undo(steps) == Reverse(steps)
  {
    if steps != [] {
      UndoIsReverse(steps[..|steps| - 1]);
    }
  }

  lemma {:induction false} UndoMembers(steps: seq<SagaStep>, x: SagaStep)
    ensures x in Undo(steps) <==> x in steps && (x.compSvc != "" || x.compMethod != "")
    ensures multiset(Undo(steps))[x] == if x.compSvc == "" && x.compMethod == "" then 0 else multiset(steps)[x]
  {
    if steps != [] {
      var s, rest := steps[|steps| - 1], steps[..|steps| - 1];
      UndoMembers(rest, x);
      assert steps == rest + [s];
      assert Undo(steps) == (if Invocable(s) then [s] else []) + Undo(rest);
    }
  }

  function StepsOf(m: map<string, seq<SagaStep>>, id: string): seq<SagaStep> {
    if id in m then m[id] else []
  }

  class SagaTracker {
    var steps: map<string, seq<SagaStep>>
    /** Every compensator invocation so far, oldest first. */
    var invoked: seq<SagaStep>
    /** Whether invoking the compensator of a step reports an error. */
    const fails: SagaStep -> bool

    constructor (fails: SagaStep -> bool)
      ensures steps == map[] && invoked == []
    {
      steps, invoked := map[], [];
      this.fails := fails;
    }

    method RegisterStep(execID: string, step: SagaStep)
      modifies this
      ensures steps == old(steps)[execID := StepsOf(old(steps), execID) + [step]]
      ensures invoked == old(invoked)
    {
      steps := steps[execID := StepsOf(steps, execID) + [step]];
    }

    /** Every registered step is compensated once, newest first, whether or not compensators
        fail; failures are reported, and nothing stays registered. */
    method Compensate(execID: string) returns (errors: seq<SagaStep>)
      modifies this
      ensures steps == old(steps) - {execID}
      ensures invoked == old(invoked) + Undo(StepsOf(old(steps), execID))
      ensures forall s :: s in errors <==> s in Undo(StepsOf(old(steps), execID)) && fails(s)
    {
      var mine := StepsOf(steps, execID);
      steps := steps - {execID};
      errors := [];
      var i := |mine|;
      ghost var todo := Undo(mine);
      ghost var done: seq<SagaStep> := [];
      assert mine[..|mine|] == mine;
      while i > 0
        invariant 0 <= i <= |mine| && steps == old(steps) - {execID}
        invariant todo == Undo(mine[..i]) && Undo(mine) == done + todo
        invariant invoked == old(invoked) + done
        invariant forall s :: s in errors <==> s in done && fails(s)
      {
        i := i - 1;
        var s := mine[i];
        assert mine[..i + 1][..i] == mine[..i];
        todo := Undo(mine[..i]);
        if Invocable(s) {
          done := done + [s];
          invoked := invoked + [s];
          if fails(s) {
            errors := errors + [s];
          }
        }
      }
    }

    /** A completed execution forgets its steps without undoing them. */
    method Clear(execID: string)
      modifies this
      ensures steps == old(steps) - {execID} && invoked == old(invoked)
    {
      steps := steps - {execID};
    }
  }
}
