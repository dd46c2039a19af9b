/** Which service names make crash recovery transparent, whatever the services do with addresses that
    the step loop never uses. */
module RecoveryNames {
  import opened Prelude
  import opened Vm
  import opened Names
  import opened Driver
  import opened Recovery

  /** No awaited service has a compensator suffix. */
  predicate WaitsPlain(names: map<U16, string>, es: seq<Event>) {
    forall e :: e in es && e.Saved? && e.rec.status.WaitingForService? ==> ':' !in NameOf(names, e.rec.pendingSvc)
  }

  /** A plain name has one reading. */
  lemma PlainHasOneReading(w: World, es: seq<Event>)
    requires WaitsPlain(w.names, es)
    ensures Waits(w, true, es)
  {
    hide ParseCompensation, ParseServiceMethod, NameOf;
    forall e | e in es && e.Saved? ensures OneReading(w, true, e.rec) {
      ParsersAgree(NameOf(w.names, e.rec.pendingSvc));
    }
  }

  /* ---- addresses the step loop uses ---- */

  /** The step loop never puts a colon into an address... */
  lemma LoopAddressIsClean(s: string)
    ensures ':' !in ParseCompensation(s).service && ':' !in ParseCompensation(s).methodName
  {
    hide IndexOf;
    var colon := IndexOf(s, ':');
    var head := if colon == |s| then s else s[..colon];
    assert ':' !in head;
    SplitHasParts(head);
    hide ParseServiceMethod;
  }

  lemma SplitHasParts(s: string)
    ensures var (svc, m) := ParseServiceMethod(s); ':' in s <==> ':' in svc || ':' in m
  {
    hide IndexOf;
    var i := IndexOf(s, '.');
    if i < |s| {
      assert s == s[..i] + [s[i]] + s[i + 1..];
    }
  }

  /** The two services answer alike at every address without a colon. */
  ghost predicate Agree(w: World, s: (string, string, Body) -> Reply) {
    forall svc, m, b :: ':' !in svc && ':' !in m ==> s(svc, m, b) == w.service(svc, m, b)
  }

  /** ... so services that differ only in the others leave the undisturbed run as it is. */
  lemma {:induction false} SameRun(w: World, s: (string, string, Body) -> Reply, f: nat -> bool, step: nat,
                                   ctx: Option<Ctx>, resp: Option<Body>, rec: Record)
    requires Agree(w, s)
    ensures Drive(w.(service := s), f, step, ctx, resp, rec) == Drive(w, f, step, ctx, resp, rec)
    decreases MAX_STEPS - step
  {
    hide Step, ParseCompensation, NameOf;
    if step < MAX_STEPS && !f(step) {
      var (c, r) := Step(w.plan, w.host, Context(ctx), resp);
      if r.Continue? {
        SameRun(w, s, f, step + 1, Some(c), None, Progressed(rec, c));
      } else if r.Pending? {
        var call := CallFor(w, r.svc, r.body);
        LoopAddressIsClean(NameOf(w.names, r.svc));
        var x := w.service(call.service, call.methodName, r.body);
        assert s(call.service, call.methodName, r.body) == x;
        if x.Ok? {
          SameRun(w, s, f, step + 1, Some(c), Some(x.body), Resumed(Waiting(rec, c, r.svc, r.body), c));
        }
      }
    }
  }

  /* ---- the equivalence ---- */

  /** The record in the store after the first `i` events of the run. */
  function LeftAt(w: World, f: nat -> bool, i: nat): Record {
    var es := Drive(w, f, 0, None, None, Blank).events;
    var left := LastSaved(es[..if i < |es| then i else |es|], Some(Blank));
    if left.Some? then left.value else Blank
  }

  /** How the execution ends when it crashes after `i` events and its recoveries crash as given. */
  function EndAfter(w: World, f: nat -> bool, i: nat, crashes: seq<nat>): End {
    Recover(w, AfterCrashes(w, LeftAt(w, f, i), crashes)).end
  }

  /** Every crash and every series of crashed recoveries ends as the undisturbed run does. */
  ghost predicate Transparent(w: World, f: nat -> bool) {
    var whole := Drive(w, f, 0, None, None, Blank);
    forall i, crashes :: 0 < i <= |whole.events| ==> EndAfter(w, f, i, crashes) == whole.end
  }

  lemma PlainIsTransparent(w: World, f: nat -> bool)
    requires Drive(w, f, 0, None, None, Blank).end.Output? &&
             WaitsPlain(w.names, Drive(w, f, 0, None, None, Blank).events)
    ensures Transparent(w, f)
  {
    hide Drive, Calls, LastSaved, Waits, WaitsPlain, Recover, AfterCrashes, IssuedInCrashes, AlikeSuffix;
    var whole := Drive(w, f, 0, None, None, Blank);
    PlainHasOneReading(w, whole.events);
    forall i: nat, crashes | 0 < i <= |whole.events| ensures EndAfter(w, f, i, crashes) == whole.end {
      CrashRecoveryTransparent(w, true, f, i, crashes);
    }
  }

  /** Nothing is found at an address with a colon. */
  function Strict(s: (string, string, Body) -> Reply): (string, string, Body) -> Reply {
    (svc: string, m: string, b: Body) => if ':' in svc || ':' in m then Fault("not found") else s(svc, m, b)
  }

  /** A record that waits for a compensated name cannot be recovered where colons find nothing. */
  lemma CompensatedNameFails(w: World, r: Record)
    requires r.status.WaitingForService? && ':' in NameOf(w.names, r.pendingSvc)
    ensures Recover(w.(service := Strict(w.service)), r).end.ServiceFailed?
  {
    hide NameOf, ParseServiceMethod, Drive;
    SplitHasParts(NameOf(w.names, r.pendingSvc));
  }

  lemma SavedIsLeft(w: World, f: nat -> bool, i: nat)
    requires i < |Drive(w, f, 0, None, None, Blank).events| && Drive(w, f, 0, None, None, Blank).events[i].Saved?
    ensures LeftAt(w, f, i + 1) == Drive(w, f, 0, None, None, Blank).events[i].rec
  {
    hide Drive;
    var es := Drive(w, f, 0, None, None, Blank).events;
    assert es[..i + 1][i] == es[i];
  }

  /** In any completing run, a crash while it waits for a service that fails under the recovery parser's
      reading of its name is not recovered from. */
  lemma CompensatedNameBreaksRecovery(w: World, f: nat -> bool, i: nat)
    requires var t := Drive(w, f, 0, None, None, Blank);
             && t.end.Output? && i < |t.events| && t.events[i].Saved? && t.events[i].rec.status.WaitingForService?
             && var again := RetryOf(w, t.events[i].rec); w.service(again.service, again.methodName, again.body).Fault?
    ensures EndAfter(w, f, i + 1, []).ServiceFailed?
    ensures !Transparent(w, f)
  {
    hide Drive, NameOf, ParseServiceMethod;
    SavedIsLeft(w, f, i);
    assert EndAfter(w, f, i + 1, []).ServiceFailed?;
  }

  /** The smallest such run: one call of a service with a compensator suffix, where nothing answers under
      the recovery parser's reading of its name. */
  lemma LoneCallBreaksRecovery(w: World, i: Instr, x: Body)
    requires w.plan == [i] && i.op.Next? && ':' in NameOf(w.names, i.a)
    requires var t := ParseCompensation(NameOf(w.names, i.a)); w.service(t.service, t.methodName, []) == Ok(x)
    requires var t := ParseServiceMethod(NameOf(w.names, i.a)); w.service(t.0, t.1, []).Fault?
    ensures Drive(w, Never, 0, None, None, Blank).end == Output(x)
    ensures EndAfter(w, Never, 1, []).ServiceFailed? && !Transparent(w, Never)
  {
    hide Step, ParseCompensation, ParseServiceMethod, NameOf, Transparent, EndAfter;
    var c := FreshCtx([]);
    LoneCallSteps(w, i, x);
    var rec := Resumed(Waiting(Blank, c, i.a, []), c);
    assert Drive(w, Never, 1, Some(c), Some(x), rec) == Trace([], Output(x), 1);
    CompensatedNameBreaksRecovery(w, Never, 0);
  }

  lemma LoneCallSteps(w: World, i: Instr, x: Body)
    requires w.plan == [i] && i.op.Next?
    ensures Step(w.plan, w.host, FreshCtx([]), None) == (FreshCtx([]), Pending(i.a, [], i.Millis()))
    ensures Step(w.plan, w.host, FreshCtx([]), Some(x)).0.body == x
    ensures Step(w.plan, w.host, FreshCtx([]), Some(x)).1 == Done
  {
    hide Turn;
  }

  /** Exactly when recovery is transparent: for a completing run, every choice of services that answers
      the step loop's addresses as given makes it transparent if and only if no service that the
      run waits for has a compensator suffix in its name. */
  lemma TransparentIffPlain(w: World, f: nat -> bool)
    requires Drive(w, f, 0, None, None, Blank).end.Output?
    ensures (forall s :: Agree(w, s) ==> Transparent(w.(service := s), f))
            <==> WaitsPlain(w.names, Drive(w, f, 0, None, None, Blank).events)
  {
    hide Drive, Transparent, WaitsPlain;
    var es := Drive(w, f, 0, None, None, Blank).events;
    if WaitsPlain(w.names, es) {
      forall s | Agree(w, s) ensures Transparent(w.(service := s), f) {
        SameRun(w, s, f, 0, None, None, Blank);
        PlainIsTransparent(w.(service := s), f);
      }
    } else {
      assert Agree(w, Strict(w.service));
      StrictBreaks(w, f);
    }
  }

  /** With a compensated name, services that find nothing at addresses with a colon break it. */
  lemma StrictBreaks(w: World, f: nat -> bool)
    requires Drive(w, f, 0, None, None, Blank).end.Output? &&
             !WaitsPlain(w.names, Drive(w, f, 0, None, None, Blank).events)
    ensures !Transparent(w.(service := Strict(w.service)), f)
  {
    hide Drive, Recover, NameOf, Strict;
    var es, w' := Drive(w, f, 0, None, None, Blank).events, w.(service := Strict(w.service));
    assert Agree(w, Strict(w.service)) by { StrictAgrees(w); }
    SameRun(w, Strict(w.service), f, 0, None, None, Blank);
    var e :| e in es && e.Saved? && e.rec.status.WaitingForService? && ':' in NameOf(w.names, e.rec.pendingSvc);
    var i :| 0 <= i < |es| && es[i] == e;
    SavedIsLeft(w', f, i);
    CompensatedNameFails(w, e.rec);
    assert EndAfter(w', f, i + 1, []).ServiceFailed?;
  }

  lemma StrictAgrees(w: World)
    ensures Agree(w, Strict(w.service))
  {
  }

  /* ---- what a caller can check on the plan ---- */

  /** No instruction that suspends names a service with a compensator. */
  predicate PlanPlain(p: Plan, names: map<U16, string>) {
    forall i :: i in p && i.Suspends() ==> ':' !in NameOf(names, i.a)
  }

  lemma PlainTable(p: Plan, names: map<U16, string>)
    requires Plain(names)
    ensures PlanPlain(p, names)
  {
    forall i | i in p ensures ':' !in NameOf(names, i.a) {
      PlainNames(names, i.a);
    }
  }

  /** Then nothing the plan ever waits for has one. */
  lemma {:induction false} PlanWaitsPlain(w: World, f: nat -> bool, step: nat, ctx: Option<Ctx>, resp: Option<Body>,
                                          rec: Record)
    requires PlanPlain(w.plan, w.names)
    ensures WaitsPlain(w.names, Drive(w, f, step, ctx, resp, rec).events)
    decreases MAX_STEPS - step
  {
    hide NameOf, ParseCompensation, CallFor, Step, WaitsPlain;
    NothingAwaited(w.names);
    if step < MAX_STEPS && !f(step) {
      var (c, r) := Step(w.plan, w.host, Context(ctx), resp);
      if r.Continue? {
        var next := Progressed(rec, c);
        PlanWaitsPlain(w, f, step + 1, Some(c), None, next);
        SavesPlain(w.names, [Saved(next)], Drive(w, f, step + 1, Some(c), None, next).events);
      } else if r.Pending? {
        PendingNames(w.plan, w.host, Context(ctx), resp);
        var call, waiting := CallFor(w, r.svc, r.body), Waiting(rec, c, r.svc, r.body);
        var x := w.service(call.service, call.methodName, r.body);
        if x.Ok? {
          var next := Resumed(waiting, c);
          PlanWaitsPlain(w, f, step + 1, Some(c), Some(x.body), next);
          SavesPlain(w.names, [Saved(waiting), Called(call), Saved(next)],
                     Drive(w, f, step + 1, Some(c), Some(x.body), next).events);
        } else {
          SavesPlain(w.names, [Saved(waiting), Called(call)], []);
        }
      }
    }
  }

  lemma NothingAwaited(names: map<U16, string>)
    ensures WaitsPlain(names, [])
  {
  }

  lemma SavesPlain(names: map<U16, string>, a: seq<Event>, b: seq<Event>)
    requires forall k :: 0 <= k < |a| && a[k].Saved? && a[k].rec.status.WaitingForService? ==>
               ':' !in NameOf(names, a[k].rec.pendingSvc)
    requires WaitsPlain(names, b)
    ensures WaitsPlain(names, a) && WaitsPlain(names, a + b)
  {
    hide NameOf;
    assert forall e :: e in a + b <==> e in a || e in b;
  }

  lemma PendingNames(p: Plan, h: Host, c: Ctx, resp: Option<Body>)
    ensures var r := Step(p, h, c, resp).1; r.Pending? ==> exists i :: i in p && i.Suspends() && i.a == r.svc
  {
    hide Turn;
    var fed := Feed(c, resp);
    if fed.ip < |p| {
      assert p[fed.ip] in p;
    }
  }
}
