/** The priority lanes and their work-stealing workers (server/internal/scheduler/prod.go and
    lane.go). Each select statement of a worker or a submitter is one atomic step. */
module Scheduler {
  import opened Prelude

  const FAST := 0
  const NORMAL := 1
  const HEAVY := 2

  /** `wants` says whether a result channel was given. */
  datatype Task = Task(id: string, priority: int, wants: bool)

  datatype Lane = Lane(cap: nat, rejectOnFull: bool, queue: seq<Task>)

  type Lanes = map<int, Lane>

  datatype Verdict = Accepted | HandedOver | NilTask | UnknownPriority | QueueFull | Blocked

  /** A send on the lane's channel goes through: there is room, or a worker blocks on the empty queue. */
  predicate Sendable(l: Lane, waiting: bool) {
    |l.queue| < l.cap || (waiting && l.queue == [])
  }

  /** What a worker's search ends with: a task of some lane, the order to leave, or a wait. */
  datatype Fetch = Got(task: Task, from: int) | Exit | Wait

  /** Tasks of unknown priority run in the normal lane. */
  function Effective(t: Task): Task {
    if t.priority < FAST || t.priority > HEAVY then t.(priority := NORMAL) else t
  }

  function Push(lanes: Lanes, p: int, t: Task): Lanes
    requires p in lanes
  {
    lanes[p := lanes[p].(queue := lanes[p].queue + [t])]
  }

  function Pop(lanes: Lanes, p: int): Lanes
    requires p in lanes && lanes[p].queue != []
  {
    lanes[p := lanes[p].(queue := lanes[p].queue[1..])]
  }

  /** The first lane from `p` down to the fast one, other than the worker's own, that has work. */
  function Victim(lanes: Lanes, home: int, p: int): (v: Option<int>)
    ensures v.Some? ==> 0 <= v.value <= p && v.value in lanes && v.value != home && lanes[v.value].queue != []
    ensures forall q :: (if v.Some? then v.value else -1) < q <= p && 0 <= q && q in lanes && q != home ==>
            lanes[q].queue == []
    decreases p + 1
  {
    if p < FAST then None
    else if p in lanes && p != home && lanes[p].queue != [] then Some(p)
    else Victim(lanes, home, p - 1)
  }

  /** The task stands last in its lane, which is the normal one for priorities other than fast, normal
      and heavy; nothing else has changed. */
  predicate Queued(before: Lanes, after: Lanes, t: Task) {
    var p := if t.priority == 0 || t.priority == 1 || t.priority == 2 then t.priority else 1;
    && p in before && after.Keys == before.Keys && (forall q :: q in before && q != p ==> after[q] == before[q])
    && after[p].queue == before[p].queue + [Task(t.id, p, t.wants)]
    && after[p].cap == before[p].cap && after[p].rejectOnFull == before[p].rejectOnFull
  }

  /** The shared part of the scheduler object. */
  class LaneScheduler {
    var lanes: Lanes
    var stopped: bool

    constructor (lanes: Lanes)
      ensures this.lanes == lanes && !stopped
    {
      this.lanes, stopped := lanes, false;
    }

    /** A send that goes through: to a worker that blocks on the empty queue, or into the queue. */
    method Send(p: int, t: Task, waiting: bool) returns (r: Verdict)
      requires p in lanes && Sendable(lanes[p], waiting)
      modifies this
      ensures stopped == old(stopped)
      ensures r == if waiting && old(lanes)[p].queue == [] then HandedOver else Accepted
      ensures lanes == if r.Accepted? then Push(old(lanes), p, t) else old(lanes)
    {
      var l := lanes[p];
      if waiting && l.queue == [] {
        return HandedOver;
      }
      lanes := lanes[p := l.(queue := l.queue + [t])];
      return Accepted;
    }

    /** `lane.enqueue`. `waiting` says whether a worker blocks on this lane's empty queue, in which case
        the task goes straight to it, whatever the queue's size. When a send can go through on a
        blocking lane and the scheduler is stopped, either case of the select may be chosen:
        `stopFirst` says which. `Blocked` is a submitter that waits. */
    method EnqueueLane(p: int, t: Task, waiting: bool, stopFirst: bool) returns (r: Verdict)
      requires p in lanes
      modifies this
      ensures stopped == old(stopped) && lanes == if r.Accepted? then Push(old(lanes), p, t) else old(lanes)
      ensures r in {Accepted, HandedOver, QueueFull, Blocked}
      ensures var l := old(lanes)[p];
              && (r.Accepted? || r.HandedOver? <==> Sendable(l, waiting) && (l.rejectOnFull || !stopped || !stopFirst))
              && (r.HandedOver? ==> waiting && l.queue == []) && (r.Accepted? ==> !(waiting && l.queue == []))
              && (r.Blocked? <==> !Sendable(l, waiting) && !l.rejectOnFull && !stopped)
    {
      var l := lanes[p];
      if l.rejectOnFull {
        if Sendable(l, waiting) {
          r := Send(p, t, waiting);
          return;
        }
        return QueueFull;
      }
      if stopped && (stopFirst || !Sendable(l, waiting)) {
        return QueueFull;
      }
      if Sendable(l, waiting) {
        r := Send(p, t, waiting);
        return;
      }
      return Blocked;
    }

    method EnqueueTask(task: Option<Task>, waiting: bool, stopFirst: bool) returns (r: Verdict)
      modifies this
      ensures stopped == old(stopped)
      ensures r.NilTask? <==> task.None?
      ensures r.UnknownPriority? <==> task.Some? && Effective(task.value).priority !in old(lanes)
      ensures r.Accepted? ==> var t := Effective(task.value);
                |old(lanes)[t.priority].queue| < old(lanes)[t.priority].cap && lanes == Push(old(lanes), t.priority, t)
      ensures r.Accepted? ==> Queued(old(lanes), lanes, task.value)
      ensures !r.Accepted? ==> lanes == old(lanes)
      ensures !r.NilTask? && !r.UnknownPriority? ==>
                var l := old(lanes)[Effective(task.value).priority];
                && (r.HandedOver? ==> waiting && l.queue == [])
                && (r.QueueFull? <==>
                      if l.rejectOnFull then !Sendable(l, waiting) else stopped && (stopFirst || !Sendable(l, waiting)))
                && (r.Blocked? <==> !l.rejectOnFull && !Sendable(l, waiting) && !stopped)
    {
      if task.None? {
        return NilTask;
      }
      var t := task.value;
      if t.priority < FAST || t.priority > HEAVY {
        t := t.(priority := NORMAL);
      }
      if t.priority !in lanes {
        return UnknownPriority;
      }
      r := EnqueueLane(t.priority, t, waiting, stopFirst);
    }

    /** `dequeueOrSteal` of a worker nobody disturbs: its own lane first, then the other lanes
        from heavy to fast, but none of these once the scheduler is ending. When its own lane has
        work at that moment, either case of the select may be chosen: `quitFirst` says which. */
    method DequeueOrSteal(home: int, cancelled: bool, quitFirst: bool) returns (r: Fetch)
      requires home in lanes
      modifies this
      ensures stopped == old(stopped)
      ensures r.Exit? <==> (stopped || cancelled) && (quitFirst || old(lanes)[home].queue == [])
      ensures r.Exit? || r.Wait? ==> lanes == old(lanes)
      ensures r.Wait? <==> !r.Exit? && old(lanes)[home].queue == [] && Victim(old(lanes), home, HEAVY).None?
      ensures r.Got? ==> r.from == if old(lanes)[home].queue != [] then home else Victim(old(lanes), home, HEAVY).value
      ensures r.Got? ==> r.task == old(lanes)[r.from].queue[0] && lanes == Pop(old(lanes), r.from)
    {
      if (stopped || cancelled) && (quitFirst || lanes[home].queue == []) {
        return Exit;
      }
      if lanes[home].queue != [] {
        r := Got(lanes[home].queue[0], home);
        lanes := lanes[home := lanes[home].(queue := lanes[home].queue[1..])];
        return;
      }
      var p := HEAVY;
      while p >= FAST
        invariant -1 <= p <= HEAVY && lanes == old(lanes) && stopped == old(stopped)
        invariant Victim(lanes, home, HEAVY) == Victim(lanes, home, p)
      {
        if p in lanes && p != home {
          var l := lanes[p];
          if l.queue != [] {
            r := Got(l.queue[0], p);
            lanes := lanes[p := l.(queue := l.queue[1..])];
            return;
          }
        }
        p := p - 1;
      }
      return Wait;
    }
  }

  /* ---- workers and submitters interleaved ---- */

  /** The `index`-th task a lane ever accepted. */
  datatype Ticket = Ticket(lane: int, index: nat)

  datatype TaskResult = TaskResult(output: Option<Body>, error: Option<string>)

  /** How the function of a task ended. */
  datatype Outcome = Returned(output: Option<Body>, error: Option<string>) | Panicked(reason: string)

  function ResultOf(o: Outcome): TaskResult {
    match o
    case Returned(out, err) => TaskResult(out, err)
    case Panicked(reason) => TaskResult(None, Some("task panicked: " + reason))
  }

  /** Where a worker stands: at its first select, scanning lane `p`, at its last select, running a
      task, sending its result, or gone. */
  datatype Pc = Idle | Scan(p: int) | Waiting | Running(ticket: Ticket, task: Task)
              | Reporting(ticket: Ticket, task: Task, result: TaskResult) | Exited

  datatype Worker = Worker(home: int, pc: Pc)

  datatype Taken = Taken(worker: nat, task: Task)

  datatype Entry = Entry(ticket: Ticket, result: TaskResult)

  /** The lanes and workers, with the history of each lane (what it accepted, who took what), of
      finished executions and of results sent. */
  datatype System = System(
    lanes: Lanes, stopped: bool, cancelled: bool, workers: map<nat, Worker>,
    accepted: map<int, seq<Task>>, taken: map<int, seq<Taken>>, finished: seq<Entry>, results: seq<Entry>)

  datatype Action =
    | Submit(task: Task)
    | Handoff(task: Task, w: nat)
    | Stop
    | Cancel
    | TakeOwn(w: nat)
    | Quit(w: nat)
    | StartScan(w: nat)
    | Steal(w: nat)
    | Finish(w: nat, outcome: Outcome)
    | Deliver(w: nat)

  /** The worker is at a receive from lane `p`. */
  predicate Receives(s: System, w: nat, p: int) {
    && w in s.workers
    && match s.workers[w].pc
       case Idle => s.workers[w].home == p
       case Waiting => s.workers[w].home == p
       case Scan(q) => q == p && s.workers[w].home != p
       case _ => false
  }

  predicate Ending(s: System) {
    s.stopped || s.cancelled
  }

  predicate Enabled(s: System, a: Action) {
    match a
    case Submit(t) =>
      var p := Effective(t).priority; p in s.lanes && |s.lanes[p].queue| < s.lanes[p].cap
    // an empty lane, buffered or not, may pass a task straight to a worker receiving from it
    case Handoff(t, w) =>
      var p := Effective(t).priority; p in s.lanes && s.lanes[p].queue == [] && Receives(s, w, p)
    case Stop => true
    case Cancel => true
    case TakeOwn(w) =>
      && w in s.workers && (s.workers[w].pc.Idle? || s.workers[w].pc.Waiting?)
      && s.workers[w].home in s.lanes && s.lanes[s.workers[w].home].queue != []
    case Quit(w) => w in s.workers && (s.workers[w].pc.Idle? || s.workers[w].pc.Waiting?) && Ending(s)
    case StartScan(w) =>
      && w in s.workers && s.workers[w].pc.Idle? && !Ending(s)
      && s.workers[w].home in s.lanes && s.lanes[s.workers[w].home].queue == []
    case Steal(w) => w in s.workers && s.workers[w].pc.Scan?
    case Finish(w, _) => w in s.workers && s.workers[w].pc.Running?
    case Deliver(w) => w in s.workers && s.workers[w].pc.Reporting?
  }

  function Log<T>(m: map<int, seq<T>>, p: int): seq<T> {
    if p in m then m[p] else []
  }

  function Admit(s: System, t: Task): System
    requires Effective(t).priority in s.lanes
  {
    var e := Effective(t);
    s.(lanes := Push(s.lanes, e.priority, e), accepted := s.accepted[e.priority := Log(s.accepted, e.priority) + [e]])
  }

  /** Worker `w` takes the first task of lane `p`. */
  function Take(s: System, w: nat, p: int): System
    requires w in s.workers && p in s.lanes && s.lanes[p].queue != []
  {
    var t := s.lanes[p].queue[0];
    var log := Log(s.taken, p);
    s.(lanes := Pop(s.lanes, p), taken := s.taken[p := log + [Taken(w, t)]],
       workers := s.workers[w := s.workers[w].(pc := Running(Ticket(p, |log|), t))])
  }

  function Move(s: System, w: nat, pc: Pc): System
    requires w in s.workers
  {
    s.(workers := s.workers[w := s.workers[w].(pc := pc)])
  }

  function Next(s: System, a: Action): System
    requires Enabled(s, a)
  {
    match a
    case Submit(t) => Admit(s, t)
    case Handoff(t, w) => Take(Admit(s, t), w, Effective(t).priority)
    case Stop => s.(stopped := true)
    case Cancel => s.(cancelled := true)
    case TakeOwn(w) => Take(s, w, s.workers[w].home)
    case Quit(w) => Move(s, w, Exited)
    case StartScan(w) => Move(s, w, Scan(HEAVY))
    case Steal(w) =>
      var Worker(home, Scan(p)) := s.workers[w];
      if p < FAST then Move(s, w, Waiting)
      else if p in s.lanes && p != home && s.lanes[p].queue != [] then Take(s, w, p)
      else Move(s, w, Scan(p - 1))
    case Finish(w, o) =>
      var Running(ticket, t) := s.workers[w].pc;
      var r := ResultOf(o);
      Move(s, w, if t.wants then Reporting(ticket, t, r) else Idle).(finished := s.finished + [Entry(ticket, r)])
    case Deliver(w) =>
      var Reporting(ticket, _, r) := s.workers[w].pc;
      Move(s, w, Idle).(results := s.results + [Entry(ticket, r)])
  }

  /** A new scheduler, with any number of workers in any of its lanes. */
  ghost predicate Initial(s: System) {
    && !s.stopped && !s.cancelled && s.finished == [] && s.results == []
    && s.accepted.Keys == s.lanes.Keys && s.taken.Keys == s.lanes.Keys
    && (forall p :: p in s.lanes ==> s.lanes[p].queue == [] && s.accepted[p] == [] && s.taken[p] == [])
    && (forall w :: w in s.workers ==> s.workers[w].pc.Idle? && s.workers[w].home in s.lanes)
  }

  /* ---- the invariant ---- */

  /** Taken tasks are the first accepted ones, in order, and the queue holds the others. */
  ghost predicate Fifo(accepted: seq<Task>, taken: seq<Taken>, queue: seq<Task>) {
    && |accepted| == |taken| + |queue|
    && (forall k :: 0 <= k < |taken| ==> accepted[k] == taken[k].task)
    && queue == accepted[|taken|..]
  }

  ghost predicate LaneLogs(s: System) {
    && s.accepted.Keys == s.lanes.Keys && s.taken.Keys == s.lanes.Keys
    && forall p :: p in s.lanes ==> Fifo(s.accepted[p], s.taken[p], s.lanes[p].queue)
  }

  ghost predicate Bounded(s: System) {
    forall p :: p in s.lanes ==> |s.lanes[p].queue| <= s.lanes[p].cap
  }

  predicate TakenTicket(s: System, t: Ticket) {
    t.lane in s.taken && t.index < |s.taken[t.lane]|
  }

  predicate Holds(pc: Pc, t: Ticket) {
    (pc.Running? || pc.Reporting?) && pc.ticket == t
  }

  /** A worker holds only what it took itself. */
  ghost predicate HoldsOwn(s: System, w: nat)
    requires w in s.workers
  {
    var pc := s.workers[w].pc;
    pc.Running? || pc.Reporting? ==>
      && TakenTicket(s, pc.ticket) && s.taken[pc.ticket.lane][pc.ticket.index] == Taken(w, pc.task)
      && (pc.Reporting? ==> pc.task.wants && Entry(pc.ticket, pc.result) in s.finished)
  }

  function TakerPc(s: System, t: Ticket): Pc
    requires TakenTicket(s, t)
  {
    var w := s.taken[t.lane][t.index].worker;
    if w in s.workers then s.workers[w].pc else Exited
  }

  function Count(log: seq<Entry>, t: Ticket): nat {
    if log == [] then 0
    else Count(log[..|log| - 1], t) + if log[|log| - 1].ticket == t then 1 else 0
  }

  /** A taken task has finished once unless its taker is running it, and its result has been sent
      once if it has finished and has a channel, unless its taker is about to send it. */
  ghost predicate Settled(s: System, t: Ticket) {
    if !TakenTicket(s, t) then Count(s.finished, t) == 0 && Count(s.results, t) == 0
    else
      var pc := TakerPc(s, t);
      var running := pc.Running? && pc.ticket == t;
      var reporting := pc.Reporting? && pc.ticket == t;
      && s.taken[t.lane][t.index].worker in s.workers
      && Count(s.finished, t) == (if running then 0 else 1)
      && Count(s.results, t) == (if running || reporting || !s.taken[t.lane][t.index].task.wants then 0 else 1)
  }

  ghost predicate Inv(s: System) {
    && LaneLogs(s) && (forall w :: w in s.workers ==> HoldsOwn(s, w)) && (forall t :: Settled(s, t))
    && forall e :: e in s.results ==> e in s.finished
  }

  /* ---- every step keeps the invariant ---- */

  lemma CountAppend(log: seq<Entry>, e: Entry, t: Ticket)
    ensures Count(log + [e], t) == Count(log, t) + if e.ticket == t then 1 else 0
  {
    assert (log + [e])[..|log|] == log;
  }

  lemma FifoAdmits(accepted: seq<Task>, taken: seq<Taken>, queue: seq<Task>, t: Task)
    requires Fifo(accepted, taken, queue)
    ensures Fifo(accepted + [t], taken, queue + [t])
  {
  }

  lemma FifoTakes(accepted: seq<Task>, taken: seq<Taken>, queue: seq<Task>, w: nat)
    requires Fifo(accepted, taken, queue) && queue != []
    ensures Fifo(accepted, taken + [Taken(w, queue[0])], queue[1..])
  {
  }

  lemma AdmitKeepsInv(s: System, t: Task)
    requires Inv(s) && Effective(t).priority in s.lanes
    ensures Inv(Admit(s, t))
  {
    hide Fifo, Settled;
    var e, d := Effective(t), Admit(s, t);
    FifoAdmits(s.accepted[e.priority], s.taken[e.priority], s.lanes[e.priority].queue, e);
    forall k ensures Settled(d, k) {
      SameSettled(s, d, k);
    }
  }

  lemma SameSettled(s: System, d: System, t: Ticket)
    requires Settled(s, t) && d.taken == s.taken && d.workers == s.workers && d.finished == s.finished &&
             d.results == s.results
    ensures Settled(d, t)
  {
  }

  lemma TakeKeepsInv(s: System, w: nat, p: int)
    requires Inv(s) && w in s.workers && p in s.lanes && s.lanes[p].queue != []
    requires !s.workers[w].pc.Running? && !s.workers[w].pc.Reporting?
    ensures Inv(Take(s, w, p))
  {
    hide Fifo, Settled;
    var d := Take(s, w, p);
    FifoTakes(s.accepted[p], s.taken[p], s.lanes[p].queue, w);
    forall t ensures Settled(d, t) {
      TakeSettles(s, w, p, t);
    }
    forall v | v in d.workers ensures HoldsOwn(d, v) {
      assert HoldsOwn(s, v);
    }
  }

  lemma TakeSettles(s: System, w: nat, p: int, t: Ticket)
    requires w in s.workers && p in s.lanes && s.lanes[p].queue != [] && p in s.taken && Settled(s, t)
    requires !s.workers[w].pc.Running? && !s.workers[w].pc.Reporting?
    ensures Settled(Take(s, w, p), t)
  {
  }

  lemma MoveKeepsInv(s: System, w: nat, pc: Pc)
    requires Inv(s) && w in s.workers && !s.workers[w].pc.Running? && !s.workers[w].pc.Reporting?
    requires !pc.Running? && !pc.Reporting?
    ensures Inv(Move(s, w, pc))
  {
    hide LaneLogs, Count;
    var d := Move(s, w, pc);
    assert LaneLogs(d) by { SameLaneLogs(s, d); }
    forall v | v in d.workers ensures HoldsOwn(d, v) {
      assert HoldsOwn(s, v);
    }
    forall t ensures Settled(d, t) {
      assert Settled(s, t);
    }
  }

  lemma SameLaneLogs(s: System, d: System)
    requires LaneLogs(s) && d.lanes == s.lanes && d.accepted == s.accepted && d.taken == s.taken
    ensures LaneLogs(d)
  {
  }

  lemma FinishKeepsInv(s: System, w: nat, o: Outcome)
    requires Inv(s) && Enabled(s, Finish(w, o))
    ensures Inv(Next(s, Finish(w, o)))
  {
    hide LaneLogs, Count;
    var d := Next(s, Finish(w, o));
    assert LaneLogs(d) by { SameLaneLogs(s, d); }
    assert HoldsOwn(s, w);
    forall v | v in d.workers ensures HoldsOwn(d, v) {
      assert HoldsOwn(s, v);
    }
    forall t ensures Settled(d, t) {
      assert Settled(s, t);
      CountAppend(s.finished, Entry(s.workers[w].pc.ticket, ResultOf(o)), t);
    }
  }

  lemma DeliverKeepsInv(s: System, w: nat)
    requires Inv(s) && Enabled(s, Deliver(w))
    ensures Inv(Next(s, Deliver(w)))
  {
    hide LaneLogs, Count;
    var d := Next(s, Deliver(w));
    assert LaneLogs(d) by { SameLaneLogs(s, d); }
    assert HoldsOwn(s, w);
    forall v | v in d.workers ensures HoldsOwn(d, v) {
      assert HoldsOwn(s, v);
    }
    forall t ensures Settled(d, t) {
      assert Settled(s, t);
      CountAppend(s.results, Entry(s.workers[w].pc.ticket, s.workers[w].pc.result), t);
    }
  }

  lemma FlagsKeepInv(s: System, stopped: bool, cancelled: bool)
    requires Inv(s)
    ensures Inv(s.(stopped := stopped, cancelled := cancelled))
  {
    hide Fifo, Settled;
    var d := s.(stopped := stopped, cancelled := cancelled);
    forall t ensures Settled(d, t) {
      SameSettled(s, d, t);
    }
    forall v | v in d.workers ensures HoldsOwn(d, v) {
      assert HoldsOwn(s, v);
    }
  }

  lemma StepKeepsInv(s: System, a: Action)
    requires Inv(s) && Enabled(s, a)
    ensures Inv(Next(s, a))
  {
    hide Inv, Take, Admit, Move;
    match a
    case Submit(t) => AdmitKeepsInv(s, t);
    case Handoff(t, w) =>
      AdmitKeepsInv(s, t);
      AdmitQueues(s, t);
      TakeKeepsInv(Admit(s, t), w, Effective(t).priority);
    case Stop => FlagsKeepInv(s, true, s.cancelled);
    case Cancel => FlagsKeepInv(s, s.stopped, true);
    case TakeOwn(w) => TakeKeepsInv(s, w, s.workers[w].home);
    case Quit(w) => MoveKeepsInv(s, w, Exited);
    case StartScan(w) => MoveKeepsInv(s, w, Scan(HEAVY));
    case Steal(w) =>
      var Worker(home, Scan(p)) := s.workers[w];
      if p < FAST {
        MoveKeepsInv(s, w, Waiting);
      } else if p in s.lanes && p != home && s.lanes[p].queue != [] {
        TakeKeepsInv(s, w, p);
      } else {
        MoveKeepsInv(s, w, Scan(p - 1));
      }
    case Finish(w, o) => FinishKeepsInv(s, w, o);
    case Deliver(w) => DeliverKeepsInv(s, w);
  }

  lemma AdmitQueues(s: System, t: Task)
    requires Effective(t).priority in s.lanes
    ensures var p := Effective(t).priority;
            && p in Admit(s, t).lanes && Admit(s, t).lanes[p].queue == s.lanes[p].queue + [Effective(t)]
            && Admit(s, t).workers == s.workers
  {
  }

  lemma StepKeepsBound(s: System, a: Action)
    requires Bounded(s) && Enabled(s, a)
    ensures Bounded(Next(s, a))
  {
  }

  /* ---- whole runs ---- */

  ghost predicate Run(ss: seq<System>, acts: seq<Action>) {
    && |ss| == |acts| + 1 && Initial(ss[0])
    && forall i :: 0 <= i < |acts| ==> Enabled(ss[i], acts[i]) && ss[i + 1] == Next(ss[i], acts[i])
  }

  lemma RunStep(ss: seq<System>, acts: seq<Action>, i: nat)
    requires Run(ss, acts) && i + 1 < |ss|
    ensures i < |acts| && Enabled(ss[i], acts[i]) && ss[i + 1] == Next(ss[i], acts[i])
  {
  }

  lemma StartIsSound(s: System)
    requires Initial(s)
    ensures Inv(s) && Bounded(s)
  {
  }

  lemma {:induction false} InvHolds(ss: seq<System>, acts: seq<Action>, i: nat)
    requires Run(ss, acts) && i < |ss|
    ensures Inv(ss[i]) && Bounded(ss[i])
  {
    hide Inv, Bounded, Enabled, Next, Initial;
    if i == 0 {
      StartIsSound(ss[0]);
    } else {
      InvHolds(ss, acts, i - 1);
      RunStep(ss, acts, i - 1);
      StepKeepsInv(ss[i - 1], acts[i - 1]);
      StepKeepsBound(ss[i - 1], acts[i - 1]);
    }
  }

  /** Nothing accepted, taken, finished or sent is ever taken back. */
  ghost predicate Grows(s: System, d: System) {
    && s.finished <= d.finished && s.results <= d.results
    && (forall p :: p in s.accepted ==> p in d.accepted && s.accepted[p] <= d.accepted[p])
    && (forall p :: p in s.taken ==> p in d.taken && s.taken[p] <= d.taken[p])
  }

  lemma StepGrows(s: System, a: Action)
    requires Enabled(s, a)
    ensures Grows(s, Next(s, a))
  {
    hide Pop, Push;
  }

  lemma {:induction false} RunGrows(ss: seq<System>, acts: seq<Action>, i: nat, j: nat)
    requires Run(ss, acts) && i <= j < |ss|
    ensures Grows(ss[i], ss[j])
    decreases j
  {
    hide Enabled, Next, Initial, Run;
    if i < j {
      RunGrows(ss, acts, i, j - 1);
      RunStep(ss, acts, j - 1);
      StepGrows(ss[j - 1], acts[j - 1]);
    }
  }

  /** Every lane is consumed first in, first out, whoever takes from it, and stays in its bound. */
  lemma LanesAreFifo(ss: seq<System>, acts: seq<Action>, i: nat, p: int)
    requires Run(ss, acts) && i < |ss| && p in ss[i].lanes
    ensures p in ss[i].accepted && p in ss[i].taken && Fifo(ss[i].accepted[p], ss[i].taken[p], ss[i].lanes[p].queue)
    ensures |ss[i].lanes[p].queue| <= ss[i].lanes[p].cap
  {
    hide Run, Fifo;
    InvHolds(ss, acts, i);
  }

  /** A task not yet taken waits at its place in its lane, and nobody holds, finished or answered
      it. */
  lemma QueuedIsUntouched(ss: seq<System>, acts: seq<Action>, i: nat, t: Ticket, w: nat)
    requires Run(ss, acts) && i < |ss| && t.lane in ss[i].accepted && t.index < |ss[i].accepted[t.lane]|
    requires !TakenTicket(ss[i], t) && w in ss[i].workers
    ensures var s := ss[i];
            && t.lane in s.lanes && t.lane in s.taken && 0 <= t.index - |s.taken[t.lane]| < |s.lanes[t.lane].queue|
            && s.lanes[t.lane].queue[t.index - |s.taken[t.lane]|] == s.accepted[t.lane][t.index]
            && !Holds(s.workers[w].pc, t) && Count(s.finished, t) == 0 && Count(s.results, t) == 0
  {
    hide Run, Count;
    InvHolds(ss, acts, i);
    var s := ss[i];
    assert Settled(s, t) && HoldsOwn(s, w);
    assert Fifo(s.accepted[t.lane], s.taken[t.lane], s.lanes[t.lane].queue);
  }

  /** A taken task was taken by one worker. While that worker runs it, it is not finished; after
      that it is finished exactly once. Nobody else ever holds it. */
  lemma TakenIsAccounted(ss: seq<System>, acts: seq<Action>, i: nat, t: Ticket, v: nat)
    requires Run(ss, acts) && i < |ss| && TakenTicket(ss[i], t) && v in ss[i].workers
    ensures var s := ss[i]; var w := s.taken[t.lane][t.index].worker;
            && w in s.workers && (v != w ==> !Holds(s.workers[v].pc, t))
            && Count(s.finished, t) == if s.workers[w].pc.Running? && s.workers[w].pc.ticket == t then 0 else 1
  {
    hide Run, Count;
    InvHolds(ss, acts, i);
    assert Settled(ss[i], t) && HoldsOwn(ss[i], v);
  }

  /** Once its worker has let go of it, a task with a result channel has got exactly one result;
      before that, and without a channel, none. */
  lemma OneResultEach(ss: seq<System>, acts: seq<Action>, i: nat, t: Ticket)
    requires Run(ss, acts) && i < |ss|
    ensures Count(ss[i].results, t) == 1 <==>
            TakenTicket(ss[i], t) && ss[i].taken[t.lane][t.index].task.wants && !Holds(TakerPc(ss[i], t), t)
    ensures Count(ss[i].results, t) <= 1
  {
    hide Run, Count;
    InvHolds(ss, acts, i);
    assert Settled(ss[i], t);
  }

  lemma {:induction false} CountedOnce(log: seq<Entry>, e: Entry, f: Entry)
    requires e in log && f in log && e.ticket == f.ticket && Count(log, e.ticket) <= 1
    ensures e == f
  {
    var n := |log| - 1;
    if e in log[..n] && f in log[..n] {
      CountedOnce(log[..n], e, f);
    } else if e in log[..n] {
      CountsPresent(log[..n], e);
    } else if f in log[..n] {
      CountsPresent(log[..n], f);
    }
  }

  lemma {:induction false} CountsPresent(log: seq<Entry>, e: Entry)
    requires e in log
    ensures Count(log, e.ticket) >= 1
  {
    var n := |log| - 1;
    if log[n] != e {
      CountsPresent(log[..n], e);
    }
  }

  /** The result sent for a task is the outcome of its execution, also when that panicked. */
  lemma ResultIsOutcome(ss: seq<System>, acts: seq<Action>, m: nat, i: nat, e: Entry)
    requires Run(ss, acts) && m < i < |ss| && acts[m].Finish? && Enabled(ss[m], acts[m])
    requires e in ss[i].results && e.ticket == ss[m].workers[acts[m].w].pc.ticket
    ensures match acts[m].outcome
            case Returned(out, err) => e.result == TaskResult(out, err)
            case Panicked(reason) => e.result.output.None? && e.result.error == Some("task panicked: " + reason)
  {
    hide Run, Count;
    RunStep(ss, acts, m);
    var f := Entry(e.ticket, ResultOf(acts[m].outcome));
    assert ss[m + 1].finished[|ss[m].finished|] == f;
    RunGrows(ss, acts, m + 1, i);
    assert ss[i].finished[|ss[m].finished|] == f;
    InvHolds(ss, acts, i);
    assert Settled(ss[i], e.ticket);
    CountedOnce(ss[i].finished, e, f);
  }

  /* ---- the machine's scan is the object's search ---- */

  /** The worker's scan, with no step of anybody else in between. */
  function ScanAlone(s: System, w: nat): System
    requires w in s.workers && s.workers[w].pc.Scan?
    decreases var p := s.workers[w].pc.p; if p < 0 then 0 else p + 1
  {
    var d := Next(s, Steal(w));
    if d.workers[w].pc.Scan? then ScanAlone(d, w) else d
  }

  lemma ScanStep(s: System, w: nat)
    requires w in s.workers && s.workers[w].pc.Scan?
    ensures var Worker(home, Scan(p)) := s.workers[w];
            ScanAlone(s, w) ==
            if p < FAST then Move(s, w, Waiting)
            else if p in s.lanes && p != home && s.lanes[p].queue != [] then Take(s, w, p)
            else ScanAlone(Move(s, w, Scan(p - 1)), w)
  {
  }

  lemma {:induction false} ScanFindsVictim(s: System, w: nat)
    requires w in s.workers && s.workers[w].pc.Scan?
    ensures var v := Victim(s.lanes, s.workers[w].home, s.workers[w].pc.p);
            ScanAlone(s, w) == if v.Some? then Take(s, w, v.value) else Move(s, w, Waiting)
    decreases var p := s.workers[w].pc.p; if p < 0 then 0 else p + 1
  {
    hide Take, Next, Enabled, ScanAlone, Victim, Move;
    ScanStep(s, w);
    VictimStep(s.lanes, s.workers[w].home, s.workers[w].pc.p);
    var Worker(home, Scan(p)) := s.workers[w];
    if p >= FAST && !(p in s.lanes && p != home && s.lanes[p].queue != []) {
      var d := Move(s, w, Scan(p - 1));
      Moved(s, w, Scan(p - 1), Waiting);
      ScanFindsVictim(d, w);
      var v := Victim(s.lanes, home, p - 1);
      if v.Some? {
        TakeForgetsPc(s, w, Scan(p - 1), v.value);
      }
    }
  }

  lemma VictimStep(lanes: Lanes, home: int, p: int)
    ensures Victim(lanes, home, p) ==
            if p < FAST then None
            else if p in lanes && p != home && lanes[p].queue != [] then Some(p)
            else Victim(lanes, home, p - 1)
  {
  }

  lemma Moved(s: System, w: nat, pc: Pc, next: Pc)
    requires w in s.workers
    ensures var d := Move(s, w, pc);
            && d.lanes == s.lanes && w in d.workers && d.workers[w] == Worker(s.workers[w].home, pc)
            && Move(d, w, next) == Move(s, w, next)
  {
    assert Move(Move(s, w, pc), w, next).workers == Move(s, w, next).workers;
  }

  lemma TakeForgetsPc(s: System, w: nat, pc: Pc, p: int)
    requires w in s.workers && p in s.lanes && s.lanes[p].queue != []
    ensures Take(Move(s, w, pc), w, p) == Take(s, w, p)
  {
    assert Take(Move(s, w, pc), w, p).workers == Take(s, w, p).workers;
  }

  /** A worker at its first select takes the head of its own lane, and with nothing there and nothing ending
      it searches the other lanes from heavy (2) down. */
  lemma IdleWorker(s: System, w: nat)
    requires w in s.workers && s.workers[w].pc.Idle? && s.workers[w].home in s.lanes
    ensures var home := s.workers[w].home;
            var queue := s.lanes[home].queue;
            && (Enabled(s, TakeOwn(w)) <==> queue != [])
            && (queue != [] ==>
                  && Next(s, TakeOwn(w)).lanes == s.lanes[home := s.lanes[home].(queue := queue[1..])]
                  && Next(s, TakeOwn(w)).workers[w].pc.Running? && Next(s, TakeOwn(w)).workers[w].pc.task == queue[0])
            && (Enabled(s, StartScan(w)) <==> queue == [] && !s.stopped && !s.cancelled)
            && (Enabled(s, StartScan(w)) ==>
                  ScanAlone(Next(s, StartScan(w)), w) ==
                  var v := Victim(s.lanes, home, 2); if v.Some? then Take(s, w, v.value) else Move(s, w, Waiting))
            && (Enabled(s, Quit(w)) <==> s.stopped || s.cancelled)
  {
    if Enabled(s, StartScan(w)) {
      hide Take, Victim, ScanAlone;
      var d := Move(s, w, Scan(2));
      ScanFindsVictim(d, w);
      Moved(s, w, Scan(2), Waiting);
      var v := Victim(s.lanes, s.workers[w].home, 2);
      if v.Some? {
        TakeForgetsPc(s, w, Scan(2), v.value);
      }
    }
  }
}
