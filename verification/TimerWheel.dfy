/** The timer wheel (server/internal/scheduler/worker.go) as coded: timers of one rotation or longer
    are moved one slot ahead per tick once their slot has been reached, and leave the id index. */
module TimerWheel {
  import opened Prelude

  datatype Timer = Timer(id: nat, remaining: nat)

  /** `fired` lists, tick by tick, the ids whose callbacks were started. */
  datatype Wheel = Wheel(current: nat, slots: seq<seq<Timer>>, index: map<nat, nat>, lastID: nat, fired: seq<seq<nat>>)

  function Fresh(slotCount: nat): Wheel {
    Wheel(0, seq(slotCount, i => []), map[], 0, [])
  }

  function Ticks(d: int, tick: nat): nat
    requires tick > 0
  {
    if d / tick < 1 then 1 else d / tick
  }

  /** The slot `dist` places ahead of `from` on a wheel of `n` slots. */
  function Advance(from: nat, dist: nat, n: nat): (r: nat)
    requires n > 0
    ensures r < n
  {
    (from + dist) % n
  }

  /** `Add` of a timer of `t` ticks. */
  function Add(w: Wheel, t: nat): Wheel
    requires |w.slots| > 0
  {
    var n := |w.slots|;
    var slot, id := Advance(w.current, t, n), w.lastID + 1;
    w.(slots := w.slots[slot := w.slots[slot] + [Timer(id, t / n)]], index := w.index[id := slot], lastID := id)
  }

  function Without(l: seq<Timer>, id: nat): seq<Timer> {
    if l == [] then [] else (if l[0].id == id then [] else [l[0]]) + Without(l[1..], id)
  }

  function Cancel(w: Wheel, id: nat): Wheel {
    if id in w.index && w.index[id] < |w.slots| then
      w.(slots := w.slots[w.index[id] := Without(w.slots[w.index[id]], id)], index := w.index - {id})
    else w
  }

  /** The timers of a slot that go round again, and the ids of those that fire. */
  function Again(l: seq<Timer>): seq<Timer> {
    if l == [] then [] else (if l[0].remaining > 0 then [Timer(l[0].id, l[0].remaining - 1)] else []) + Again(l[1..])
  }

  function Due(l: seq<Timer>): seq<nat> {
    if l == [] then [] else (if l[0].remaining == 0 then [l[0].id] else []) + Due(l[1..])
  }

  function Ids(l: seq<Timer>): set<nat> {
    set i | 0 <= i < |l| :: l[i].id
  }

  function Next(w: Wheel): nat
    requires |w.slots| > 0
  {
    Advance(w.current, 1, |w.slots|)
  }

  function Tick(w: Wheel): Wheel
    requires w.current < |w.slots|
  {
    var here, next := w.slots[w.current], Next(w);
    var cleared := w.slots[w.current := []];
    w.(current := next,
       slots := cleared[next := cleared[next] + Again(here)],
       index := w.index - Ids(here),
       fired := w.fired + [Due(here)])
  }

  datatype Op = OpAdd(t: nat) | OpCancel(id: nat) | OpTick

  function Apply(w: Wheel, op: Op): Wheel
    requires w.current < |w.slots|
  {
    match op
    case OpAdd(t) => Add(w, t)
    case OpCancel(id) => Cancel(w, id)
    case OpTick => Tick(w)
  }

  ghost predicate DistinctIds(l: seq<Timer>) {
    forall i, j :: 0 <= i < j < |l| ==> l[i].id != l[j].id
  }

  /** Ids are unique, already issued, and the index points at the slot a timer is in. */
  ghost predicate Valid(w: Wheel) {
    && 2 <= |w.slots| && w.current < |w.slots|
    && (forall s :: 0 <= s < |w.slots| ==> DistinctIds(w.slots[s]))
    && (forall s, id :: 0 <= s < |w.slots| && id in Ids(w.slots[s]) ==> id <= w.lastID)
    && (forall s, t, id :: 0 <= s < t < |w.slots| && id in Ids(w.slots[s]) ==> id !in Ids(w.slots[t]))
    && (forall id :: id in w.index ==> w.index[id] < |w.slots| && id in Ids(w.slots[w.index[id]]))
  }

  /** The slot `off` places ahead. */
  function Ahead(w: Wheel, off: nat): nat {
    if w.current + off < |w.slots| then w.current + off else w.current + off - |w.slots|
  }

  /** What becomes of one timer: it waits `off` slots ahead with `rem` rounds to go, still in the
      index or not, or it is gone. */
  datatype Fate = Waiting(off: nat, rem: nat, indexed: bool) | Gone

  ghost predicate Holds(w: Wheel, id: nat, f: Fate)
    requires w.current < |w.slots|
  {
    match f
    case Waiting(off, rem, indexed) =>
      && off < |w.slots| && id <= w.lastID
      && Timer(id, rem) in w.slots[Ahead(w, off)]
      && (id in w.index <==> indexed)
    case Gone => id <= w.lastID && id !in w.index && forall s :: 0 <= s < |w.slots| ==> id !in Ids(w.slots[s])
  }

  /** The life of a single timer, without any wheel. */
  function Live(f: Fate, id: nat, op: Op): Fate {
    if f.Gone? then Gone
    else match op
      case OpAdd(_) => f
      case OpCancel(x) => if x == id && f.indexed then Gone else f
      case OpTick =>
        if f.off > 0 then Waiting(f.off - 1, f.rem, f.indexed)
        else if f.rem > 0 then Waiting(0, f.rem - 1, false)
        else Gone
  }

  /** Ticks until a waiting timer fires, the firing tick included. */
  function Countdown(f: Fate): nat
    requires f.Waiting?
  {
    f.off + f.rem + 1
  }

  /* ---- facts about one slot ---- */

  lemma IdsAppend(a: seq<Timer>, b: seq<Timer>)
    ensures Ids(a + b) == Ids(a) + Ids(b)
  {
    assert forall i :: 0 <= i < |a| ==> (a + b)[i] == a[i];
    assert forall i :: 0 <= i < |b| ==> (a + b)[|a| + i] == b[i];
  }

  lemma IdsOne(x: Timer)
    ensures Ids([x]) == {x.id}
  {
    assert [x][0] == x;
  }

  lemma TimerHasId(l: seq<Timer>, x: Timer)
    requires x in l
    ensures x.id in Ids(l)
  {}

  lemma SameTimer(l: seq<Timer>, x: Timer, y: Timer)
    requires DistinctIds(l) && x in l && y in l && x.id == y.id
    ensures x == y
  {
    var i :| 0 <= i < |l| && l[i] == x;
    var j :| 0 <= j < |l| && l[j] == y;
    assert i == j;
  }

  lemma {:induction false} WithoutSpec(l: seq<Timer>, id: nat)
    ensures forall x :: x in Without(l, id) <==> x in l && x.id != id
    ensures DistinctIds(l) ==> DistinctIds(Without(l, id))
    decreases |l|
  {
    if l != [] {
      WithoutSpec(l[1..], id);
    }
  }

  lemma {:induction false} AgainMember(l: seq<Timer>, x: Timer)
    ensures x in Again(l) <==> Timer(x.id, x.remaining + 1) in l
    decreases |l|
  {
    if l != [] {
      AgainMember(l[1..], x);
    }
  }

  lemma {:induction false} AgainIds(l: seq<Timer>)
    ensures Ids(Again(l)) <= Ids(l)
    ensures DistinctIds(l) ==> DistinctIds(Again(l))
    decreases |l|
  {
    if l != [] {
      var rest := l[1..];
      AgainIds(rest);
      assert l == [l[0]] + rest;
      IdsAppend([l[0]], rest);
      IdsOne(l[0]);
      if l[0].remaining > 0 {
        var x := Timer(l[0].id, l[0].remaining - 1);
        IdsAppend([x], Again(rest));
        IdsOne(x);
        if DistinctIds(l) {
          assert l[0].id !in Ids(rest);
          AppendDistinct([x], Again(rest));
        }
      }
    }
  }

  lemma {:induction false} DueSpec(l: seq<Timer>)
    ensures forall id :: id in Due(l) <==> Timer(id, 0) in l
    ensures DistinctIds(l) ==> Distinct(Due(l))
    decreases |l|
  {
    if l != [] {
      DueSpec(l[1..]);
      if DistinctIds(l) {
        forall id | id in Due(l[1..]) ensures id != l[0].id {
          assert Timer(id, 0) in l[1..];
        }
      }
    }
  }

  lemma IdsOfWithout(l: seq<Timer>, id: nat)
    ensures Ids(Without(l, id)) == Ids(l) - {id}
  {
    WithoutSpec(l, id);
    var r := Without(l, id);
    forall x | x in Ids(r) ensures x in Ids(l) - {id} {
      var i :| 0 <= i < |r| && r[i].id == x;
      assert r[i] in r;
    }
    forall x | x in Ids(l) - {id} ensures x in Ids(r) {
      var i :| 0 <= i < |l| && l[i].id == x;
      assert l[i] in r;
    }
  }

  /* ---- every operation keeps the wheel valid ---- */

  lemma AddKeepsValid(w: Wheel, t: nat)
    requires Valid(w)
    ensures Valid(Add(w, t))
  {
    var n := |w.slots|;
    hide Advance;
    var slot, x := Advance(w.current, t, n), Timer(w.lastID + 1, t / n);
    IdsAppend(w.slots[slot], [x]);
    IdsOne(x);
    assert forall i :: 0 <= i < |w.slots[slot]| ==> w.slots[slot][i].id in Ids(w.slots[slot]);
    hide Ids;
  }

  lemma CancelKeepsValid(w: Wheel, id: nat)
    requires Valid(w)
    ensures Valid(Cancel(w, id))
  {
    if id in w.index {
      var s := w.index[id];
      IdsOfWithout(w.slots[s], id);
      WithoutSpec(w.slots[s], id);
      hide Ids, Without;
    }
  }

  lemma TickKeepsValid(w: Wheel)
    requires Valid(w)
    ensures Valid(Tick(w))
  {
    NextSlot(w);
    hide Ids, Again, DistinctIds, Due, Next;
    var here, next := w.slots[w.current], Next(w);
    IdsAppend(w.slots[next], Again(here));
    AgainIds(here);
    AppendDistinct(w.slots[next], Again(here));
    EmptySlot();
  }

  lemma NextSlot(w: Wheel)
    requires 2 <= |w.slots| && w.current < |w.slots|
    ensures Next(w) < |w.slots| && Next(w) != w.current
    ensures Next(w) == if w.current + 1 < |w.slots| then w.current + 1 else 0
  {
    SmallMod(w.current + 1, |w.slots|);
  }

  lemma EmptySlot()
    ensures Ids([]) == {} && DistinctIds([])
  {}

  lemma AppendDistinct(a: seq<Timer>, b: seq<Timer>)
    requires DistinctIds(a) && DistinctIds(b) && Ids(a) !! Ids(b)
    ensures DistinctIds(a + b)
  {
    forall i, j | 0 <= i < j < |a + b| ensures (a + b)[i].id != (a + b)[j].id {
      if i < |a| <= j {
        assert a[i].id in Ids(a) && b[j - |a|].id in Ids(b);
      }
    }
  }

  /* ---- every operation moves each timer as its own life says ---- */

  lemma SmallMod(x: nat, n: nat)
    requires n > 0 && x < 2 * n
    ensures x % n == if x < n then x else x - n
  {
    if x < n {
      DivUnique(x, n, 0, x);
    } else {
      DivUnique(x, n, 1, x - n);
    }
  }

  lemma ModWrap(cur: nat, t: nat, n: nat)
    requires cur < n
    ensures (cur + t) % n == if cur + t % n < n then cur + t % n else cur + t % n - n
  {
    var q, r := t / n, t % n;
    assert t == n * q + r;
    if cur + r < n {
      DivUnique(cur + t, n, q, cur + r);
    } else {
      assert n * (q + 1) == n * q + n;
      DivUnique(cur + t, n, q + 1, cur + r - n);
    }
  }

  /** A new timer waits `t mod n` slots ahead with `t div n` rounds to go. */
  function Filed(t: nat, n: nat): Fate
    requires n > 0
  {
    Waiting(t % n, t / n, true)
  }

  lemma AddStarts(w: Wheel, t: nat)
    requires Valid(w)
    ensures Holds(Add(w, t), w.lastID + 1, Filed(t, |w.slots|))
  {
    ModWrap(w.current, t, |w.slots|);
  }

  lemma AddHolds(w: Wheel, t: nat, id: nat, f: Fate)
    requires Valid(w) && Holds(w, id, f)
    ensures Holds(Add(w, t), id, f)
  {
    var n := |w.slots|;
    hide Advance;
    var slot, x := Advance(w.current, t, n), Timer(w.lastID + 1, t / n);
    IdsAppend(w.slots[slot], [x]);
    IdsOne(x);
    hide Ids;
  }

  lemma CancelHolds(w: Wheel, x: nat, id: nat, f: Fate)
    requires Valid(w) && Holds(w, id, f)
    ensures Holds(Cancel(w, x), id, Live(f, id, OpCancel(x)))
  {
    hide Ids, Without, DistinctIds;
    if x in w.index {
      var s := w.index[x];
      IdsOfWithout(w.slots[s], x);
      WithoutSpec(w.slots[s], x);
      if f.Waiting? && x == id {
        TimerHasId(w.slots[Ahead(w, f.off)], Timer(id, f.rem));
      }
    }
  }

  lemma AheadAfterTick(w: Wheel, off: nat)
    requires Valid(w) && off < |w.slots|
    ensures Ahead(w, off) < |w.slots| && (off > 0 ==> Ahead(w, off) != w.current)
    ensures off > 0 ==> Ahead(Tick(w), off - 1) == Ahead(w, off)
    ensures Ahead(Tick(w), 0) == Next(w)
  {
    NextSlot(w);
    hide Valid, Again, Due, Ids, Next;
  }

  lemma TickHolds(w: Wheel, id: nat, f: Fate)
    requires Valid(w) && Holds(w, id, f)
    ensures Holds(Tick(w), id, Live(f, id, OpTick))
  {
    if f.Gone? {
      TickGone(w, id);
    } else if f.off > 0 {
      TickApproaches(w, id, f);
    } else {
      TickVisits(w, id, f);
    }
  }

  lemma TickGone(w: Wheel, id: nat)
    requires Valid(w) && Holds(w, id, Gone)
    ensures Holds(Tick(w), id, Gone)
  {
    NextSlot(w);
    hide Ids, Again, DistinctIds, Due, Next;
    var here, next := w.slots[w.current], Next(w);
    AgainIds(here);
    IdsAppend(w.slots[next], Again(here));
    EmptySlot();
  }

  lemma TickApproaches(w: Wheel, id: nat, f: Fate)
    requires Valid(w) && Holds(w, id, f) && f.Waiting? && f.off > 0
    ensures Holds(Tick(w), id, Waiting(f.off - 1, f.rem, f.indexed))
  {
    AheadAfterTick(w, f.off);
    TimerHasId(w.slots[Ahead(w, f.off)], Timer(id, f.rem));
    NextSlot(w);
    hide Ids, Again, DistinctIds, Due, Next, Ahead;
  }

  lemma TickVisits(w: Wheel, id: nat, f: Fate)
    requires Valid(w) && Holds(w, id, f) && f.Waiting? && f.off == 0
    ensures Holds(Tick(w), id, if f.rem > 0 then Waiting(0, f.rem - 1, false) else Gone)
  {
    var here, next := w.slots[w.current], Next(w);
    AheadAfterTick(w, 0);
    TimerHasId(here, Timer(id, f.rem));
    NextSlot(w);
    hide Ids, Again, DistinctIds, Due, Next;
    if f.rem > 0 {
      AgainMember(here, Timer(id, f.rem - 1));
    } else {
      NotAgain(here, id);
      IdsAppend(w.slots[next], Again(here));
      EmptySlot();
    }
  }

  lemma NotAgain(l: seq<Timer>, id: nat)
    requires DistinctIds(l) && Timer(id, 0) in l
    ensures id !in Ids(Again(l))
  {
    if id in Ids(Again(l)) {
      var i :| 0 <= i < |Again(l)| && Again(l)[i].id == id;
      var x := Again(l)[i];
      AgainMember(l, x);
      SameTimer(l, Timer(id, 0), Timer(id, x.remaining + 1));
    }
  }

  /** A tick fires a timer exactly when it waits in the current slot with no rounds to go. */
  lemma TickFires(w: Wheel, id: nat, f: Fate)
    requires Valid(w) && Holds(w, id, f)
    ensures id in Due(w.slots[w.current]) <==> f.Waiting? && f.off == 0 && f.rem == 0
  {
    hide Ids, Due;
    var here := w.slots[w.current];
    DueSpec(here);
    if Timer(id, 0) in here {
      TimerHasId(here, Timer(id, 0));
      if f.Waiting? {
        AheadAfterTick(w, f.off);
        TimerHasId(w.slots[Ahead(w, f.off)], Timer(id, f.rem));
        if f.off == 0 {
          SameTimer(here, Timer(id, 0), Timer(id, f.rem));
        }
      }
    }
  }

  lemma StepHolds(w: Wheel, op: Op, id: nat, f: Fate)
    requires Valid(w) && Holds(w, id, f)
    ensures Valid(Apply(w, op)) && Holds(Apply(w, op), id, Live(f, id, op))
  {
    hide Valid, Holds, Ids;
    match op
    case OpAdd(t) => AddKeepsValid(w, t); AddHolds(w, t, id, f);
    case OpCancel(x) => CancelKeepsValid(w, x); CancelHolds(w, x, id, f);
    case OpTick => TickKeepsValid(w); TickHolds(w, id, f);
  }

  /* ---- whole runs ---- */

  function ApplyAll(w: Wheel, ops: seq<Op>): (r: Wheel)
    requires w.current < |w.slots|
    ensures r.current < |r.slots|
    decreases |ops|
  {
    if ops == [] then w else ApplyAll(Apply(w, ops[0]), ops[1..])
  }

  function TickCount(ops: seq<Op>): nat {
    if ops == [] then 0 else (if ops[0].OpTick? then 1 else 0) + TickCount(ops[1..])
  }

  /** Ticks before the first attempt to cancel the timer. */
  function TicksBeforeCancel(ops: seq<Op>, id: nat): nat {
    if ops == [] || ops[0] == OpCancel(id) then 0
    else (if ops[0].OpTick? then 1 else 0) + TicksBeforeCancel(ops[1..], id)
  }

  /** On which tick of the run, counted from zero, a timer's own life fires it. */
  function FiringTick(f: Fate, id: nat, ops: seq<Op>): Option<nat>
    decreases |ops|
  {
    if ops == [] || f.Gone? then None
    else if ops[0].OpTick? && f.off == 0 && f.rem == 0 then Some(0)
    else match FiringTick(Live(f, id, ops[0]), id, ops[1..])
      case None => None
      case Some(k) => Some(k + if ops[0].OpTick? then 1 else 0)
  }

  /** When a life fires: once its countdown has run out, unless it is cancelled while it is still
      in the index, that is, before its slot is first reached. */
  lemma {:induction false} FiringTickClosed(f: Fate, id: nat, ops: seq<Op>)
    requires f.Waiting?
    ensures FiringTick(f, id, ops) ==
            if (f.indexed && OpCancel(id) in ops && TicksBeforeCancel(ops, id) <= f.off) ||
              TickCount(ops) < Countdown(f)
            then None
            else Some(Countdown(f) - 1)
    decreases |ops|
  {
    if ops != [] {
      var op, rest := ops[0], ops[1..];
      assert ops == [op] + rest;
      var f' := Live(f, id, op);
      if f'.Waiting? {
        FiringTickClosed(f', id, rest);
        NoCancelNoStop(rest, id);
      } else {
        assert FiringTick(f', id, rest) == None;
      }
    }
  }

  lemma {:induction false} NoCancelNoStop(ops: seq<Op>, id: nat)
    ensures TicksBeforeCancel(ops, id) <= TickCount(ops)
    decreases |ops|
  {
    if ops != [] {
      NoCancelNoStop(ops[1..], id);
    }
  }

  lemma {:induction false} LogGrows(w: Wheel, ops: seq<Op>)
    requires w.current < |w.slots|
    ensures |ApplyAll(w, ops).fired| == |w.fired| + TickCount(ops) && w.fired <= ApplyAll(w, ops).fired
    decreases |ops|
  {
    hide Add, Cancel, Due, Again, Next;
    if ops != [] {
      AddAndCancelDoNotFire(w, ops[0]);
      LogGrows(Apply(w, ops[0]), ops[1..]);
    }
  }

  lemma AddAndCancelDoNotFire(w: Wheel, op: Op)
    requires w.current < |w.slots|
    ensures Apply(w, op).current < |Apply(w, op).slots|
    ensures Apply(w, op).fired == w.fired + if op.OpTick? then [Due(w.slots[w.current])] else []
  {}

  /** The wheel's log agrees with the timer's own life, tick by tick. */
  lemma {:induction false} LogFollowsLife(w: Wheel, id: nat, f: Fate, ops: seq<Op>, k: nat)
    requires Valid(w) && Holds(w, id, f) && k < TickCount(ops)
    ensures var r := ApplyAll(w, ops);
            && |r.fired| == |w.fired| + TickCount(ops)
            && (id in r.fired[|w.fired| + k] <==> FiringTick(f, id, ops) == Some(k))
            && Distinct(r.fired[|w.fired| + k])
    decreases |ops|
  {
    LogGrows(w, ops);
    AddAndCancelDoNotFire(w, ops[0]);
    hide Valid, Holds, Due, Apply, Distinct;
    var op, rest := ops[0], ops[1..];
    var w', f' := Apply(w, op), Live(f, id, op);
    StepHolds(w, op, id, f);
    LogGrows(w', rest);
    FiringTickInRange(f', id, rest);
    if !op.OpTick? {
      LogFollowsLife(w', id, f', rest, k);
    } else if k > 0 {
      LogFollowsLife(w', id, f', rest, k - 1);
    } else {
      TickFires(w, id, f);
      DueDistinct(w);
      assert ApplyAll(w, ops).fired[|w.fired|] == w'.fired[|w.fired|] == Due(w.slots[w.current]);
    }
  }

  lemma DueDistinct(w: Wheel)
    requires Valid(w)
    ensures Distinct(Due(w.slots[w.current]))
  {
    DueSpec(w.slots[w.current]);
  }

  lemma {:induction false} FiringTickInRange(f: Fate, id: nat, ops: seq<Op>)
    ensures FiringTick(f, id, ops).Some? ==> f.Waiting? && FiringTick(f, id, ops).value < TickCount(ops)
    decreases |ops|
  {
    if ops != [] && f.Waiting? {
      FiringTickInRange(Live(f, id, ops[0]), id, ops[1..]);
    }
  }

  /** Timer wheel timing, for every timer and every interleaving of other operations. A timer of
      `t` ticks on a wheel of `n >= 2` slots fires on tick number `t mod n + t div n` after it was
      added (counting from zero), once, and on no other, if the run has that many ticks; unless a
      cancellation came within the first `t mod n` ticks, in which case it never fires. */
  lemma TimerFires(w: Wheel, t: nat, ops: seq<Op>, k: nat)
    requires Valid(w) && k < TickCount(ops)
    ensures var n, id := |w.slots|, w.lastID + 1;
            var r := ApplyAll(Add(w, t), ops);
            && |r.fired| == |w.fired| + TickCount(ops)
            && (id in r.fired[|w.fired| + k] <==>
                  k == t % n + t / n && !(OpCancel(id) in ops && TicksBeforeCancel(ops, id) <= t % n))
            && Distinct(r.fired[|w.fired| + k])
  {
    assert w.current < |w.slots|;
    hide *;
    AddsTimer(w, t);
    FiledParts(t, |w.slots|);
    FiresFrom(Add(w, t), w.lastID + 1, Filed(t, |w.slots|), ops, k);
  }

  lemma AddsTimer(w: Wheel, t: nat)
    requires Valid(w)
    ensures Valid(Add(w, t)) && Add(w, t).fired == w.fired
    ensures Holds(Add(w, t), w.lastID + 1, Filed(t, |w.slots|))
  {
    hide Holds, Filed;
    AddKeepsValid(w, t);
    AddStarts(w, t);
  }

  lemma FiledParts(t: nat, n: nat)
    requires n > 0
    ensures var f := Filed(t, n); f.Waiting? && f.off == t % n && f.rem == t / n && f.indexed
  {
  }

  lemma FiresFrom(w: Wheel, id: nat, f: Fate, ops: seq<Op>, k: nat)
    requires Valid(w) && f.Waiting? && f.indexed && Holds(w, id, f) && k < TickCount(ops)
    ensures var r := ApplyAll(w, ops);
            && |r.fired| == |w.fired| + TickCount(ops)
            && (id in r.fired[|w.fired| + k] <==>
                  k == f.off + f.rem && !(OpCancel(id) in ops && TicksBeforeCancel(ops, id) <= f.off))
            && Distinct(r.fired[|w.fired| + k])
  {
    LogFollowsLife(w, id, f, ops, k);
    FiringTickClosed(f, id, ops);
    hide Valid, Holds, Distinct, ApplyAll, FiringTick;
  }

  /** The firing tick is the requested one exactly for timers shorter than one rotation. */
  lemma OnTimeIffShort(t: nat, n: nat)
    requires n >= 2
    ensures t % n + t / n == t <==> t < n
  {
    var q, r := t / n, t % n;
    if t < n {
      DivUnique(t, n, 0, t);
    } else {
      TwiceAtMost(n, q);
    }
  }

  lemma {:induction false} TwiceAtMost(n: nat, q: nat)
    requires n >= 2
    ensures 2 * q <= n * q
    decreases q
  {
    if q > 0 {
      TwiceAtMost(n, q - 1);
      assert n * q == n * (q - 1) + n;
    }
  }

  lemma {:induction false} ShortLife(off: nat, id: nat, ops: seq<Op>)
    ensures LiveAll(Waiting(off, 0, true), id, ops) ==
            if TickCount(ops) <= off && OpCancel(id) !in ops then Waiting(off - TickCount(ops), 0, true) else Gone
    decreases |ops|
  {
    if ops != [] {
      assert ops == [ops[0]] + ops[1..];
      var f := Live(Waiting(off, 0, true), id, ops[0]);
      if f.Gone? {
        GoneForever(id, ops[1..]);
      } else {
        ShortLife(f.off, id, ops[1..]);
      }
    }
  }

  lemma {:induction false} GoneForever(id: nat, ops: seq<Op>)
    ensures LiveAll(Gone, id, ops) == Gone
    decreases |ops|
  {
    if ops != [] {
      GoneForever(id, ops[1..]);
    }
  }

  /** A timer shorter than one rotation can be cancelled exactly as long as it has neither fired
      nor been cancelled: it is in the index, which is when `Cancel` reports success. */
  lemma ShortTimerCancellable(w: Wheel, t: nat, ops: seq<Op>)
    requires Valid(w) && t < |w.slots|
    ensures w.lastID + 1 in ApplyAll(Add(w, t), ops).index <==> TickCount(ops) <= t && OpCancel(w.lastID + 1) !in ops
  {
    var id := w.lastID + 1;
    DivUnique(t, |w.slots|, 0, t);
    AddsTimer(w, t);
    hide Add, Valid;
    RunHolds(Add(w, t), id, Waiting(t, 0, true), ops);
    ShortLife(t, id, ops);
  }

  function LiveAll(f: Fate, id: nat, ops: seq<Op>): Fate
    decreases |ops|
  {
    if ops == [] then f else LiveAll(Live(f, id, ops[0]), id, ops[1..])
  }

  lemma {:induction false} RunHolds(w: Wheel, id: nat, f: Fate, ops: seq<Op>)
    requires Valid(w) && Holds(w, id, f)
    ensures Valid(ApplyAll(w, ops)) && Holds(ApplyAll(w, ops), id, LiveAll(f, id, ops))
    decreases |ops|
  {
    if ops != [] {
      StepHolds(w, ops[0], id, f);
      AddAndCancelDoNotFire(w, ops[0]);
      hide Valid, Holds, Apply;
      RunHolds(Apply(w, ops[0]), id, Live(f, id, ops[0]), ops[1..]);
    }
  }

  /** The wheel object: slot lists, an id index and the current slot. */
  class TimingWheel {
    const tick: nat
    var slots: seq<seq<Timer>>
    var current: nat
    var index: map<nat, nat>
    var lastID: nat
    var fired: seq<seq<nat>>

    constructor (tick: nat, slotCount: nat)
      requires tick > 0 && slotCount >= 2
      ensures View() == Fresh(slotCount) && this.tick == tick && Valid(View())
    {
      this.tick := tick;
      slots := seq(slotCount, i => []);
      current, index, lastID, fired := 0, map[], 0, [];
    }

    ghost function View(): Wheel
      reads this
    {
      Wheel.Wheel(current, slots, index, lastID, fired)
    }

    /** `Add`; the delay, which may be negative, and the tick are durations in the same unit. */
    method AddTimer(d: int) returns (id: nat)
      requires Valid(View()) && tick > 0
      modifies this
      ensures View() == Add(old(View()), Ticks(d, tick)) && id == lastID
      ensures Valid(View())
    {
      AddKeepsValid(View(), Ticks(d, tick));
      hide Advance;
      id := lastID + 1;
      var ticks := Ticks(d, tick);
      var slot := Advance(current, ticks, |slots|);
      slots := slots[slot := slots[slot] + [Timer(id, ticks / |slots|)]];
      index := index[id := slot];
      lastID := id;
    }

    /** `Cancel` succeeds exactly for the timers in the index. */
    method CancelTimer(id: nat) returns (ok: bool)
      requires Valid(View())
      modifies this
      ensures ok == (id in old(index)) && View() == Cancel(old(View()), id)
      ensures Valid(View())
    {
      CancelKeepsValid(View(), id);
      ok := id in index;
      if ok {
        var slot := index[id];
        slots := slots[slot := Without(slots[slot], id)];
        index := index - {id};
      }
    }

    /** `tickOnce`: the current slot is emptied, its timers fired or moved to the next slot. */
    method TickOnce() returns (fire: seq<nat>)
      requires Valid(View())
      modifies this
      ensures View() == Tick(old(View())) && fire == Due(old(slots[current]))
      ensures Valid(View())
    {
      TickKeepsValid(View());
      hide Advance, Due, Again, Ids;
      var target := Advance(current, 1, |slots|);
      var moved, gone;
      fire, moved, gone := Drain(slots[current]);
      slots := slots[current := []];
      slots := slots[target := slots[target] + moved];
      index := index - gone;
      current := target;
      fired := fired + [fire];
    }
  }

  /** The loop over the entries of a slot. */
  method Drain(l: seq<Timer>) returns (fire: seq<nat>, moved: seq<Timer>, gone: set<nat>)
    ensures fire == Due(l) && moved == Again(l) && gone == Ids(l)
  {
    hide Due, Again, Ids;
    fire, moved, gone := [], [], {};
    NothingDue();
    EmptySlot();
    for i := 0 to |l|
      invariant fire == Due(l[..i]) && moved == Again(l[..i]) && gone == Ids(l[..i])
    {
      SplitLast(l[..i], l[i]);
      assert l[..i + 1] == l[..i] + [l[i]];
      if l[i].remaining > 0 {
        moved := moved + [Timer(l[i].id, l[i].remaining - 1)];
      } else {
        fire := fire + [l[i].id];
      }
      gone := gone + {l[i].id};
    }
    assert l[..|l|] == l;
  }

  lemma NothingDue()
    ensures Due([]) == [] && Again([]) == []
  {}

  lemma SplitLast(l: seq<Timer>, x: Timer)
    ensures Due(l + [x]) == Due(l) + (if x.remaining == 0 then [x.id] else [])
    ensures Again(l + [x]) == Again(l) + (if x.remaining > 0 then [Timer(x.id, x.remaining - 1)] else [])
    ensures Ids(l + [x]) == Ids(l) + {x.id}
  {
    hide Due, Again, Ids;
    DueLast(l, x);
    AgainLast(l, x);
    IdsAppend(l, [x]);
    IdsOne(x);
  }

  lemma {:induction false} DueLast(l: seq<Timer>, x: Timer)
    ensures Due(l + [x]) == Due(l) + (if x.remaining == 0 then [x.id] else [])
    decreases |l|
  {
    if l != [] {
      assert (l + [x])[1..] == l[1..] + [x];
      DueLast(l[1..], x);
    }
  }

  lemma {:induction false} AgainLast(l: seq<Timer>, x: Timer)
    ensures Again(l + [x]) == Again(l) + (if x.remaining > 0 then [Timer(x.id, x.remaining - 1)] else [])
    decreases |l|
  {
    if l != [] {
      assert (l + [x])[1..] == l[1..] + [x];
      AgainLast(l[1..], x);
    }
  }

  /* ---- delays ---- */

  /** A delay counts as its whole ticks, and as one tick if it has none. */
  lemma WholeTicks(d: int, tick: nat, k: nat)
    requires tick > 0 && if k <= 1 then k == 1 && d < tick + tick else k * tick <= d < k * tick + tick
    ensures Ticks(d, tick) == k
  {
    if k >= 2 {
      DivUnique(d, tick, k, d - k * tick);
    } else if d >= tick {
      DivUnique(d, tick, 1, d - tick);
    } else if d >= 0 {
      DivUnique(d, tick, 0, d);
    }
  }

  /** A timer added with a delay of `k` whole ticks fires as a timer of `k` ticks. */
  lemma DelayFires(w: Wheel, d: int, tick: nat, k: nat, ops: seq<Op>, j: nat)
    requires Valid(w) && j < TickCount(ops)
    requires tick > 0 && if k <= 1 then k == 1 && d < tick + tick else k * tick <= d < k * tick + tick
    ensures var n, id := |w.slots|, w.lastID + 1;
            var r := ApplyAll(Add(w, Ticks(d, tick)), ops);
            && |r.fired| == |w.fired| + TickCount(ops)
            && (id in r.fired[|w.fired| + j] <==>
                  j == k % n + k / n && !(OpCancel(id) in ops && TicksBeforeCancel(ops, id) <= k % n))
  {
    assert w.current < |w.slots|;
    hide *;
    WholeTicks(d, tick, k);
    TimerFires(w, k, ops, j);
  }
}
