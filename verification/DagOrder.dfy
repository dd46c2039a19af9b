/** Order inside a DAG layer is irrelevant, which is what makes layers parallelisable. */
module DagOrder {
  import opened Prelude
  import opened Json
  import opened Dag

  function SetOf(ids: seq<U16>): set<U16> {
    set id | id in ids
  }

  /** No node of the set has a parent in the set. */
  ghost predicate Independent(d: DagTable, ids: set<U16>) {
    forall id, p :: id in ids && p in Parents(d, id) ==> p !in ids
  }

  /** The states agree on what a node with these parents can see. */
  ghost predicate SameFor(ps: seq<U16>, a: DagState, b: DagState) {
    forall p :: p in ps ==>
      (p in a.failed <==> p in b.failed) && (p in a.results <==> p in b.results) &&
      (p in a.results ==> a.results[p] == b.results[p])
  }

  lemma {:induction false} MergeParentsLocal(h: DagHost, v: Json, ps: seq<U16>, a: DagState, b: DagState)
    requires SameFor(ps, a, b)
    ensures MergeParents(h, v, ps, a.results) == MergeParents(h, v, ps, b.results)
    decreases |ps|
  {
    hide DeepMerge;
    if ps != [] {
      MergeParentsLocal(h, v, ps[..|ps| - 1], a, b);
    }
  }

  /** A node's fate depends on its parents only. */
  lemma JudgeLocal(d: DagTable, h: DagHost, body: Body, a: DagState, b: DagState, id: U16)
    requires SameFor(Parents(d, id), a, b)
    ensures Judge(d, h, body, a, id) == Judge(d, h, body, b, id)
  {
    hide DeepMerge, MergeParents;
    var ps := Parents(d, id);
    if h.parse(body).Some? {
      MergeParentsLocal(h, h.parse(body).value, ps, a, b);
    }
    assert AnyIn(ps, a.failed) == AnyIn(ps, b.failed);
  }

  function Answers(d: DagTable, h: DagHost, body: Body, st: DagState, ids: set<U16>): map<U16, Body> {
    map id | id in ids && Answered(Judge(d, h, body, st, id)) :: Judge(d, h, body, st, id).reply.body
  }

  function Failures(d: DagTable, h: DagHost, body: Body, st: DagState, ids: set<U16>): set<U16> {
    set id | id in ids && Fails(Judge(d, h, body, st, id))
  }

  predicate Answered(v: Verdict) {
    v.Asked? && v.reply.Ok?
  }

  predicate Fails(v: Verdict) {
    v.Skip? || (v.Asked? && v.reply.Fault?)
  }

  /** The verdict ends the run. */
  predicate Aborts(d: DagTable, v: Verdict) {
    v.BadBody? || (d.policy.AbortAll? && v.Asked? && v.reply.Fault?)
  }

  /** What visiting a set of independent nodes does, as a function of the set. */
  ghost predicate LayerDone(d: DagTable, h: DagHost, body: Body, st: DagState, ids: set<U16>, end: DagState) {
    && end.results == st.results + Answers(d, h, body, st, ids)
    && end.failed == st.failed + Failures(d, h, body, st, ids)
  }

  /** Visiting other nodes of the layer leaves a node's parents as they were. */
  lemma ParentsUntouched(d: DagTable, h: DagHost, body: Body, st: DagState, ids: set<U16>, mid: DagState,
                         all: set<U16>, id: U16)
    requires Independent(d, all) && ids <= all && id in all && LayerDone(d, h, body, st, ids, mid)
    ensures Judge(d, h, body, mid, id) == Judge(d, h, body, st, id)
  {
    hide Judge, Parents;
    assert SameFor(Parents(d, id), mid, st) by {
      forall p | p in Parents(d, id) ensures p !in all {
      }
    }
    JudgeLocal(d, h, body, mid, st, id);
  }

  /** Visiting independent nodes in any order, repetitions included, has the effect of the set. */
  lemma {:induction false} LayerBySet(d: DagTable, h: DagHost, body: Body, st: DagState, ids: seq<U16>, all: set<U16>)
    requires Independent(d, all) && forall id :: id in ids ==> id in all
    ensures var r := VisitAll(d, h, body, st, ids);
            && (r.Aborted? <==> exists id :: id in ids && Aborts(d, Judge(d, h, body, st, id)))
            && (r.Going? ==> LayerDone(d, h, body, st, SetOf(ids), r.st))
    decreases |ids|
  {
    hide Judge, Visit, LayerDone, Independent, Aborts;
    if ids == [] {
      NobodyVisited(d, h, body, st);
      assert SetOf(ids) == {};
    } else {
      var init, last := ids[..|ids| - 1], ids[|ids| - 1];
      LayerBySet(d, h, body, st, init, all);
      assert forall id :: id in ids <==> id in init || id == last;
      assert SetOf(ids) == SetOf(init) + {last};
      var r := VisitAll(d, h, body, st, init);
      if r.Going? {
        ParentsUntouched(d, h, body, st, SetOf(init), r.st, all, last);
        OneMore(d, h, body, st, SetOf(init), last, r.st);
      }
    }
  }

  lemma NobodyVisited(d: DagTable, h: DagHost, body: Body, st: DagState)
    ensures LayerDone(d, h, body, st, {}, st)
  {
    assert st.results + Answers(d, h, body, st, {}) == st.results;
  }

  lemma OneMore(d: DagTable, h: DagHost, body: Body, st: DagState, ids: set<U16>, id: U16, mid: DagState)
    requires LayerDone(d, h, body, st, ids, mid)
    requires Judge(d, h, body, mid, id) == Judge(d, h, body, st, id)
    ensures var r := Visit(d, h, body, mid, id);
            && (r.Aborted? <==> Aborts(d, Judge(d, h, body, st, id)))
            && (r.Going? ==> LayerDone(d, h, body, st, ids + {id}, r.st))
  {
    hide Judge;
    AnswersMore(d, h, body, st, ids, id);
    FailuresMore(d, h, body, st, ids, id);
    hide Answers, Failures;
    var v := Judge(d, h, body, st, id);
    if Answered(v) {
      var before := Answers(d, h, body, st, ids);
      assert st.results + before[id := v.reply.body] == (st.results + before)[id := v.reply.body];
    }
  }

  lemma AnswersMore(d: DagTable, h: DagHost, body: Body, st: DagState, ids: set<U16>, id: U16)
    ensures var v, before := Judge(d, h, body, st, id), Answers(d, h, body, st, ids);
            Answers(d, h, body, st, ids + {id}) == if Answered(v) then before[id := v.reply.body] else before
  {
    hide Judge;
  }

  lemma FailuresMore(d: DagTable, h: DagHost, body: Body, st: DagState, ids: set<U16>, id: U16)
    ensures var before := Failures(d, h, body, st, ids);
            Failures(d, h, body, st, ids + {id}) == if Fails(Judge(d, h, body, st, id)) then before + {id} else before
  {
    hide Judge;
  }

  ghost predicate SameLayers(a: seq<seq<U16>>, b: seq<seq<U16>>) {
    |a| == |b| && forall l, id :: 0 <= l < |a| ==> (id in a[l] <==> id in b[l])
  }

  ghost predicate IndependentLayers(d: DagTable, layers: seq<seq<U16>>) {
    forall l :: 0 <= l < |layers| ==> Independent(d, SetOf(layers[l]))
  }

  ghost predicate SameOutcome(a: DagRun, b: DagRun) {
    (a.Aborted? && b.Aborted?) ||
    (a.Going? && b.Going? && a.st.results == b.st.results && a.st.failed == b.st.failed)
  }

  lemma JudgeSame(d: DagTable, h: DagHost, body: Body, a: DagState, b: DagState)
    requires a.results == b.results && a.failed == b.failed
    ensures forall id :: Judge(d, h, body, a, id) == Judge(d, h, body, b, id)
  {
    forall id ensures Judge(d, h, body, a, id) == Judge(d, h, body, b, id) {
      JudgeLocal(d, h, body, a, b, id);
    }
  }

  lemma {:induction false} SameAfterLayers(d: DagTable, h: DagHost, body: Body, a: seq<seq<U16>>, b: seq<seq<U16>>)
    requires SameLayers(a, b) && IndependentLayers(d, a)
    ensures SameOutcome(RunLayers(d, h, body, a), RunLayers(d, h, body, b))
    decreases |a|
  {
    hide Judge, VisitAll;
    if a != [] {
      var n := |a| - 1;
      SameAfterLayers(d, h, body, a[..n], b[..n]);
      var x, y := RunLayers(d, h, body, a[..n]), RunLayers(d, h, body, b[..n]);
      if x.Going? {
        var all := SetOf(a[n]);
        assert all == SetOf(b[n]);
        JudgeSame(d, h, body, x.st, y.st);
        assert Answers(d, h, body, x.st, all) == Answers(d, h, body, y.st, all);
        assert Failures(d, h, body, x.st, all) == Failures(d, h, body, y.st, all);
        hide Answers, Failures;
        LayerBySet(d, h, body, x.st, a[n], all);
        LayerBySet(d, h, body, y.st, b[n], all);
      }
    }
  }

  /** The merged output is a function of the results and the failed set alone. */
  lemma {:induction false} MergeLocal(h: DagHost, ts: seq<U16>, a: DagState, b: DagState)
    requires a.results == b.results && a.failed == b.failed
    ensures Items(h, ts, a) == Items(h, ts, b) && Pieces(h, ts, a) == Pieces(h, ts, b)
    ensures Merged(h, ts, a) == Merged(h, ts, b) && Keyed(h, ts, a) == Keyed(h, ts, b)
    decreases |ts|
  {
    hide DeepMerge;
    if ts != [] {
      MergeLocal(h, ts[..|ts| - 1], a, b);
    }
  }

  /** Order inside a layer is irrelevant: two tables that differ only in how they order (or
      repeat) the nodes of each layer end with the same results and the same failed set and
      merge to the same output, or both abort. */
  lemma LayerOrderIrrelevant(d: DagTable, h: DagHost, body: Body, layers: seq<seq<U16>>)
    requires IndependentLayers(d, d.layers) && SameLayers(d.layers, layers)
    ensures var d' := d.(layers := layers);
            && SameOutcome(RunLayers(d, h, body, d.layers), RunLayers(d', h, body, layers))
            && (ExecDag(d, h, body) == ExecDag(d', h, body) ||
              (ExecDag(d, h, body).Fail? && ExecDag(d', h, body).Fail?))
  {
    hide Judge, VisitAll, RunLayers, Items, Merged, Keyed, Pieces;
    var d' := d.(layers := layers);
    SameAfterLayers(d, h, body, d.layers, layers);
    LayersIgnored(d, h, body, layers, layers);
    var x, y := RunLayers(d, h, body, d.layers), RunLayers(d', h, body, layers);
    if x.Going? {
      MergeLocal(h, d.terminals, x.st, y.st);
    }
  }

  /** Visiting looks at the nodes of the table, not at its own list of layers. */
  lemma {:induction false} LayersIgnored(d: DagTable, h: DagHost, body: Body, other: seq<seq<U16>>, ls: seq<seq<U16>>)
    ensures RunLayers(d.(layers := other), h, body, ls) == RunLayers(d, h, body, ls)
    decreases |ls|
  {
    if ls != [] {
      LayersIgnored(d, h, body, other, ls[..|ls| - 1]);
      var r := RunLayers(d, h, body, ls[..|ls| - 1]);
      if r.Going? {
        VisitIgnoresLayers(d, h, body, other, r.st, ls[|ls| - 1]);
      }
    }
  }

  lemma {:induction false} VisitIgnoresLayers(d: DagTable, h: DagHost, body: Body, other: seq<seq<U16>>,
                                              st: DagState, ids: seq<U16>)
    ensures VisitAll(d.(layers := other), h, body, st, ids) == VisitAll(d, h, body, st, ids)
    decreases |ids|
  {
    if ids != [] {
      VisitIgnoresLayers(d, h, body, other, st, ids[..|ids| - 1]);
    }
  }

  /** Independence is needed, in every table and state: when a node's parent fails and the node
      itself would be answered, the order of the two decides whether the node is asked. */
  lemma DependentOrderMatters(d: DagTable, h: DagHost, body: Body, st: DagState, p: U16, id: U16)
    requires d.policy.SkipDependents? && p != id && p in Parents(d, id) && id !in Parents(d, p) && id !in st.failed
    requires var v := Judge(d, h, body, st, p); v.Asked? && v.reply.Fault?
    requires Answered(Judge(d, h, body, st, id))
    ensures !SameOutcome(VisitAll(d, h, body, st, [p, id]), VisitAll(d, h, body, st, [id, p]))
  {
    hide Input, Find;
    VisitPair(d, h, body, st, p, id);
    VisitPair(d, h, body, st, id, p);
    var x, y := Visit(d, h, body, st, p).st, Visit(d, h, body, st, id).st;
    assert AnyIn(Parents(d, id), x.failed);
    assert Judge(d, h, body, x, id) == Skip;
    JudgeLocal(d, h, body, y, st, p);
  }

  lemma VisitPair(d: DagTable, h: DagHost, body: Body, st: DagState, a: U16, b: U16)
    ensures VisitAll(d, h, body, st, [a, b]) ==
            match Visit(d, h, body, st, a) case Going(s) => Visit(d, h, body, s, b) case stop => stop
  {
    hide Visit;
    assert [a, b][..1] == [a] && [a][..0] == [];
    assert VisitAll(d, h, body, st, []) == Going(st);
    assert VisitAll(d, h, body, st, [a]) == Visit(d, h, body, st, a);
  }

  /* ---- exactly which pairs can be reordered ---- */

  /** Two nodes that are not each other's parents have the same verdicts in either order. */
  lemma UnrelatedPair(d: DagTable, h: DagHost, body: Body, st: DagState, p: U16, id: U16)
    requires p != id && p !in Parents(d, id) && id !in Parents(d, p)
    ensures SameOutcome(VisitAll(d, h, body, st, [p, id]), VisitAll(d, h, body, st, [id, p]))
  {
    hide Judge, Parents, VisitAll, Record, SameOutcome;
    VisitPair(d, h, body, st, p, id);
    VisitPair(d, h, body, st, id, p);
    VerdictUnmoved(d, h, body, st, p, id);
    VerdictUnmoved(d, h, body, st, id, p);
    RecordsCommute(d, st, p, Judge(d, h, body, st, p), id, Judge(d, h, body, st, id));
  }

  lemma RecordsCommute(d: DagTable, st: DagState, p: U16, v: Verdict, id: U16, u: Verdict)
    requires p != id
    ensures var a, b := Record(d, st, p, v), Record(d, st, id, u);
            SameOutcome(if a.Going? then Record(d, a.st, id, u) else a, if b.Going? then Record(d, b.st, p, v) else b)
  {
  }

  lemma VerdictUnmoved(d: DagTable, h: DagHost, body: Body, st: DagState, p: U16, id: U16)
    requires p != id && p !in Parents(d, id)
    ensures var r := Visit(d, h, body, st, p); r.Going? ==> Judge(d, h, body, r.st, id) == Judge(d, h, body, st, id)
  {
    var r := Visit(d, h, body, st, p);
    if r.Going? {
      assert SameFor(Parents(d, id), r.st, st) by { hide Judge, Parents; }
      JudgeLocal(d, h, body, r.st, st, id);
    }
  }

  /** A host that shows whether the result of `p` went into an input: `p` answers with a mark, parsing
      turns a mark into a string, and the others answer with their input. */
  function Probe(p: U16): DagHost {
    DagHost((x: U16, b: Body, t: nat) => if x == p then Ok([1]) else Ok(b),
            (b: Body) => if b == [1] then Some(Str("mark")) else Some(Null),
            (j: Json) => if j == Null then [0] else [2],
            (x: U16) => "", (x: U16) => "", (b: Body) => "", (t: string) => [])
  }

  lemma {:induction false} ProbeMerges(p: U16, ps: seq<U16>, results: map<U16, Body>)
    requires results == map[] || results == map[p := [1]]
    ensures MergeParents(Probe(p), Null, ps, results) == if p in ps && p in results then Str("mark") else Null
    decreases |ps|
  {
    if ps != [] {
      var n := |ps| - 1;
      ProbeMerges(p, ps[..n], results);
      assert ps == ps[..n] + [ps[n]];
    }
  }

  /** The probe answers every known node as long as nothing failed. */
  lemma ProbeVisit(d: DagTable, p: U16, st: DagState, x: U16)
    requires Find(d.nodes, x) < |d.nodes| && st.failed == {}
    ensures var r, input := Visit(d, Probe(p), [], st, x), Input(Probe(p), Parents(d, x), [], st.results);
            && input.Some? && r.Going? && r.st.failed == {}
            && r.st.results == st.results[x := if x == p then [1] else input.value]
  {
    hide Find, MergeParents;
  }

  lemma ProbeInput(p: U16, ps: seq<U16>, results: map<U16, Body>)
    requires p in ps && (results == map[] || results == map[p := [1]])
    ensures Input(Probe(p), ps, [], results) == Some(if p in results then [2] else [0])
  {
    ProbeMerges(p, ps, results);
    hide MergeParents;
  }

  /** With the probe, a node's answer shows whether it came before or after its parent. */
  lemma DependentPair(d: DagTable, p: U16, id: U16)
    requires p != id && p in Parents(d, id) && Find(d.nodes, p) < |d.nodes|
    ensures !SameOutcome(VisitAll(d, Probe(p), [], Start, [p, id]), VisitAll(d, Probe(p), [], Start, [id, p]))
  {
    assert Find(d.nodes, id) < |d.nodes|;
    hide Visit, VisitAll, Parents, Input, Find;
    var h, ps := Probe(p), Parents(d, id);
    VisitPair(d, h, [], Start, p, id);
    VisitPair(d, h, [], Start, id, p);
    ProbeVisit(d, p, Start, p);
    ProbeVisit(d, p, Visit(d, h, [], Start, p).st, id);
    ProbeInput(p, ps, map[p := [1]]);
    ProbeVisit(d, p, Start, id);
    ProbeInput(p, ps, map[]);
    ProbeVisit(d, p, Visit(d, h, [], Start, id).st, p);
    var x, y := VisitAll(d, h, [], Start, [p, id]), VisitAll(d, h, [], Start, [id, p]);
    assert x.st.results[id] == [2] && y.st.results[id] == [0];
  }

  /** Under every policy, two known nodes can be visited in either order, whatever the host and the
      body, if and only if neither is a parent of the other. */
  lemma PairOrderIff(d: DagTable, p: U16, id: U16)
    requires p != id && Find(d.nodes, p) < |d.nodes| && Find(d.nodes, id) < |d.nodes|
    ensures (forall h, body :: SameOutcome(VisitAll(d, h, body, Start, [p, id]), VisitAll(d, h, body, Start, [id, p])))
            <==> p !in Parents(d, id) && id !in Parents(d, p)
  {
    hide SameOutcome, VisitAll, Parents, Find;
    if p in Parents(d, id) {
      DependentPair(d, p, id);
    } else if id in Parents(d, p) {
      DependentPair(d, id, p);
      OutcomeSymmetric(VisitAll(d, Probe(id), [], Start, [p, id]), VisitAll(d, Probe(id), [], Start, [id, p]));
    } else {
      forall h, body ensures SameOutcome(VisitAll(d, h, body, Start, [p, id]), VisitAll(d, h, body, Start, [id, p])) {
        UnrelatedPair(d, h, body, Start, p, id);
      }
    }
  }

  lemma OutcomeSymmetric(a: DagRun, b: DagRun)
    ensures SameOutcome(a, b) <==> SameOutcome(b, a)
  {
  }
}
