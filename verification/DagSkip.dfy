/** The SkipDependents policy is exact. */
module DagSkip {
  import opened Prelude
  import opened Dag
  import DagOrder

  function Flat(layers: seq<seq<U16>>): seq<U16> {
    if layers == [] then [] else Flat(layers[..|layers| - 1]) + layers[|layers| - 1]
  }

  /** Every node comes once, after all its parents. */
  ghost predicate Topological(d: DagTable, ids: seq<U16>) {
    && Distinct(ids)
    && forall k :: 0 <= k < |ids| ==>
         Find(d.nodes, ids[k]) < |d.nodes| && forall p :: p in Parents(d, ids[k]) ==> p in ids[..k]
  }

  /** No id is listed twice, every listed id is a node, and every parent of a node is listed in
      an earlier layer. */
  ghost predicate WellLayered(d: DagTable, layers: seq<seq<U16>>) {
    && Distinct(Flat(layers))
    && forall l, id :: 0 <= l < |layers| && id in layers[l] ==>
         Find(d.nodes, id) < |d.nodes| && forall p :: p in Parents(d, id) ==> p in Flat(layers[..l])
  }

  lemma {:induction false} LayersAreTopological(d: DagTable, layers: seq<seq<U16>>)
    requires WellLayered(d, layers)
    ensures Topological(d, Flat(layers))
    decreases |layers|
  {
    hide Find, Parents;
    if layers != [] {
      var n := |layers| - 1;
      var init, last := Flat(layers[..n]), layers[n];
      var ids := Flat(layers);
      assert forall i :: 0 <= i < |init| ==> ids[i] == init[i];
      assert forall l :: 0 <= l < n ==> layers[..n][..l] == layers[..l];
      LayersAreTopological(d, layers[..n]);
      forall k | 0 <= k < |ids|
        ensures Find(d.nodes, ids[k]) < |d.nodes| && forall p :: p in Parents(d, ids[k]) ==> p in ids[..k]
      {
        if k < |init| {
          assert ids[..k] == init[..k];
        } else {
          assert ids[k] == last[k - |init|] && ids[k] in layers[n];
          assert ids[..k] == init + last[..k - |init|];
        }
      }
    }
  }

  lemma {:induction false} VisitConcat(d: DagTable, h: DagHost, body: Body, st: DagState, a: seq<U16>, b: seq<U16>)
    ensures VisitAll(d, h, body, st, a + b) ==
            match VisitAll(d, h, body, st, a) case Going(s) => VisitAll(d, h, body, s, b) case stop => stop
    decreases |b|
  {
    hide Visit;
    if b == [] {
      assert a + b == a;
    } else {
      assert (a + b)[..|a + b| - 1] == a + b[..|b| - 1];
      VisitConcat(d, h, body, st, a, b[..|b| - 1]);
    }
  }

  /** The nested loops visit the layers' nodes in sequence. */
  lemma {:induction false} LayersAreVisits(d: DagTable, h: DagHost, body: Body, layers: seq<seq<U16>>)
    ensures RunLayers(d, h, body, layers) == VisitAll(d, h, body, Start, Flat(layers))
    decreases |layers|
  {
    hide Visit;
    if layers != [] {
      var n := |layers| - 1;
      LayersAreVisits(d, h, body, layers[..n]);
      VisitConcat(d, h, body, Start, Flat(layers[..n]), layers[n]);
    }
  }

  predicate WasCalled(st: DagState, id: U16) {
    exists j :: 0 <= j < |st.calls| && st.calls[j].id == id
  }

  predicate CallFaulted(st: DagState, id: U16) {
    exists j :: 0 <= j < |st.calls| && st.calls[j].id == id && st.calls[j].reply.Fault?
  }

  /** What is known about a visited node. */
  ghost predicate Settled(d: DagTable, st: DagState, id: U16) {
    var blocked := AnyIn(Parents(d, id), st.failed);
    && (WasCalled(st, id) <==> !blocked)
    && (id in st.failed <==> blocked || CallFaulted(st, id))
  }

  /** The call log so far: nodes of `ids` only, each at most once, each after all its parents. */
  ghost predicate OrderlyCalls(d: DagTable, st: DagState, ids: seq<U16>) {
    && (forall j :: 0 <= j < |st.calls| ==> st.calls[j].id in ids)
    && (forall i, j :: 0 <= i < j < |st.calls| ==> st.calls[i].id != st.calls[j].id)
    && (forall j, p :: 0 <= j < |st.calls| && p in Parents(d, st.calls[j].id) ==>
          exists i :: 0 <= i < j && st.calls[i].id == p)
  }

  ghost predicate Progress(d: DagTable, st: DagState, ids: seq<U16>) {
    && OrderlyCalls(d, st, ids)
    && (forall id :: id in st.failed ==> id in ids)
    && (forall id :: id in ids ==> Settled(d, st, id))
  }

  /** One visit in a topological order keeps the books right. */
  lemma VisitKeepsProgress(d: DagTable, h: DagHost, body: Body, st: DagState, ids: seq<U16>, id: U16)
    requires d.policy.SkipDependents? && Progress(d, st, ids) && id !in ids
    requires Find(d.nodes, id) < |d.nodes| && forall p :: p in Parents(d, id) ==> p in ids
    requires forall x, p :: x in ids && p in Parents(d, x) ==> p in ids
    requires Visit(d, h, body, st, id).Going?
    ensures Progress(d, Visit(d, h, body, st, id).st, ids + [id])
  {
    var st' := Visit(d, h, body, st, id).st;
    var ps := Parents(d, id);
    var blocked := AnyIn(ps, st.failed);
    assert !WasCalled(st, id) && id !in st.failed;
    assert st'.calls == if blocked then st.calls else st.calls + [st'.calls[|st.calls|]] by { hide Find, Input; }
    assert !blocked ==> st'.calls[|st.calls|].id == id by { hide Find, Input; }
    assert st'.failed == if blocked || st'.calls[|st.calls|].reply.Fault? then st.failed + {id} else st.failed
      by { hide Find, Input; }
    hide Find, Parents, Visit, Judge, Record;
    CallsStayOrderly(d, st, st', ids, id, blocked);
    forall x | x in ids + [id] ensures Settled(d, st', x) {
      if x in ids {
        assert Settled(d, st, x);
        assert AnyIn(Parents(d, x), st'.failed) == AnyIn(Parents(d, x), st.failed);
        LogGrows(st, st', x, id);
      } else {
        assert AnyIn(ps, st'.failed) == blocked;
      }
    }
  }

  lemma LogGrows(st: DagState, st': DagState, x: U16, id: U16)
    requires x != id && st.calls <= st'.calls && |st'.calls| <= |st.calls| + 1
    requires |st.calls| < |st'.calls| ==> st'.calls[|st.calls|].id == id
    ensures WasCalled(st', x) == WasCalled(st, x) && CallFaulted(st', x) == CallFaulted(st, x)
  {
    assert forall j :: 0 <= j < |st.calls| ==> st'.calls[j] == st.calls[j];
  }

  lemma CallsStayOrderly(d: DagTable, st: DagState, st': DagState, ids: seq<U16>, id: U16, blocked: bool)
    requires Progress(d, st, ids) && id !in ids && blocked == AnyIn(Parents(d, id), st.failed)
    requires forall p :: p in Parents(d, id) ==> p in ids
    requires if blocked then st'.calls == st.calls
             else |st'.calls| == |st.calls| + 1 && st'.calls[..|st.calls|] == st.calls && st'.calls[|st.calls|].id == id
    ensures OrderlyCalls(d, st', ids + [id])
  {
    hide Find, Parents;
    if !blocked {
      var n := |st.calls|;
      assert forall j :: 0 <= j < n ==> st'.calls[j] == st.calls[j];
      forall p | p in Parents(d, id) ensures exists i :: 0 <= i < n && st'.calls[i].id == p {
        assert Settled(d, st, p);
        assert p !in st.failed;
        assert WasCalled(st, p);
        var i :| 0 <= i < n && st.calls[i].id == p;
        assert st'.calls[i].id == p;
      }
      forall j, p | 0 <= j < |st'.calls| && p in Parents(d, st'.calls[j].id)
        ensures exists i :: 0 <= i < j && st'.calls[i].id == p
      {
        if j < n {
          var i :| 0 <= i < j && st.calls[i].id == p;
          assert st'.calls[i].id == p;
        }
      }
    }
  }

  lemma {:induction false} ProgressOverall(d: DagTable, h: DagHost, body: Body, ids: seq<U16>)
    requires d.policy.SkipDependents? && Topological(d, ids) && VisitAll(d, h, body, Start, ids).Going?
    ensures Progress(d, VisitAll(d, h, body, Start, ids).st, ids)
    decreases |ids|
  {
    hide Find, Parents, Visit, Settled;
    if ids != [] {
      var n := |ids| - 1;
      var init := ids[..n];
      forall k | 0 <= k < n ensures init[k] == ids[k] && init[..k] == ids[..k] {
      }
      ProgressOverall(d, h, body, init);
      assert ids == init + [ids[n]];
      forall x, p | x in init && p in Parents(d, x) ensures p in init {
        var k :| 0 <= k < n && init[k] == x;
        assert p in init[..k];
      }
      VisitKeepsProgress(d, h, body, VisitAll(d, h, body, Start, init).st, init, ids[n]);
    }
  }

  /** A chain of parent links, ancestor first. */
  ghost predicate Chain(d: DagTable, path: seq<U16>) {
    |path| > 0 && forall i :: 0 <= i < |path| - 1 ==> path[i] in Parents(d, path[i + 1])
  }

  /** Some node whose call failed is the given node or an ancestor of it. */
  ghost predicate BelowFault(d: DagTable, st: DagState, id: U16) {
    exists path :: Chain(d, path) && path[|path| - 1] == id && CallFaulted(st, path[0])
  }

  lemma {:induction false} FailureSpreadsDown(d: DagTable, st: DagState, ids: seq<U16>, path: seq<U16>)
    requires Topological(d, ids) && Progress(d, st, ids) && Chain(d, path)
    requires CallFaulted(st, path[0]) && path[|path| - 1] in ids
    ensures path[|path| - 1] in st.failed
    decreases |path|
  {
    hide Find, Parents, CallFaulted;
    var n := |path| - 1;
    assert Settled(d, st, path[n]);
    if n > 0 {
      var k :| 0 <= k < |ids| && ids[k] == path[n];
      assert path[n - 1] in Parents(d, path[n]);
      assert path[n - 1] in ids[..k];
      assert path[..n][n - 1] == path[n - 1] && path[..n][0] == path[0];
      FailureSpreadsDown(d, st, ids, path[..n]);
      assert AnyIn(Parents(d, path[n]), st.failed);
    }
  }

  lemma {:induction false} FailureHasOrigin(d: DagTable, st: DagState, ids: seq<U16>, k: nat) returns (path: seq<U16>)
    requires Topological(d, ids) && Progress(d, st, ids) && k < |ids| && ids[k] in st.failed
    ensures Chain(d, path) && path[|path| - 1] == ids[k] && CallFaulted(st, path[0])
    decreases k
  {
    hide Find, Parents, CallFaulted;
    assert Settled(d, st, ids[k]);
    if CallFaulted(st, ids[k]) {
      path := [ids[k]];
    } else {
      var p :| p in Parents(d, ids[k]) && p in st.failed;
      var j :| 0 <= j < k && ids[j] == p;
      path := FailureHasOrigin(d, st, ids, j);
      path := path + [ids[k]];
    }
  }

  lemma FailedIffBelowFault(d: DagTable, st: DagState, ids: seq<U16>, id: U16)
    requires Topological(d, ids) && Progress(d, st, ids) && id in ids
    ensures id in st.failed <==> BelowFault(d, st, id)
  {
    hide Find, Parents, CallFaulted, Progress, Topological;
    var k :| 0 <= k < |ids| && ids[k] == id;
    if id in st.failed {
      var path := FailureHasOrigin(d, st, ids, k);
    } else if BelowFault(d, st, id) {
      var path :| Chain(d, path) && path[|path| - 1] == id && CallFaulted(st, path[0]);
      FailureSpreadsDown(d, st, ids, path);
    }
  }

  function TimeoutOf(d: DagTable, id: U16): nat {
    var i := Find(d.nodes, id);
    if i < |d.timeouts| then d.timeouts[i] else 0
  }

  /** Every call was made with the original body merged with its parents' results, and every
      result is the answer of the node's call. */
  ghost predicate Dataflow(d: DagTable, h: DagHost, body: Body, st: DagState) {
    && (forall c :: c in st.calls ==>
          && Input(h, Parents(d, c.id), body, st.results) == Some(c.input)
          && c.reply == h.call(c.id, c.input, TimeoutOf(d, c.id))
          && (c.reply.Ok? ==> c.id in st.results && st.results[c.id] == c.reply.body))
    && (forall id :: id in st.results ==> exists c :: c in st.calls && c.id == id && c.reply == Ok(st.results[id]))
  }

  lemma VisitKeepsDataflow(d: DagTable, h: DagHost, body: Body, st: DagState, ids: seq<U16>, id: U16)
    requires Dataflow(d, h, body, st) && id !in ids && forall c :: c in st.calls ==> c.id in ids
    requires forall p :: p in Parents(d, id) ==> p in ids
    requires forall x, p :: x in ids && p in Parents(d, x) ==> p in ids
    requires Visit(d, h, body, st, id).Going?
    ensures Dataflow(d, h, body, Visit(d, h, body, st, id).st)
    ensures forall c :: c in Visit(d, h, body, st, id).st.calls ==> c.id in ids + [id]
  {
    hide Visit, Judge, Input, Find, Parents, TimeoutOf;
    var st', v := Visit(d, h, body, st, id).st, Judge(d, h, body, st, id);
    VisitEffect(d, h, body, st, id);
    forall x | x in ids + [id]
      ensures Input(h, Parents(d, x), body, st'.results) == Input(h, Parents(d, x), body, st.results)
    {
      InputStable(d, h, body, st, st', ids, id, x);
    }
    if v.Asked? {
      AskedAs(d, h, body, st, id);
      var c := Call(id, v.input, v.reply);
      assert c in st'.calls;
      forall x | x in st'.results ensures exists c :: c in st'.calls && c.id == x && c.reply == Ok(st'.results[x]) {
        if x != id || !v.reply.Ok? {
          var e :| e in st.calls && e.id == x && e.reply == Ok(st.results[x]);
          assert e in st'.calls;
        }
      }
    }
  }

  /** What a visit that does not abort adds to the call log and the results. */
  lemma VisitEffect(d: DagTable, h: DagHost, body: Body, st: DagState, id: U16)
    requires Visit(d, h, body, st, id).Going?
    ensures var st', v := Visit(d, h, body, st, id).st, Judge(d, h, body, st, id);
            && st'.calls == st.calls + (if v.Asked? then [Call(id, v.input, v.reply)] else [])
            && st'.results == if v.Asked? && v.reply.Ok? then st.results[id := v.reply.body] else st.results
  {
    hide Judge;
  }

  lemma AskedAs(d: DagTable, h: DagHost, body: Body, st: DagState, id: U16)
    requires Judge(d, h, body, st, id).Asked?
    ensures var v := Judge(d, h, body, st, id);
            Input(h, Parents(d, id), body, st.results) == Some(v.input) &&
              v.reply == h.call(id, v.input, TimeoutOf(d, id))
  {
    hide Input, Find;
  }

  lemma InputStable(d: DagTable, h: DagHost, body: Body, st: DagState, st': DagState, ids: seq<U16>, id: U16, x: U16)
    requires id !in ids && forall p :: p in Parents(d, x) ==> p in ids
    requires Visit(d, h, body, st, id) == Going(st')
    ensures Input(h, Parents(d, x), body, st'.results) == Input(h, Parents(d, x), body, st.results)
  {
    assert forall p :: p in ids ==>
        (p in st'.results <==> p in st.results) && (p in st.results ==> st'.results[p] == st.results[p])
      by { hide Judge, Find; }
    hide Visit, Judge, Find, Parents;
    var ps := Parents(d, x);
    if h.parse(body).Some? {
      var a, b := DagState(st.results, {}, []), DagState(st'.results, {}, []);
      DagOrder.MergeParentsLocal(h, h.parse(body).value, ps, a, b);
    }
  }

  lemma {:induction false} DataflowOverall(d: DagTable, h: DagHost, body: Body, ids: seq<U16>)
    requires Topological(d, ids) && VisitAll(d, h, body, Start, ids).Going?
    ensures Dataflow(d, h, body, VisitAll(d, h, body, Start, ids).st)
    ensures forall c :: c in VisitAll(d, h, body, Start, ids).st.calls ==> c.id in ids
    decreases |ids|
  {
    hide Find, Parents, Visit, Dataflow;
    if ids == [] {
      NoDataflowYet(d, h, body);
    } else {
      var n := |ids| - 1;
      var init := ids[..n];
      forall k | 0 <= k < n ensures init[k] == ids[k] && init[..k] == ids[..k] {
      }
      DataflowOverall(d, h, body, init);
      assert ids == init + [ids[n]];
      forall x, p | x in init && p in Parents(d, x) ensures p in init {
        var k :| 0 <= k < n && init[k] == x;
        assert p in init[..k];
      }
      VisitKeepsDataflow(d, h, body, VisitAll(d, h, body, Start, init).st, init, ids[n]);
    }
  }

  lemma NoDataflowYet(d: DagTable, h: DagHost, body: Body)
    ensures Dataflow(d, h, body, Start)
  {}

  /* ---- when a run completes ---- */

  /** A node with parents that will all be called with the original body and answer it. */
  ghost predicate Stuck(d: DagTable, h: DagHost, body: Body, id: U16) {
    && Parents(d, id) != []
    && forall p :: p in Parents(d, id) ==> Parents(d, p) == [] && h.call(p, body, TimeoutOf(d, p)).Ok?
  }

  /** A body that is JSON never makes a node unusable. */
  lemma ParsableIsFine(d: DagTable, h: DagHost, body: Body, st: DagState, id: U16)
    requires h.parse(body).Some?
    ensures !Judge(d, h, body, st, id).BadBody?
  {
  }

  /** With a body that is not JSON, the next node of a topological order ends the run exactly if it
      is stuck: whoever has parents but is not skipped has parents that answered, and these were
      called with the original body only if they are roots. */
  lemma NextIsBadIffStuck(d: DagTable, h: DagHost, body: Body, st: DagState, ids: seq<U16>, id: U16)
    requires d.policy.SkipDependents? && Progress(d, st, ids) && Dataflow(d, h, body, st) && h.parse(body).None?
    requires Find(d.nodes, id) < |d.nodes| && forall p :: p in Parents(d, id) ==> p in ids
    ensures Judge(d, h, body, st, id).BadBody? <==> Stuck(d, h, body, id)
  {
    var ps := Parents(d, id);
    assert Judge(d, h, body, st, id).BadBody? <==> !AnyIn(ps, st.failed) && ps != [] by { hide Find; }
    hide Judge, Find, TimeoutOf;
    if !AnyIn(ps, st.failed) && ps != [] {
      forall p | p in ps ensures Parents(d, p) == [] && h.call(p, body, TimeoutOf(d, p)).Ok? {
        AnsweredRoot(d, h, body, st, ids, p);
      }
    } else if Stuck(d, h, body, id) {
      forall p | p in ps ensures p !in st.failed {
        RootAnswers(d, h, body, st, ids, p);
      }
      assert false;
    }
  }

  lemma AnsweredRoot(d: DagTable, h: DagHost, body: Body, st: DagState, ids: seq<U16>, p: U16)
    requires Progress(d, st, ids) && Dataflow(d, h, body, st) && h.parse(body).None? && p in ids && p !in st.failed
    ensures Parents(d, p) == [] && h.call(p, body, TimeoutOf(d, p)).Ok?
  {
    hide Find, TimeoutOf, Parents;
    assert Settled(d, st, p);
    var j :| 0 <= j < |st.calls| && st.calls[j].id == p;
    assert st.calls[j] in st.calls;
  }

  lemma RootAnswers(d: DagTable, h: DagHost, body: Body, st: DagState, ids: seq<U16>, p: U16)
    requires Progress(d, st, ids) && Dataflow(d, h, body, st) && p in ids
    requires Parents(d, p) == [] && h.call(p, body, TimeoutOf(d, p)).Ok?
    ensures p !in st.failed
  {
    hide Find, TimeoutOf, Parents;
    assert Settled(d, st, p);
    forall j | 0 <= j < |st.calls| && st.calls[j].id == p ensures st.calls[j].reply.Ok? {
      assert st.calls[j] in st.calls;
    }
  }

  /** Under SkipDependents a run over a topological order is cut short exactly by a body that is
      not JSON together with a stuck node. */
  lemma {:induction false} SkipAbortsIff(d: DagTable, h: DagHost, body: Body, ids: seq<U16>)
    requires d.policy.SkipDependents? && Topological(d, ids)
    ensures VisitAll(d, h, body, Start, ids).Aborted? <==>
            h.parse(body).None? && exists id :: id in ids && Stuck(d, h, body, id)
    decreases |ids|
  {
    hide Find, Parents, Visit, Stuck, Topological;
    if ids != [] {
      var n := |ids| - 1;
      var init, id := ids[..n], ids[n];
      PrefixTopological(d, ids, n);
      SkipAbortsIff(d, h, body, init);
      assert ids == init + [id];
      if VisitAll(d, h, body, Start, init).Going? {
        NextAbortsIff(d, h, body, ids);
      }
    }
  }

  lemma NextAbortsIff(d: DagTable, h: DagHost, body: Body, ids: seq<U16>)
    requires d.policy.SkipDependents? && Topological(d, ids) && ids != []
    requires VisitAll(d, h, body, Start, ids[..|ids| - 1]).Going?
    ensures var init, id := ids[..|ids| - 1], ids[|ids| - 1];
            Visit(d, h, body, VisitAll(d, h, body, Start, init).st, id).Aborted? <==>
            h.parse(body).None? && Stuck(d, h, body, id)
  {
    hide Find, Parents, Judge, Stuck, VisitAll;
    var n := |ids| - 1;
    var init, id := ids[..n], ids[n];
    PrefixTopological(d, ids, n);
    ProgressOverall(d, h, body, init);
    DataflowOverall(d, h, body, init);
    var st := VisitAll(d, h, body, Start, init).st;
    if h.parse(body).Some? {
      ParsableIsFine(d, h, body, st, id);
    } else {
      NextIsBadIffStuck(d, h, body, st, init, id);
    }
  }

  lemma PrefixTopological(d: DagTable, ids: seq<U16>, n: nat)
    requires Topological(d, ids) && n <= |ids|
    ensures Topological(d, ids[..n])
  {
    hide Find, Parents;
    forall k | 0 <= k < n ensures ids[..n][k] == ids[k] && ids[..n][..k] == ids[..k] {
    }
  }

  /** Under ContinueOthers a run is cut short exactly by a body that is not JSON together with a node
      that has parents. */
  lemma {:induction false} ContinueAbortsIff(d: DagTable, h: DagHost, body: Body, st: DagState, ids: seq<U16>)
    requires d.policy.ContinueOthers?
    ensures VisitAll(d, h, body, st, ids).Aborted? <==>
            h.parse(body).None? && exists id :: id in ids && Parents(d, id) != []
    decreases |ids|
  {
    if ids != [] {
      var n := |ids| - 1;
      ContinueAbortsIff(d, h, body, st, ids[..n]);
      assert ids == ids[..n] + [ids[n]];
      var r := VisitAll(d, h, body, st, ids[..n]);
      if r.Going? {
        assert Judge(d, h, body, r.st, ids[n]).BadBody? <==> h.parse(body).None? && Parents(d, ids[n]) != []
          by { hide Find, MergeParents; }
      }
      hide Find, Parents, Judge;
    }
  }

  /** AbortAll is ContinueOthers for as long as nothing fails. */
  lemma {:induction false} AbortAllIff(d: DagTable, h: DagHost, body: Body, ids: seq<U16>)
    requires d.policy.AbortAll?
    ensures var r, c := VisitAll(d, h, body, Start, ids), VisitAll(d.(policy := ContinueOthers), h, body, Start, ids);
            && (r.Going? <==> c.Going? && c.st.failed == {})
            && (r.Going? ==> r == c)
    decreases |ids|
  {
    if ids != [] {
      var n := |ids| - 1;
      var d' := d.(policy := ContinueOthers);
      AbortAllIff(d, h, body, ids[..n]);
      var c := VisitAll(d', h, body, Start, ids[..n]);
      if c.Going? {
        assert Judge(d, h, body, c.st, ids[n]) == Judge(d', h, body, c.st, ids[n]) by { hide Find, Input; }
      }
      hide Judge;
    }
  }

  /** A solution of the data-flow equations in which every listed node is called and answers. */
  ghost predicate FaultFree(d: DagTable, h: DagHost, body: Body, ids: seq<U16>, st: DagState) {
    && Dataflow(d, h, body, st)
    && (forall id :: id in ids ==> WasCalled(st, id)) && (forall c :: c in st.calls ==> c.reply.Ok?)
  }

  /** A run that follows a fault-free solution in topological order finds the same results. */
  lemma {:induction false} FollowsSolution(d: DagTable, h: DagHost, body: Body, ids: seq<U16>, sol: DagState)
    requires d.policy.AbortAll? && Topological(d, ids) && FaultFree(d, h, body, ids, sol)
    ensures var r := VisitAll(d, h, body, Start, ids);
            && r.Going?
            && forall id :: id in ids ==> id in r.st.results && id in sol.results && r.st.results[id] == sol.results[id]
    decreases |ids|
  {
    hide Find, Parents, Visit, Dataflow;
    if ids != [] {
      var n := |ids| - 1;
      var init, id := ids[..n], ids[n];
      PrefixTopological(d, ids, n);
      assert ids == init + [id];
      FollowsSolution(d, h, body, init, sol);
      assert forall p :: p in Parents(d, id) ==> p in ids[..n];
      FollowsOnce(d, h, body, VisitAll(d, h, body, Start, init).st, sol, id);
    }
  }

  lemma FollowsOnce(d: DagTable, h: DagHost, body: Body, st: DagState, sol: DagState, id: U16)
    requires d.policy.AbortAll? && Find(d.nodes, id) < |d.nodes| && Dataflow(d, h, body, sol) && WasCalled(sol, id)
    requires forall c :: c in sol.calls ==> c.reply.Ok?
    requires forall p :: p in Parents(d, id) ==> p in st.results && p in sol.results && st.results[p] == sol.results[p]
    ensures var r := Visit(d, h, body, st, id);
            r.Going? && id in sol.results && r.st.results == st.results[id := sol.results[id]]
  {
    hide Find, Input, Parents, Judge, TimeoutOf;
    var j :| 0 <= j < |sol.calls| && sol.calls[j].id == id;
    var c := sol.calls[j];
    assert c in sol.calls;
    SameInput(h, Parents(d, id), body, st, sol);
    AskedWith(d, h, body, st, id, c.input);
  }

  lemma AskedWith(d: DagTable, h: DagHost, body: Body, st: DagState, id: U16, b: Body)
    requires d.policy.AbortAll? && Find(d.nodes, id) < |d.nodes| &&
             Input(h, Parents(d, id), body, st.results) == Some(b)
    ensures Judge(d, h, body, st, id) == Asked(b, h.call(id, b, TimeoutOf(d, id)))
  {
    hide Find, Input;
  }

  lemma SameInput(h: DagHost, ps: seq<U16>, body: Body, a: DagState, b: DagState)
    requires forall p :: p in ps ==> p in a.results && p in b.results && a.results[p] == b.results[p]
    ensures Input(h, ps, body, a.results) == Input(h, ps, body, b.results)
  {
    if h.parse(body).Some? {
      var x, y := DagState(a.results, {}, []), DagState(b.results, {}, []);
      DagOrder.MergeParentsLocal(h, h.parse(body).value, ps, x, y);
    }
  }

  /** A run without an abort is such a solution. */
  lemma {:induction false} AbortAllSolves(d: DagTable, h: DagHost, body: Body, ids: seq<U16>)
    requires d.policy.AbortAll? && Topological(d, ids) && VisitAll(d, h, body, Start, ids).Going?
    ensures FaultFree(d, h, body, ids, VisitAll(d, h, body, Start, ids).st)
  {
    hide Find, Parents, Visit, Dataflow, VisitAll;
    DataflowOverall(d, h, body, ids);
    AllAnswered(d, h, body, ids);
  }

  lemma {:induction false} AllAnswered(d: DagTable, h: DagHost, body: Body, ids: seq<U16>)
    requires d.policy.AbortAll? && (forall id :: id in ids ==> Find(d.nodes, id) < |d.nodes|)
    requires VisitAll(d, h, body, Start, ids).Going?
    ensures var st := VisitAll(d, h, body, Start, ids).st;
            (forall id :: id in ids ==> WasCalled(st, id)) && (forall c :: c in st.calls ==> c.reply.Ok?)
    decreases |ids|
  {
    hide Find, Visit, Judge;
    if ids != [] {
      var n := |ids| - 1;
      var init, id := ids[..n], ids[n];
      assert ids == init + [id];
      AllAnswered(d, h, body, init);
      var before := VisitAll(d, h, body, Start, init).st;
      AskedUnderAbortAll(d, h, body, before, id);
      var st := VisitAll(d, h, body, Start, ids).st;
      forall x | x in ids ensures WasCalled(st, x) {
        if x == id {
          assert st.calls[|before.calls|].id == id;
        } else {
          var j :| 0 <= j < |before.calls| && before.calls[j].id == x;
          assert st.calls[j].id == x;
        }
      }
    }
  }

  lemma AskedUnderAbortAll(d: DagTable, h: DagHost, body: Body, st: DagState, id: U16)
    requires d.policy.AbortAll? && Find(d.nodes, id) < |d.nodes| && Visit(d, h, body, st, id).Going?
    ensures exists c: Call :: c.id == id && c.reply.Ok? && Visit(d, h, body, st, id).st.calls == st.calls + [c]
  {
    hide Find, Input;
    var v := Judge(d, h, body, st, id);
    assert v.Asked? && v.reply.Ok?;
    assert Visit(d, h, body, st, id).st.calls == st.calls + [Call(id, v.input, v.reply)];
  }

  /** What a run depends on, without running it: the body is JSON or no node needs it to be; and under
      AbortAll, the data-flow equations can be solved with no failing call. */
  ghost predicate Completes(d: DagTable, h: DagHost, body: Body, ids: seq<U16>) {
    match d.policy
    case SkipDependents => h.parse(body).Some? || forall id :: id in ids ==> !Stuck(d, h, body, id)
    case ContinueOthers => h.parse(body).Some? || forall id :: id in ids ==> Parents(d, id) == []
    case AbortAll => exists st :: FaultFree(d, h, body, ids, st)
  }

  /** Exactly when a run over a well-layered table is not aborted, for each policy. */
  lemma RunCompletesIff(d: DagTable, h: DagHost, body: Body)
    requires WellLayered(d, d.layers)
    ensures RunLayers(d, h, body, d.layers).Going? <==> Completes(d, h, body, Flat(d.layers))
  {
    hide WellLayered, RunLayers, VisitAll, Parents, Stuck, Topological;
    var ids := Flat(d.layers);
    LayersAreTopological(d, d.layers);
    LayersAreVisits(d, h, body, d.layers);
    match d.policy
    case SkipDependents => SkipAbortsIff(d, h, body, ids);
    case ContinueOthers => ContinueAbortsIff(d, h, body, Start, ids);
    case AbortAll =>
      hide FaultFree;
      if RunLayers(d, h, body, d.layers).Going? {
        AbortAllSolves(d, h, body, ids);
      } else if st :| FaultFree(d, h, body, ids, st) {
        FollowsSolution(d, h, body, ids, st);
        assert false;
      }
  }

  /* ---- the main results ---- */

  /** SkipDependents is exact. On every well-layered table, if the body is JSON or no node is stuck
      without it, the run is not aborted and a node is in the failed set exactly when its own call
      or an ancestor's call failed; it is called exactly when no parent is in that set, and then
      once and after all its parents. */
  lemma SkipDependentsExact(d: DagTable, h: DagHost, body: Body, id: U16)
    requires d.policy.SkipDependents? && WellLayered(d, d.layers) && id in Flat(d.layers)
    requires h.parse(body).Some? || forall x :: x in Flat(d.layers) ==> !Stuck(d, h, body, x)
    ensures RunLayers(d, h, body, d.layers).Going?
    ensures var st := RunLayers(d, h, body, d.layers).st;
            && (id in st.failed <==> BelowFault(d, st, id))
            && (WasCalled(st, id) <==> forall p :: p in Parents(d, id) ==> !BelowFault(d, st, p))
            && OrderlyCalls(d, st, Flat(d.layers))
  {
    hide Find, Parents, VisitAll, RunLayers, CallFaulted, Stuck;
    var ids := Flat(d.layers);
    RunCompletesIff(d, h, body);
    LayersAreTopological(d, d.layers);
    LayersAreVisits(d, h, body, d.layers);
    ProgressOverall(d, h, body, ids);
    var st := RunLayers(d, h, body, d.layers).st;
    forall x | x in ids ensures x in st.failed <==> BelowFault(d, st, x) {
      FailedIffBelowFault(d, st, ids, x);
    }
    var k :| 0 <= k < |ids| && ids[k] == id;
    assert Settled(d, st, id);
    assert forall p :: p in Parents(d, id) ==> p in ids[..k];
  }

  /** A run solves the table's data-flow equations: on a well-layered table, under any policy, if the
      policy's condition holds, the run is not aborted and ends with every call's input built from
      the final results of the node's parents, and every result being that call's answer. */
  lemma RunSolvesDataflow(d: DagTable, h: DagHost, body: Body)
    requires WellLayered(d, d.layers) && Completes(d, h, body, Flat(d.layers))
    ensures RunLayers(d, h, body, d.layers).Going?
    ensures Dataflow(d, h, body, RunLayers(d, h, body, d.layers).st)
  {
    hide Find, Parents, VisitAll, RunLayers, Completes;
    RunCompletesIff(d, h, body);
    LayersAreTopological(d, d.layers);
    LayersAreVisits(d, h, body, d.layers);
    DataflowOverall(d, h, body, Flat(d.layers));
  }
}
