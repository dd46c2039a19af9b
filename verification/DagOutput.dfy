/** What a DAG run returns under each merge strategy, and what each of its calls is given. */
module DagOutput {
  import opened Prelude
  import opened Json
  import opened Dag
  import DagSkip
  import opened DagMerge

  /* ---- merged values, path by path ---- */

  /** The last of the ids whose value has something at the path or a leaf above it. */
  function LastCover(f: U16 -> Option<Json>, ids: seq<U16>, path: seq<string>): (k: Option<nat>)
    ensures k.Some? ==> k.value < |ids| && f(ids[k.value]).Some? && !Leaves(f(ids[k.value]).value, path)
    ensures forall j :: (if k.Some? then k.value + 1 else 0) <= j < |ids| && f(ids[j]).Some? ==>
              Leaves(f(ids[j]).value, path)
  {
    if ids == [] then None
    else
      var n := |ids| - 1;
      if f(ids[n]).Some? && !Leaves(f(ids[n]).value, path) then Some(n) else LastCover(f, ids[..n], path)
  }

  /** What merging the values of the ids into `base` gives at a path: the value of the last id that
      covers it (for an object, some object, whose parts other paths lead to), and otherwise what
      `base` has there. */
  ghost predicate PathLaw(base: Json, f: U16 -> Option<Json>, ids: seq<U16>, out: Json, path: seq<string>) {
    match LastCover(f, ids, path)
    case None => At(out, path) == At(base, path)
    case Some(k) =>
      var x := At(f(ids[k]).value, path);
      if x.Some? && x.value.Obj? then At(out, path).Some? && At(out, path).value.Obj? else At(out, path) == x
  }

  lemma {:induction false} FoldAt(base: Json, f: U16 -> Option<Json>, ids: seq<U16>, path: seq<string>)
    ensures PathLaw(base, f, ids, Fold(base, Values(f, ids)), path)
    decreases |ids|
  {
    hide DeepMerge, At, Leaves;
    if ids != [] {
      var n := |ids| - 1;
      FoldAt(base, f, ids[..n], path);
      FoldGrows(base, f, ids);
      if f(ids[n]).Some? {
        var acc := Fold(base, Values(f, ids[..n]));
        MergedAt(acc, f(ids[n]).value, path);
        if At(acc, path).Some? && At(f(ids[n]).value, path).Some? {
          MergesToObject(At(acc, path).value, At(f(ids[n]).value, path).value);
        }
      }
    }
  }

  lemma MergesToObject(a: Json, b: Json)
    ensures b.Obj? ==> DeepMerge(a, b).Obj?
  {
  }

  /** A call of a node with parents gets the body with its parents' results merged in: at every path what
      the last parent that covers it answered, and otherwise what the body has; a root gets the body
      itself, and a body that is not JSON is an error for the others. */
  lemma InputLaw(h: DagHost, ps: seq<U16>, body: Body, results: map<U16, Body>)
    ensures ps == [] ==> Input(h, ps, body, results) == Some(body)
    ensures ps != [] && h.parse(body).None? ==> Input(h, ps, body, results) == None
    ensures ps != [] && h.parse(body).Some? ==>
              exists j :: Input(h, ps, body, results) == Some(h.render(j)) && MergesOver(h, body, ps, results, j)
  {
    if ps != [] && h.parse(body).Some? {
      var v := h.parse(body).value;
      var j := MergeParents(h, v, ps, results);
      hide MergeParents, Fold, Values;
      MergeParentsIsFold(h, v, ps, results);
      forall path ensures PathLaw(v, ParentValue(h, results), ps, j, path) {
        FoldAt(v, ParentValue(h, results), ps, path);
      }
      assert MergesOver(h, body, ps, results, j);
    }
  }

  ghost predicate MergesOver(h: DagHost, body: Body, ps: seq<U16>, results: map<U16, Body>, j: Json) {
    h.parse(body).Some? && forall path :: PathLaw(h.parse(body).value, ParentValue(h, results), ps, j, path)
  }

  /* ---- the four strategies ---- */

  /** The terminals that failed or answered, in order. */
  function SettledOf(ts: seq<U16>, st: DagState): (r: seq<U16>)
    ensures forall t :: t in r <==> t in ts && (t in st.failed || t in st.results)
  {
    if ts == [] then []
    else
      var n := |ts| - 1;
      assert ts == ts[..n] + [ts[n]];
      SettledOf(ts[..n], st) + if ts[n] in st.failed || ts[n] in st.results then [ts[n]] else []
  }

  lemma {:induction false} OnlySettledCount(h: DagHost, ts: seq<U16>, st: DagState)
    ensures Items(h, ts, st) == Items(h, SettledOf(ts, st), st) && Pieces(h, ts, st) == Pieces(h, SettledOf(ts, st), st)
    decreases |ts|
  {
    hide Items, Pieces;
    if ts == [] {
      assert SettledOf(ts, st) == [];
    } else {
      var n := |ts| - 1;
      var init, t := ts[..n], ts[n];
      assert ts == init + [t];
      OnlySettledCount(h, init, st);
      if t in st.failed || t in st.results {
        assert SettledOf(ts, st) == SettledOf(init, st) + [t];
        OneMoreTerminal(h, init, SettledOf(init, st), t, st);
      } else {
        assert SettledOf(ts, st) == SettledOf(init, st);
        UnsettledAddsNothing(h, init, t, st);
      }
    }
  }

  lemma OneMoreTerminal(h: DagHost, a: seq<U16>, b: seq<U16>, t: U16, st: DagState)
    requires Items(h, a, st) == Items(h, b, st) && Pieces(h, a, st) == Pieces(h, b, st)
    ensures Items(h, a + [t], st) == Items(h, b + [t], st) && Pieces(h, a + [t], st) == Pieces(h, b + [t], st)
  {
    assert (a + [t])[..|a|] == a && (b + [t])[..|b|] == b;
  }

  lemma UnsettledAddsNothing(h: DagHost, a: seq<U16>, t: U16, st: DagState)
    requires t !in st.failed && t !in st.results
    ensures Items(h, a + [t], st) == Items(h, a, st) && Pieces(h, a + [t], st) == Pieces(h, a, st)
  {
    assert (a + [t])[..|a|] == a;
  }

  /** ArrayConcat returns a JSON array with one item per terminal that failed or answered, in order: null,
      the parsed response, or its text. */
  lemma ArrayOutput(d: DagTable, h: DagHost, body: Body)
    requires d.strategy.ArrayConcat? && RunLayers(d, h, body, d.layers).Going?
    ensures var st := RunLayers(d, h, body, d.layers).st;
            var ts := SettledOf(d.terminals, st);
            exists items ::
              && ExecDag(d, h, body) == Merge(h.render(Arr(items))) && |items| == |ts|
              && forall i :: 0 <= i < |ts| ==> items[i] == ItemFor(h, st, ts[i])
  {
    hide RunLayers, Items, Pieces;
    var st := RunLayers(d, h, body, d.layers).st;
    var items := Items(h, d.terminals, st);
    OnlySettledCount(h, d.terminals, st);
    ItemsAligned(h, SettledOf(d.terminals, st), st);
    assert ExecDag(d, h, body) == Merge(h.render(Arr(items)));
  }

  /** MergeDeep returns the terminals' responses merged into the empty object: at every path the value of
      the last terminal that neither failed nor is unparsable and covers the path. */
  lemma DeepOutput(d: DagTable, h: DagHost, body: Body)
    requires d.strategy.MergeDeep? && RunLayers(d, h, body, d.layers).Going?
    ensures var st := RunLayers(d, h, body, d.layers).st;
            exists out ::
              && ExecDag(d, h, body) == Merge(h.render(out))
              && forall path :: PathLaw(Obj(map[]), TerminalValue(h, st), d.terminals, out, path)
  {
    hide RunLayers, Merged, Fold, Values, PathLaw;
    var st := RunLayers(d, h, body, d.layers).st;
    var out := Merged(h, d.terminals, st);
    MergedIsFold(h, d.terminals, st);
    forall path ensures PathLaw(Obj(map[]), TerminalValue(h, st), d.terminals, out, path) {
      FoldAt(Empty, TerminalValue(h, st), d.terminals, path);
    }
    assert ExecDag(d, h, body) == Merge(h.render(out));
  }

  /** ExplicitMap returns a JSON object: a key is there if and only if some terminal is listed under it,
      with the value of the last one. */
  lemma MapOutput(d: DagTable, h: DagHost, body: Body)
    requires d.strategy.ExplicitMap? && RunLayers(d, h, body, d.layers).Going?
    ensures var st := RunLayers(d, h, body, d.layers).st;
            exists m: map<string, Json> ::
              && ExecDag(d, h, body) == Merge(h.render(Obj(m))) && forall key :: KeyLaw(h, d.terminals, st, m, key)
  {
    hide RunLayers, Keyed, KeyLaw;
    var st := RunLayers(d, h, body, d.layers).st;
    var m := Keyed(h, d.terminals, st);
    forall key ensures KeyLaw(h, d.terminals, st, m, key) {
      KeyedFollowsLaw(h, d.terminals, st, key);
    }
    assert ExecDag(d, h, body) == Merge(h.render(Obj(m)));
  }

  ghost predicate KeyLaw(h: DagHost, ts: seq<U16>, st: DagState, m: map<string, Json>, key: string) {
    && (key in m <==> exists k :: 0 <= k < |ts| && Owns(h, ts, st, key, k))
    && forall k :: 0 <= k < |ts| && Owns(h, ts, st, key, k) ==>
         && key in m
         && (ts[k] in st.failed ==> key == h.fallbackName(ts[k]) && m[key] == Null)
         && (ts[k] !in st.failed ==>
               ts[k] in st.results && key == h.name(ts[k]) && h.parse(st.results[ts[k]]) == Some(m[key]))
  }

  lemma KeyedFollowsLaw(h: DagHost, ts: seq<U16>, st: DagState, key: string)
    ensures KeyLaw(h, ts, st, Keyed(h, ts, st), key)
  {
    hide Keyed;
    KeyedByLast(h, ts, st, key);
  }

  /** The texts with single commas between them. */
  function Commas(ss: seq<string>): string {
    if ss == [] then ""
    else (if |ss| == 1 then "" else Commas(ss[..|ss| - 1]) + ",") + ss[|ss| - 1]
  }

  lemma {:induction false} JoinIsCommas(ss: seq<string>)
    ensures Join(ss) == Commas(ss)
    decreases |ss|
  {
    if |ss| >= 2 {
      var n := |ss| - 1;
      JoinIsCommas(ss[1..]);
      JoinIsCommas(ss[..n]);
      assert ss[1..][..n - 1] == ss[..n][1..];
      JoinIsCommas(ss[1..n]);
      assert ss[..n][1..] == ss[1..n] && ss[1..][..n - 1] == ss[1..n];
      assert ss[1..][n - 1] == ss[n];
      if n >= 2 {
        assert Commas(ss[1..]) == Commas(ss[1..n]) + "," + ss[n];
        assert Join(ss[..n]) == ss[0] + "," + Join(ss[1..n]);
        assert ss[0] + "," + (Commas(ss[1..n]) + "," + ss[n]) == ss[0] + "," + Commas(ss[1..n]) + "," + ss[n];
      } else {
        assert ss[1..] == [ss[1]] && ss[..1] == [ss[0]];
        assert Join(ss[1..]) == ss[1] && Commas(ss[..1]) == ss[0];
      }
    }
  }

  /** LastWins returns text: an opening brace, one quoted name with null or the raw response per terminal
      that failed or answered, in order and separated by commas, and a closing brace. */
  lemma TextOutput(d: DagTable, h: DagHost, body: Body)
    requires d.strategy.LastWins? && RunLayers(d, h, body, d.layers).Going?
    ensures var st := RunLayers(d, h, body, d.layers).st;
            var ts := SettledOf(d.terminals, st);
            exists pieces ::
              && ExecDag(d, h, body) == Merge(h.bytes("{" + Commas(pieces) + "}")) && |pieces| == |ts|
              && forall i :: 0 <= i < |ts| ==> pieces[i] == PieceFor(h, st, ts[i])
  {
    hide RunLayers, Items, Pieces, Commas, Join;
    var st := RunLayers(d, h, body, d.layers).st;
    var pieces := Pieces(h, d.terminals, st);
    OnlySettledCount(h, d.terminals, st);
    ItemsAligned(h, SettledOf(d.terminals, st), st);
    JoinIsCommas(pieces);
    assert ExecDag(d, h, body) == Merge(h.bytes("{" + Commas(pieces) + "}"));
  }

  /* ---- errors and table look-ups ---- */

  /** Why a run is aborted: a node with parents and a body that is not JSON, or, under AbortAll only, a
      call that failed with the message reported. */
  ghost predicate Cause(d: DagTable, h: DagHost, body: Body, e: DagError) {
    match e
    case UnparsableBody(id) => h.parse(body).None? && Parents(d, id) != []
    case CallFailed(id, msg) => d.policy.AbortAll? && exists b :: h.call(id, b, DagSkip.TimeoutOf(d, id)) == Fault(msg)
  }

  lemma VisitCause(d: DagTable, h: DagHost, body: Body, st: DagState, id: U16)
    ensures var r := Visit(d, h, body, st, id); r.Aborted? ==> Cause(d, h, body, r.err)
  {
    hide Find, MergeParents, DagSkip.TimeoutOf;
    if Judge(d, h, body, st, id).Asked? {
      DagSkip.AskedAs(d, h, body, st, id);
    }
  }

  lemma {:induction false} VisitsCause(d: DagTable, h: DagHost, body: Body, st: DagState, ids: seq<U16>)
    ensures var r := VisitAll(d, h, body, st, ids); r.Aborted? ==> Cause(d, h, body, r.err)
    decreases |ids|
  {
    hide Visit, Cause;
    if ids != [] {
      var n := |ids| - 1;
      VisitsCause(d, h, body, st, ids[..n]);
      var r := VisitAll(d, h, body, st, ids[..n]);
      if r.Going? {
        VisitCause(d, h, body, r.st, ids[n]);
      }
    }
  }

  lemma {:induction false} FailureHasCause(d: DagTable, h: DagHost, body: Body, layers: seq<seq<U16>>)
    ensures var r := RunLayers(d, h, body, layers); r.Aborted? ==> Cause(d, h, body, r.err)
    decreases |layers|
  {
    hide VisitAll, Cause;
    if layers != [] {
      var n := |layers| - 1;
      FailureHasCause(d, h, body, layers[..n]);
      var r := RunLayers(d, h, body, layers[..n]);
      if r.Going? {
        VisitsCause(d, h, body, r.st, layers[n]);
      }
    }
  }

  /** The first node of the table with an id says which parents and, by its place, which timeout it has. */
  lemma FirstNodeCounts(d: DagTable, i: nat)
    requires i < |d.nodes| && forall k :: 0 <= k < i ==> d.nodes[k].id != d.nodes[i].id
    ensures var id := d.nodes[i].id;
            && Parents(d, id) == d.nodes[i].parents
            && DagSkip.TimeoutOf(d, id) == if i < |d.timeouts| then d.timeouts[i] else 0
  {
  }
}
