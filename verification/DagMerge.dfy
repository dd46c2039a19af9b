/** What the merged bodies of a DAG run contain: the inputs of its nodes and its final output. */
module DagMerge {
  import opened Prelude
  import opened Json
  import opened Dag
  import opened DagSkip

  /* ---- merging a list of values ---- */

  function Fold(acc: Json, vs: seq<Json>): Json {
    if vs == [] then acc else DeepMerge(Fold(acc, vs[..|vs| - 1]), vs[|vs| - 1])
  }

  ghost predicate PairwiseCompatible(vs: seq<Json>) {
    forall a, b :: a in vs && b in vs ==> Compatible(a, b)
  }

  /** A value that conflicts with none of those behind it can be merged last. */
  lemma {:induction false} MergeLater(acc: Json, a: seq<Json>, x: Json, b: seq<Json>)
    requires forall y :: y in b ==> Compatible(x, y)
    ensures Fold(acc, a + [x] + b) == Fold(acc, a + b + [x])
    decreases |b|
  {
    hide DeepMerge, Compatible, Fold;
    if b == [] {
      assert a + [x] + b == a + b + [x];
    } else {
      var b', y := b[..|b| - 1], b[|b| - 1];
      assert y in b && b == b' + [y];
      MergeLater(acc, a, x, b');
      assert a + [x] + b == (a + [x] + b') + [y];
      FoldLast(acc, a + [x] + b', y);
      FoldLast(acc, a + b', x);
      assert a + b == (a + b') + [y];
      FoldLast(acc, a + b', y);
      FoldLast(acc, a + b, x);
      MergeInEitherOrder(Fold(acc, a + b'), x, y);
    }
  }

  lemma FoldLast(acc: Json, vs: seq<Json>, x: Json)
    ensures Fold(acc, vs + [x]) == DeepMerge(Fold(acc, vs), x)
  {
    hide DeepMerge;
    assert (vs + [x])[..|vs|] == vs;
  }

  lemma SplitAt<T>(vs: seq<T>, x: T) returns (a: seq<T>, b: seq<T>)
    requires x in vs
    ensures vs == a + [x] + b && multiset(a + b) == multiset(vs) - multiset{x}
  {
    var i :| 0 <= i < |vs| && vs[i] == x;
    a, b := vs[..i], vs[i + 1..];
    assert vs == a + [x] + b;
  }

  /** Values that do not conflict merge to the same in every order. */
  lemma {:induction false} FoldOrderIrrelevant(acc: Json, vs: seq<Json>, ws: seq<Json>)
    requires multiset(vs) == multiset(ws) && PairwiseCompatible(vs)
    ensures Fold(acc, vs) == Fold(acc, ws)
    decreases |ws|
  {
    hide DeepMerge, Compatible;
    assert |vs| == |multiset(vs)| == |multiset(ws)| == |ws|;
    if ws != [] {
      var init, x := ws[..|ws| - 1], ws[|ws| - 1];
      assert ws == init + [x];
      assert x in multiset(vs);
      var a, b := SplitAt(vs, x);
      MergeLater(acc, a, x, b);
      var v := a + b + [x];
      assert v[..|v| - 1] == a + b;
      assert multiset(a + b) == multiset(init);
      forall y | y in a + b ensures y in vs {
      }
      FoldOrderIrrelevant(acc, a + b, init);
    }
  }

  /* ---- parents and terminals as lists of values ---- */

  /** The values of those ids that have one. */
  function Values(f: U16 -> Option<Json>, ids: seq<U16>): seq<Json> {
    if ids == [] then []
    else Values(f, ids[..|ids| - 1]) + if f(ids[|ids| - 1]).Some? then [f(ids[|ids| - 1]).value] else []
  }

  lemma {:induction false} ValuesConcat(f: U16 -> Option<Json>, a: seq<U16>, b: seq<U16>)
    ensures Values(f, a + b) == Values(f, a) + Values(f, b)
    decreases |b|
  {
    if b == [] {
      assert a + b == a;
    } else {
      assert (a + b)[..|a + b| - 1] == a + b[..|b| - 1];
      ValuesConcat(f, a, b[..|b| - 1]);
    }
  }

  lemma {:induction false} ValuesPermute(f: U16 -> Option<Json>, ids: seq<U16>, other: seq<U16>)
    requires multiset(ids) == multiset(other)
    ensures multiset(Values(f, ids)) == multiset(Values(f, other))
    decreases |other|
  {
    assert |ids| == |multiset(ids)| == |multiset(other)| == |other|;
    if other != [] {
      var init, x := other[..|other| - 1], other[|other| - 1];
      assert other == init + [x];
      assert x in multiset(ids);
      var a, b := SplitAt(ids, x);
      assert multiset(a + b) == multiset(init);
      ValuesPermute(f, a + b, init);
      ValuesConcat(f, a + [x], b);
      ValuesConcat(f, a, [x]);
      ValuesConcat(f, a, b);
      ValuesConcat(f, init, [x]);
    }
  }

  function ParentValue(h: DagHost, results: map<U16, Body>): U16 -> Option<Json> {
    (p: U16) => if p in results then h.parse(results[p]) else None
  }

  /** A terminal contributes its parsed response unless it failed. */
  function TerminalValue(h: DagHost, st: DagState): U16 -> Option<Json> {
    (t: U16) => if t in st.failed then None else Parsed(h, st, t)
  }

  lemma {:induction false} MergeParentsIsFold(h: DagHost, v: Json, ps: seq<U16>, results: map<U16, Body>)
    ensures MergeParents(h, v, ps, results) == Fold(v, Values(ParentValue(h, results), ps))
    decreases |ps|
  {
    hide DeepMerge;
    if ps != [] {
      MergeParentsIsFold(h, v, ps[..|ps| - 1], results);
      FoldGrows(v, ParentValue(h, results), ps);
    }
  }

  lemma FoldGrows(acc: Json, f: U16 -> Option<Json>, ids: seq<U16>)
    requires ids != []
    ensures var before, x := Fold(acc, Values(f, ids[..|ids| - 1])), f(ids[|ids| - 1]);
            Fold(acc, Values(f, ids)) == if x.Some? then DeepMerge(before, x.value) else before
  {
    hide DeepMerge;
    var vs, init := Values(f, ids), Values(f, ids[..|ids| - 1]);
    if f(ids[|ids| - 1]).Some? {
      assert vs[..|vs| - 1] == init;
    } else {
      assert vs == init;
    }
  }

  lemma {:induction false} MergedIsFold(h: DagHost, ts: seq<U16>, st: DagState)
    ensures Merged(h, ts, st) == Fold(Empty, Values(TerminalValue(h, st), ts))
    decreases |ts|
  {
    hide DeepMerge;
    if ts != [] {
      MergedIsFold(h, ts[..|ts| - 1], st);
      FoldGrows(Empty, TerminalValue(h, st), ts);
    }
  }

  /* ---- what the bodies contain ---- */

  /** The order in which a node lists its parents does not matter if their results do not
      conflict. */
  lemma ParentOrderIrrelevant(h: DagHost, body: Body, ps: seq<U16>, qs: seq<U16>, results: map<U16, Body>)
    requires multiset(ps) == multiset(qs) && PairwiseCompatible(Values(ParentValue(h, results), ps))
    ensures Input(h, ps, body, results) == Input(h, qs, body, results)
  {
    hide PairwiseCompatible, MergeParents, Fold, Values, ParentValue;
    assert |ps| == |multiset(ps)| == |multiset(qs)| == |qs|;
    if h.parse(body).Some? {
      var v, f := h.parse(body).value, ParentValue(h, results);
      MergeParentsIsFold(h, v, ps, results);
      MergeParentsIsFold(h, v, qs, results);
      ValuesPermute(f, ps, qs);
      FoldOrderIrrelevant(v, Values(f, ps), Values(f, qs));
    }
  }

  /** Nor does the order of the terminals for the deep merge. */
  lemma TerminalOrderIrrelevant(h: DagHost, ts: seq<U16>, us: seq<U16>, st: DagState)
    requires multiset(ts) == multiset(us) && PairwiseCompatible(Values(TerminalValue(h, st), ts))
    ensures Merged(h, ts, st) == Merged(h, us, st)
  {
    hide PairwiseCompatible, Merged, Fold, Values, TerminalValue;
    var f := TerminalValue(h, st);
    MergedIsFold(h, ts, st);
    MergedIsFold(h, us, st);
    ValuesPermute(f, ts, us);
    FoldOrderIrrelevant(Empty, Values(f, ts), Values(f, us));
  }

  /** In a deep merge a leaf of a terminal's response is in the output, at its path, unless a later
      terminal has something at that path or a leaf above it. */
  lemma {:induction false} LastLeafWins(h: DagHost, ts: seq<U16>, st: DagState, k: nat, path: seq<string>)
    requires k < |ts| && TerminalValue(h, st)(ts[k]).Some?
    requires var leaf := At(TerminalValue(h, st)(ts[k]).value, path); leaf.Some? && !leaf.value.Obj?
    requires forall j :: k < j < |ts| && TerminalValue(h, st)(ts[j]).Some? ==>
             Leaves(TerminalValue(h, st)(ts[j]).value, path)
    ensures At(Merged(h, ts, st), path) == At(TerminalValue(h, st)(ts[k]).value, path)
    decreases |ts|
  {
    hide DeepMerge, At, Leaves;
    var n := |ts| - 1;
    var x, acc := TerminalValue(h, st)(ts[n]), Merged(h, ts[..n], st);
    if x.Some? {
      MergedAt(acc, x.value, path);
    }
    if k < n {
      LastLeafWins(h, ts[..n], st, k, path);
    } else {
      LeafNotLeft(x.value, path);
    }
  }

  lemma {:induction false} LeafNotLeft(j: Json, path: seq<string>)
    requires At(j, path).Some?
    ensures !Leaves(j, path)
    decreases |path|
  {
    if path != [] {
      LeafNotLeft(j.fields[path[0]], path[1..]);
    }
  }

  /** Visiting a known node that does not abort the run leaves it failed or answered, and it stays
      so. */
  lemma {:induction false} VisitsSettle(d: DagTable, h: DagHost, body: Body, st: DagState, ids: seq<U16>, id: U16)
    requires VisitAll(d, h, body, st, ids).Going? && Find(d.nodes, id) < |d.nodes|
    requires id in ids || id in st.failed || id in st.results
    ensures var s := VisitAll(d, h, body, st, ids).st; id in s.failed || id in s.results
    decreases |ids|
  {
    hide Input, Find;
    if ids != [] && (id in ids[..|ids| - 1] || id in st.failed || id in st.results) {
      VisitsSettle(d, h, body, st, ids[..|ids| - 1], id);
    }
  }

  /** A run leaves every known node of its layers failed or answered, unless it is aborted; when that
      happens on a well-layered table is decided by the policy's condition. */
  lemma RunSettles(d: DagTable, h: DagHost, body: Body, id: U16)
    requires Find(d.nodes, id) < |d.nodes| && id in Flat(d.layers)
    ensures WellLayered(d, d.layers) && Completes(d, h, body, Flat(d.layers)) ==> RunLayers(d, h, body, d.layers).Going?
    ensures RunLayers(d, h, body, d.layers).Going? ==>
              var s := RunLayers(d, h, body, d.layers).st; id in s.failed || id in s.results
  {
    hide *;
    LayersAreVisits(d, h, body, d.layers);
    if WellLayered(d, d.layers) {
      RunCompletesIff(d, h, body);
    }
    if RunLayers(d, h, body, d.layers).Going? {
      VisitsSettle(d, h, body, Start, Flat(d.layers), id);
    }
  }

  /** What the array holds for one terminal. */
  function ItemFor(h: DagHost, st: DagState, t: U16): Json
    requires t in st.failed || t in st.results
  {
    if t in st.failed then Null
    else match h.parse(st.results[t]) case Some(v) => v case None => Str(h.lossy(st.results[t]))
  }

  /** What the textual strategy holds for one terminal. */
  function PieceFor(h: DagHost, st: DagState, t: U16): string
    requires t in st.failed || t in st.results
  {
    "\"" + h.name(t) + "\":" + if t in st.failed then "null" else h.lossy(st.results[t])
  }

  /** If every terminal was called or skipped, array and text have one entry per terminal, in order. */
  lemma {:induction false} ItemsAligned(h: DagHost, ts: seq<U16>, st: DagState)
    requires forall t :: t in ts ==> t in st.failed || t in st.results
    ensures |Items(h, ts, st)| == |ts| && forall i :: 0 <= i < |ts| ==> Items(h, ts, st)[i] == ItemFor(h, st, ts[i])
    ensures |Pieces(h, ts, st)| == |ts| && forall i :: 0 <= i < |ts| ==> Pieces(h, ts, st)[i] == PieceFor(h, st, ts[i])
    decreases |ts|
  {
    if ts != [] {
      var t := ts[|ts| - 1];
      ItemsAligned(h, ts[..|ts| - 1], st);
      if t in st.failed {
        assert "\"" + h.name(t) + "\":null" == PieceFor(h, st, t);
      }
    }
  }

  /** The key under which the explicit map lists a terminal, and its value. */
  function Listing(h: DagHost, st: DagState, t: U16): Option<(string, Json)> {
    if t in st.failed then Some((h.fallbackName(t), Null))
    else match Parsed(h, st, t) case Some(v) => Some((h.name(t), v)) case None => None
  }

  /** A key of the explicit map belongs to the last terminal listed under it. */
  lemma {:induction false} KeyedByLast(h: DagHost, ts: seq<U16>, st: DagState, key: string)
    ensures key in Keyed(h, ts, st) <==> exists k :: 0 <= k < |ts| && Owns(h, ts, st, key, k)
    ensures forall k :: 0 <= k < |ts| && Owns(h, ts, st, key, k) ==>
              key in Keyed(h, ts, st) && Keyed(h, ts, st)[key] == Listing(h, st, ts[k]).value.1
    decreases |ts|
  {
    if ts != [] {
      var n := |ts| - 1;
      KeyedByLast(h, ts[..n], st, key);
      var last := Listing(h, st, ts[n]);
      if last.Some? && last.value.0 == key {
        assert Owns(h, ts, st, key, n);
      } else {
        forall k | 0 <= k < n ensures Owns(h, ts, st, key, k) <==> Owns(h, ts[..n], st, key, k) {
        }
      }
    }
  }

  ghost predicate Owns(h: DagHost, ts: seq<U16>, st: DagState, key: string, k: nat)
    requires k < |ts|
  {
    && Listing(h, st, ts[k]).Some? && Listing(h, st, ts[k]).value.0 == key
    && forall j :: k < j < |ts| && Listing(h, st, ts[j]).Some? ==> Listing(h, st, ts[j]).value.0 != key
  }
}
