/** The layered DAG executor (runtime/src/executor/dag.rs). */
module Dag {
  import opened Prelude
  import opened Json

  datatype DagNode = DagNode(id: U16, parents: seq<U16>)

  datatype Policy = AbortAll | ContinueOthers | SkipDependents

  datatype Strategy = LastWins | ArrayConcat | MergeDeep | ExplicitMap

  datatype DagTable = DagTable(nodes: seq<DagNode>, layers: seq<seq<U16>>, terminals: seq<U16>,
                               policy: Policy, timeouts: seq<nat>, strategy: Strategy)

  /** Services, JSON text and service names. */
  datatype DagHost = DagHost(call: (U16, Body, nat) -> Reply, parse: Body -> Option<Json>, render: Json -> Body,
                             name: U16 -> string, fallbackName: U16 -> string, lossy: Body -> string,
                             bytes: string -> Body)

  datatype Call = Call(id: U16, input: Body, reply: Reply)

  datatype DagState = DagState(results: map<U16, Body>, failed: set<U16>, calls: seq<Call>)

  datatype DagError = UnparsableBody(id: U16) | CallFailed(id: U16, msg: string)

  datatype DagRun = Going(st: DagState) | Aborted(err: DagError)

  const Start: DagState := DagState(map[], {}, [])

  /** Index of the first node with this service id, or the number of nodes. */
  function Find(nodes: seq<DagNode>, id: U16): (i: nat)
    ensures i <= |nodes| && (i < |nodes| ==> nodes[i].id == id)
    ensures forall k :: 0 <= k < i ==> nodes[k].id != id
  {
    if nodes == [] || nodes[0].id == id then 0 else 1 + Find(nodes[1..], id)
  }

  function Parents(d: DagTable, id: U16): seq<U16> {
    var i := Find(d.nodes, id);
    if i < |d.nodes| then d.nodes[i].parents else []
  }

  predicate AnyIn(ps: seq<U16>, s: set<U16>) {
    exists p :: p in ps && p in s
  }

  /** The parents' parsable results merged, in parent order, into the original body. */
  function MergeParents(h: DagHost, v: Json, ps: seq<U16>, results: map<U16, Body>): Json {
    if ps == [] then v
    else
      var acc := MergeParents(h, v, ps[..|ps| - 1], results);
      var p := ps[|ps| - 1];
      if p in results && h.parse(results[p]).Some? then DeepMerge(acc, h.parse(results[p]).value) else acc
  }

  function Input(h: DagHost, ps: seq<U16>, body: Body, results: map<U16, Body>): Option<Body> {
    if ps == [] then Some(body)
    else match h.parse(body)
      case None => None
      case Some(v) => Some(h.render(MergeParents(h, v, ps, results)))
  }

  datatype Verdict = Absent | Skip | BadBody | Asked(input: Body, reply: Reply)

  /** What happens to a node, given what its parents left behind. */
  function Judge(d: DagTable, h: DagHost, body: Body, st: DagState, id: U16): Verdict {
    var i := Find(d.nodes, id);
    if i == |d.nodes| then Absent
    else
      var ps := d.nodes[i].parents;
      if d.policy.SkipDependents? && AnyIn(ps, st.failed) then Skip
      else match Input(h, ps, body, st.results)
        case None => BadBody
        case Some(b) => Asked(b, h.call(id, b, if i < |d.timeouts| then d.timeouts[i] else 0))
  }

  function Record(d: DagTable, st: DagState, id: U16, v: Verdict): DagRun {
    match v
    case Absent => Going(st)
    case Skip => Going(st.(failed := st.failed + {id}))
    case BadBody => Aborted(UnparsableBody(id))
    case Asked(b, r) =>
      var calls := st.calls + [Call(id, b, r)];
      match r
      case Ok(data) => Going(st.(results := st.results[id := data], calls := calls))
      case Fault(e) =>
        if d.policy.AbortAll? then Aborted(CallFailed(id, e))
          else Going(st.(failed := st.failed + {id}, calls := calls))
  }

  function Visit(d: DagTable, h: DagHost, body: Body, st: DagState, id: U16): DagRun {
    Record(d, st, id, Judge(d, h, body, st, id))
  }

  /** Visiting nodes one after the other. */
  function VisitAll(d: DagTable, h: DagHost, body: Body, st: DagState, ids: seq<U16>): DagRun {
    if ids == [] then Going(st)
    else match VisitAll(d, h, body, st, ids[..|ids| - 1])
      case Going(s) => Visit(d, h, body, s, ids[|ids| - 1])
      case stop => stop
  }

  /** Layer after layer. */
  function RunLayers(d: DagTable, h: DagHost, body: Body, layers: seq<seq<U16>>): DagRun {
    if layers == [] then Going(Start)
    else match RunLayers(d, h, body, layers[..|layers| - 1])
      case Going(s) => VisitAll(d, h, body, s, layers[|layers| - 1])
      case stop => stop
  }

  /* ---- merging the terminal results ---- */

  /** The parsed response of a node, if it has one. */
  function Parsed(h: DagHost, st: DagState, t: U16): Option<Json> {
    if t in st.results then h.parse(st.results[t]) else None
  }

  function Items(h: DagHost, ts: seq<U16>, st: DagState): seq<Json> {
    if ts == [] then []
    else
      var t := ts[|ts| - 1];
      Items(h, ts[..|ts| - 1], st) +
      if t in st.failed then [Null]
      else if Parsed(h, st, t).Some? then [Parsed(h, st, t).value]
      else if t in st.results then [Str(h.lossy(st.results[t]))]
      else []
  }

  function Merged(h: DagHost, ts: seq<U16>, st: DagState): Json {
    if ts == [] then Empty
    else
      var t := ts[|ts| - 1];
      var acc := Merged(h, ts[..|ts| - 1], st);
      if t !in st.failed && Parsed(h, st, t).Some? then DeepMerge(acc, Parsed(h, st, t).value) else acc
  }

  function Keyed(h: DagHost, ts: seq<U16>, st: DagState): map<string, Json> {
    if ts == [] then map[]
    else
      var t := ts[|ts| - 1];
      var acc := Keyed(h, ts[..|ts| - 1], st);
      if t in st.failed then acc[h.fallbackName(t) := Null]
      else if Parsed(h, st, t).Some? then acc[h.name(t) := Parsed(h, st, t).value]
      else acc
  }

  /** The textual form glues the raw responses together without parsing them. */
  function Pieces(h: DagHost, ts: seq<U16>, st: DagState): seq<string> {
    if ts == [] then []
    else
      var t := ts[|ts| - 1];
      Pieces(h, ts[..|ts| - 1], st) +
      if t in st.failed then ["\"" + h.name(t) + "\":null"]
      else if t in st.results then ["\"" + h.name(t) + "\":" + h.lossy(st.results[t])]
      else []
  }

  function Join(ss: seq<string>): string {
    if ss == [] then "" else if |ss| == 1 then ss[0] else ss[0] + "," + Join(ss[1..])
  }

  function MergeResults(d: DagTable, h: DagHost, st: DagState): Body {
    match d.strategy
    case ArrayConcat => h.render(Arr(Items(h, d.terminals, st)))
    case MergeDeep => h.render(Merged(h, d.terminals, st))
    case ExplicitMap => h.render(Obj(Keyed(h, d.terminals, st)))
    case LastWins => h.bytes("{" + Join(Pieces(h, d.terminals, st)) + "}")
  }

  method ListTerminals(h: DagHost, ts: seq<U16>, st: DagState) returns (arr: seq<Json>)
    ensures arr == Items(h, ts, st)
  {
    arr := [];
    for k := 0 to |ts|
      invariant arr == Items(h, ts[..k], st)
    {
      assert ts[..k + 1][..k] == ts[..k];
      if ts[k] in st.failed {
        arr := arr + [Null];
      } else if ts[k] in st.results {
        var v := h.parse(st.results[ts[k]]);
        arr := arr + [if v.Some? then v.value else Str(h.lossy(st.results[ts[k]]))];
      }
    }
    assert ts[..|ts|] == ts;
  }

  method MergeDeepTerminals(h: DagHost, ts: seq<U16>, st: DagState) returns (merged: Json)
    ensures merged == Merged(h, ts, st)
  {
    hide DeepMerge;
    merged := Empty;
    for k := 0 to |ts|
      invariant merged == Merged(h, ts[..k], st)
    {
      assert ts[..k + 1][..k] == ts[..k];
      if ts[k] !in st.failed && ts[k] in st.results {
        var v := h.parse(st.results[ts[k]]);
        if v.Some? {
          merged := MergeInto(merged, v.value);
        }
      }
    }
    assert ts[..|ts|] == ts;
  }

  method KeyTerminals(h: DagHost, ts: seq<U16>, st: DagState) returns (fields: map<string, Json>)
    ensures fields == Keyed(h, ts, st)
  {
    fields := map[];
    for k := 0 to |ts|
      invariant fields == Keyed(h, ts[..k], st)
    {
      assert ts[..k + 1][..k] == ts[..k];
      if ts[k] in st.failed {
        fields := fields[h.fallbackName(ts[k]) := Null];
      } else if ts[k] in st.results {
        var v := h.parse(st.results[ts[k]]);
        if v.Some? {
          fields := fields[h.name(ts[k]) := v.value];
        }
      }
    }
    assert ts[..|ts|] == ts;
  }

  method MergeLastWins(h: DagHost, ts: seq<U16>, st: DagState) returns (entries: seq<string>)
    ensures entries == Pieces(h, ts, st)
  {
    entries := [];
    for k := 0 to |ts|
      invariant entries == Pieces(h, ts[..k], st)
    {
      assert ts[..k + 1][..k] == ts[..k];
      if ts[k] in st.failed {
        entries := entries + ["\"" + h.name(ts[k]) + "\":null"];
      } else if ts[k] in st.results {
        entries := entries + ["\"" + h.name(ts[k]) + "\":" + h.lossy(st.results[ts[k]])];
      }
    }
    assert ts[..|ts|] == ts;
  }

  /** `merge_dag_results`, one loop over the terminal nodes per strategy. */
  method MergeTerminals(d: DagTable, h: DagHost, st: DagState) returns (out: Body)
    ensures out == MergeResults(d, h, st)
  {
    match d.strategy
    case ArrayConcat => var arr := ListTerminals(h, d.terminals, st); out := h.render(Arr(arr));
    case MergeDeep => var merged := MergeDeepTerminals(h, d.terminals, st); out := h.render(merged);
    case ExplicitMap => var fields := KeyTerminals(h, d.terminals, st); out := h.render(Obj(fields));
    case LastWins => var entries := MergeLastWins(h, d.terminals, st); out := h.bytes("{" + Join(entries) + "}");
  }

  datatype DagResult = Merge(body: Body) | Fail(err: DagError)

  /** `exec_dag`. */
  function ExecDag(d: DagTable, h: DagHost, body: Body): DagResult {
    match RunLayers(d, h, body, d.layers)
    case Going(st) => Merge(MergeResults(d, h, st))
    case Aborted(e) => Fail(e)
  }

  /** The body of a call: the loop over the parents. */
  method BuildInput(h: DagHost, ps: seq<U16>, body: Body, results: map<U16, Body>) returns (input: Option<Body>)
    ensures input == Input(h, ps, body, results)
  {
    hide DeepMerge;
    if ps == [] {
      return Some(body);
    }
    var v := h.parse(body);
    if v.None? {
      return None;
    }
    var merged := v.value;
    for k := 0 to |ps|
      invariant merged == MergeParents(h, v.value, ps[..k], results)
    {
      assert ps[..k + 1][..k] == ps[..k];
      if ps[k] in results {
        var r := h.parse(results[ps[k]]);
        if r.Some? {
          merged := MergeInto(merged, r.value);
        }
      }
    }
    assert ps[..|ps|] == ps;
    input := Some(h.render(merged));
  }

  /** The body of the inner loop for one service id. */
  method VisitNode(d: DagTable, h: DagHost, body: Body, st: DagState, id: U16) returns (r: DagRun)
    ensures r == Visit(d, h, body, st, id)
  {
    hide Input;
    var i := Find(d.nodes, id);
    if i == |d.nodes| {
      return Going(st);
    }
    var ps := d.nodes[i].parents;
    if d.policy.SkipDependents? && AnyIn(ps, st.failed) {
      return Going(st.(failed := st.failed + {id}));
    }
    var input := BuildInput(h, ps, body, st.results);
    if input.None? {
      return Aborted(UnparsableBody(id));
    }
    var timeout := if i < |d.timeouts| then d.timeouts[i] else 0;
    var reply := h.call(id, input.value, timeout);
    var calls := st.calls + [Call(id, input.value, reply)];
    match reply
    case Ok(data) => r := Going(DagState(st.results[id := data], st.failed, calls));
    case Fault(e) =>
      r := if d.policy.AbortAll? then Aborted(CallFailed(id, e))
        else Going(DagState(st.results, st.failed + {id}, calls));
  }

  /** `exec_dag`: the nested loops over layers and their nodes. */
  method Execute(d: DagTable, h: DagHost, body: Body) returns (r: DagResult)
    ensures r == ExecDag(d, h, body)
  {
    hide Visit, MergeResults;
    var st := Start;
    assert d.layers[..0] == [];
    for l := 0 to |d.layers|
      invariant RunLayers(d, h, body, d.layers[..l]) == Going(st)
    {
      var layer := d.layers[l];
      assert d.layers[..l + 1][..l] == d.layers[..l];
      ghost var before := st;
      for k := 0 to |layer|
        invariant VisitAll(d, h, body, before, layer[..k]) == Going(st)
      {
        assert layer[..k + 1][..k] == layer[..k];
        var step := VisitNode(d, h, body, st, layer[k]);
        if step.Aborted? {
          AbortSpreads(d, h, body, before, layer, k + 1, step.err);
          AbortSpreadsLayers(d, h, body, d.layers, l + 1, step.err);
          return Fail(step.err);
        }
        st := step.st;
      }
      assert layer[..|layer|] == layer;
    }
    assert d.layers[..|d.layers|] == d.layers;
    var out := MergeTerminals(d, h, st);
    r := Merge(out);
  }

  lemma {:induction false} AbortSpreads(d: DagTable, h: DagHost, body: Body, st: DagState, ids: seq<U16>, k: nat,
                                        e: DagError)
    requires k <= |ids| && VisitAll(d, h, body, st, ids[..k]) == Aborted(e)
    ensures VisitAll(d, h, body, st, ids) == Aborted(e)
    decreases |ids|
  {
    hide Visit;
    if k == |ids| {
      assert ids[..k] == ids;
    } else {
      assert ids[..|ids| - 1][..k] == ids[..k];
      AbortSpreads(d, h, body, st, ids[..|ids| - 1], k, e);
    }
  }

  lemma {:induction false} AbortSpreadsLayers(d: DagTable, h: DagHost, body: Body, ls: seq<seq<U16>>, k: nat,
                                              e: DagError)
    requires k <= |ls| && RunLayers(d, h, body, ls[..k]) == Aborted(e)
    ensures RunLayers(d, h, body, ls) == Aborted(e)
    decreases |ls|
  {
    hide VisitAll;
    if k == |ls| {
      assert ls[..k] == ls;
    } else {
      assert ls[..|ls| - 1][..k] == ls[..k];
      AbortSpreadsLayers(d, h, body, ls[..|ls| - 1], k, e);
    }
  }
}
