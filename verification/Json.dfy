/** JSON values and the right-biased recursive merge of runtime/src/executor/dag.rs. */
module Json {
  import opened Prelude

  datatype Json =
    | Null
    | Bool(b: bool)
    | Num(n: real)
    | Str(s: string)
    | Arr(items: seq<Json>)
    | Obj(fields: map<string, Json>)

  const Empty: Json := Obj(map[])

  function FieldOr(m: map<string, Json>, k: string, default: Json): Json {
    if k in m then m[k] else default
  }

  /** `deep_merge(a, b)`: what `a` becomes. */
  function DeepMerge(a: Json, b: Json): Json
    decreases b
  {
    if a.Obj? && b.Obj? then
      Obj(map k | k in a.fields.Keys + b.fields.Keys ::
            if k !in b.fields then a.fields[k]
            else if b.fields[k].Obj? then DeepMerge(FieldOr(a.fields, k, Empty), b.fields[k])
            else b.fields[k])
    else b
  }

  /** What the entry `k` of `b` makes of the object `a`. */
  function Entry(a: map<string, Json>, b: map<string, Json>, k: string): Json
    requires k in b
  {
    if b[k].Obj? then DeepMerge(FieldOr(a, k, Empty), b[k]) else b[k]
  }

  lemma MergeByEntries(a: Json, b: Json, out: map<string, Json>)
    requires a.Obj? && b.Obj? && out.Keys == a.fields.Keys + b.fields.Keys
    requires forall k :: k in out ==> out[k] == if k in b.fields then Entry(a.fields, b.fields, k) else a.fields[k]
    ensures DeepMerge(a, b) == Obj(out)
  {
    assert DeepMerge(a, b).fields == out;
  }

  /** The loop over the entries of `b`, in whatever order they come. */
  method MergeInto(a: Json, b: Json) returns (r: Json)
    ensures r == DeepMerge(a, b)
    decreases b
  {
    if !(a.Obj? && b.Obj?) {
      return b;
    }
    hide DeepMerge;
    var out := a.fields;
    var todo := b.fields.Keys;
    while todo != {}
      invariant todo <= b.fields.Keys
      invariant forall k :: k in out <==> k in a.fields || (k in b.fields && k !in todo)
      invariant forall k :: k in out ==>
                  out[k] == if k in b.fields && k !in todo then Entry(a.fields, b.fields, k) else a.fields[k]
      decreases todo
    {
      var k :| k in todo;
      var v := b.fields[k];
      if v.Obj? {
        v := MergeInto(FieldOr(out, k, Empty), v);
      }
      out := out[k := v];
      todo := todo - {k};
    }
    assert out.Keys == a.fields.Keys + b.fields.Keys;
    MergeByEntries(a, b, out);
    r := Obj(out);
  }

  /** The value at a path of object keys. */
  function At(j: Json, path: seq<string>): Option<Json>
    decreases |path|
  {
    if path == [] then Some(j)
    else if j.Obj? && path[0] in j.fields then At(j.fields[path[0]], path[1..])
    else None
  }

  /** Following the path leaves `j` at an object that lacks the next key. */
  predicate Leaves(j: Json, path: seq<string>)
    decreases |path|
  {
    j.Obj? && path != [] && (path[0] in j.fields ==> Leaves(j.fields[path[0]], path[1..]))
  }

  /** What a merge holds at every path: where the path leaves `b`, what `a` holds there; a leaf of
      `b` as it is; an object of `b` merged into what `a` holds there; and nothing below a leaf
      of `b`. */
  lemma {:induction false} MergedAt(a: Json, b: Json, path: seq<string>)
    ensures At(DeepMerge(a, b), path) ==
            if Leaves(b, path) then At(a, path)
            else match At(b, path)
              case Some(v) => if v.Obj? && At(a, path).Some? then Some(DeepMerge(At(a, path).value, v)) else Some(v)
              case None => None
    decreases |path|
  {
    if path != [] && a.Obj? && b.Obj? {
      var k, rest := path[0], path[1..];
      if k in b.fields {
        MergedAt(FieldOr(a.fields, k, Empty), b.fields[k], rest);
        if k !in a.fields && b.fields[k].Obj? {
          EmptyIsLeftIdentity(b.fields[k]);
        }
      }
    } else if Leaves(b, path) {
      LeavesMeansAbsent(b, path);
    }
  }

  lemma {:induction false} LeavesMeansAbsent(j: Json, path: seq<string>)
    requires Leaves(j, path)
    ensures At(j, path) == None
    decreases |path|
  {
    if path[0] in j.fields {
      LeavesMeansAbsent(j.fields[path[0]], path[1..]);
    }
  }

  /** Merging into the empty object gives the source. */
  lemma {:induction false} EmptyIsLeftIdentity(b: Json)
    ensures DeepMerge(Empty, b) == b
    decreases b
  {
    if b.Obj? {
      forall k | k in b.fields ensures DeepMerge(Empty, b).fields[k] == b.fields[k] {
        if b.fields[k].Obj? {
          EmptyIsLeftIdentity(b.fields[k]);
        }
      }
      assert DeepMerge(Empty, b).fields == b.fields;
    }
  }

  /** Merging the empty object changes no object. */
  lemma EmptyIsRightIdentity(a: Json)
    requires a.Obj?
    ensures DeepMerge(a, Empty) == a
  {
    assert DeepMerge(a, Empty).fields == a.fields;
  }

  /** Merging the same source again changes nothing. */
  lemma {:induction false} MergeIdempotent(a: Json, b: Json)
    ensures DeepMerge(DeepMerge(a, b), b) == DeepMerge(a, b)
    decreases b
  {
    var m := DeepMerge(a, b);
    if b.Obj? {
      if !a.Obj? {
        EmptyIsLeftIdentity(b);
        MergeIdempotentOn(Empty, b);
      } else {
        MergeIdempotentOn(a, b);
      }
    }
  }

  lemma {:induction false} MergeIdempotentOn(a: Json, b: Json)
    requires a.Obj? && b.Obj?
    ensures DeepMerge(DeepMerge(a, b), b) == DeepMerge(a, b)
    decreases b, 0
  {
    var m := DeepMerge(a, b);
    forall k | k in m.fields ensures DeepMerge(m, b).fields[k] == m.fields[k] {
      if k in b.fields && b.fields[k].Obj? {
        MergeIdempotent(FieldOr(a.fields, k, Empty), b.fields[k]);
      }
    }
    assert DeepMerge(m, b).fields == m.fields;
  }

  /** No path leads to different leaves, or to a leaf in one and an object in the other. */
  ghost predicate Compatible(b: Json, c: Json)
    decreases b
  {
    b == c || (b.Obj? && c.Obj? && forall k :: k in b.fields && k in c.fields ==> Compatible(b.fields[k], c.fields[k]))
  }

  /** Two sources merge into each other the same way round and about exactly when they do not
      conflict. */
  lemma {:induction false} CommuteIff(b: Json, c: Json)
    ensures DeepMerge(b, c) == DeepMerge(c, b) <==> Compatible(b, c)
    decreases b
  {
    if b.Obj? && c.Obj? {
      var x, y := DeepMerge(b, c), DeepMerge(c, b);
      assert x.fields.Keys == y.fields.Keys;
      forall k | k in b.fields && k in c.fields
        ensures x.fields[k] == y.fields[k] <==> Compatible(b.fields[k], c.fields[k])
      {
        CommuteIff(b.fields[k], c.fields[k]);
      }
      forall k | k in x.fields && !(k in b.fields && k in c.fields) ensures x.fields[k] == y.fields[k] {
        EmptyIsLeftIdentity(FieldOr(b.fields, k, Empty));
        EmptyIsLeftIdentity(FieldOr(c.fields, k, Empty));
      }
      if b != c {
        if Compatible(b, c) {
          assert x.fields == y.fields;
        } else {
          var k :| k in b.fields && k in c.fields && !Compatible(b.fields[k], c.fields[k]);
          assert x.fields[k] != y.fields[k];
        }
      }
    }
  }

  /** Two sources can be merged into a value in either order exactly if they do not conflict, whatever
      the value is. */
  lemma {:induction false} MergeInEitherOrder(a: Json, b: Json, c: Json)
    ensures DeepMerge(DeepMerge(a, b), c) == DeepMerge(DeepMerge(a, c), b) <==> Compatible(b, c)
    decreases b, 1
  {
    if b != c && b.Obj? && c.Obj? {
      if a.Obj? {
        EitherOrderOn(a, b, c);
      } else {
        EmptyIsLeftIdentity(b);
        EmptyIsLeftIdentity(c);
        EitherOrderOn(Empty, b, c);
      }
    }
  }

  lemma {:induction false} EitherOrderOn(a: Json, b: Json, c: Json)
    requires a.Obj? && b.Obj? && c.Obj? && b != c
    ensures DeepMerge(DeepMerge(a, b), c) == DeepMerge(DeepMerge(a, c), b) <==> Compatible(b, c)
    decreases b, 0
  {
    var x, y := DeepMerge(DeepMerge(a, b), c), DeepMerge(DeepMerge(a, c), b);
    assert x.fields.Keys == y.fields.Keys;
    forall k | k in x.fields
      ensures x.fields[k] == y.fields[k] <==> (k in b.fields && k in c.fields ==> Compatible(b.fields[k], c.fields[k]))
    {
      if k in b.fields && k in c.fields {
        MergeInEitherOrder(FieldOr(a.fields, k, Empty), b.fields[k], c.fields[k]);
      }
    }
    if Compatible(b, c) {
      assert x.fields == y.fields;
    } else {
      var k :| k in b.fields && k in c.fields && !Compatible(b.fields[k], c.fields[k]);
      assert x.fields[k] != y.fields[k];
    }
  }
}
