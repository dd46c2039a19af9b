/** The execution-record store and its status index (server/internal/execstate/filestore.go). */
module FileStore {
  import opened Prelude
  import opened Driver

  /** A stored execution: its status and its creation time; the rest does not matter here. */
  datatype Entry = Entry(id: string, status: Status, createdAt: int)

  type Files = map<string, Entry>
  type Index = map<Status, set<string>>

  function Ids(ix: Index, s: Status): set<string> {
    if s in ix then ix[s] else {}
  }

  /** Every stored record that is past creation is indexed under its status. */
  ghost predicate Covers(files: Files, ix: Index) {
    forall id :: id in files && !files[id].status.Created? ==> id in Ids(ix, files[id].status)
  }

  /** The index holds each record under its status and under no other. */
  ghost predicate Exact(files: Files, ix: Index) {
    forall id, s :: id in Ids(ix, s) <==> id in files && files[id].status == s
  }

  /** What `getStatusFromIndex` may return: map iteration visits the statuses in any order, and
      the zero value, which is `Created`, doubles as "not found". */
  predicate MayReport(ix: Index, id: string, s: Status) {
    id in Ids(ix, s) || (s.Created? && forall t :: t in ix ==> id !in ix[t])
  }

  function Indexed(ix: Index, id: string, s: Status): Index {
    ix[s := Ids(ix, s) + {id}]
  }

  function Unindexed(ix: Index, id: string): Index {
    map s | s in ix :: ix[s] - {id}
  }

  /** `updateIndex`: no change under the reported status, and a record reported as `Created` is
      never taken out of its old bucket. */
  function Moved(ix: Index, id: string, was: Status, now: Status): Index {
    if was == now then ix
    else Indexed(if !was.Created? && was in ix then ix[was := ix[was] - {id}] else ix, id, now)
  }

  /** Saving keeps every live record covered, whatever status the index reports. */
  lemma SaveKeepsCover(files: Files, ix: Index, e: Entry, was: Status)
    requires Covers(files, ix) && MayReport(ix, e.id, was)
    ensures Covers(files[e.id := e], Moved(ix, e.id, was, e.status))
  {}

  /** Saving into an exact index leaves it exact if and only if it neither moves a record out of
      `Created` nor stores a new one as `Created`. */
  lemma SaveExactIff(files: Files, ix: Index, e: Entry, was: Status)
    requires Exact(files, ix) && MayReport(ix, e.id, was)
    ensures Exact(files[e.id := e], Moved(ix, e.id, was, e.status)) <==>
            if e.id in files then files[e.id].status.Created? ==> e.status.Created? else !e.status.Created?
  {
    var ix' := Moved(ix, e.id, was, e.status);
    if e.id in files {
      assert e.id in Ids(ix, files[e.id].status);
      assert was == files[e.id].status;
      if was.Created? && !e.status.Created? {
        assert e.id in Ids(ix', Created) && files[e.id := e][e.id].status != Created;
      }
    } else {
      assert was.Created?;
      assert forall s :: e.id !in Ids(ix, s);
      if e.status.Created? {
        assert e.id !in Ids(ix', Created) && files[e.id := e][e.id].status == Created;
      }
    }
    if (if e.id in files then files[e.id].status.Created? ==> e.status.Created? else !e.status.Created?) {
      forall id, s ensures id in Ids(ix', s) <==> id in files[e.id := e] && files[e.id := e][id].status == s {
        assert id in Ids(ix, s) <==> id in files && files[id].status == s;
      }
    }
  }

  /** Creating and deleting keep an exact index exact. */
  lemma CreateDeleteKeepExact(files: Files, ix: Index, e: Entry, id: string)
    requires Exact(files, ix)
    ensures e.id !in files ==> Exact(files[e.id := e], Indexed(ix, e.id, e.status))
    ensures Exact(files - {id}, Unindexed(ix, id))
  {
    forall x, s ensures x in Ids(Unindexed(ix, id), s) <==> x in files - {id} && (files - {id})[x].status == s {
      assert x in Ids(ix, s) <==> x in files && files[x].status == s;
    }
    if e.id !in files {
      var more := files[e.id := e];
      forall x, s ensures x in Ids(Indexed(ix, e.id, e.status), s) <==> x in more && more[x].status == s {
        assert x in Ids(ix, s) <==> x in files && files[x].status == s;
      }
    }
  }

  /** How often a record comes up when the buckets of these statuses are listed. */
  function Hits(ix: Index, statuses: seq<Status>, id: string): nat {
    if statuses == [] then 0
    else Hits(ix, statuses[..|statuses| - 1], id) + if id in Ids(ix, statuses[|statuses| - 1]) then 1 else 0
  }

  /** The buckets that hold a record. */
  function Buckets(ix: Index, id: string): set<Status> {
    set s | s in ix && id in ix[s]
  }

  /** How often a record comes up in a listing; no statuses at all means every bucket. */
  function Listings(ix: Index, statuses: seq<Status>, id: string): nat {
    if statuses == [] then |Buckets(ix, id)| else Hits(ix, statuses, id)
  }

  lemma {:induction false} HitsCountBuckets(ix: Index, statuses: seq<Status>, id: string)
    requires Distinct(statuses)
    ensures Hits(ix, statuses, id) == |set s | s in statuses && id in Ids(ix, s)|
    decreases |statuses|
  {
    if statuses != [] {
      var n := |statuses| - 1;
      var init, last := statuses[..n], statuses[n];
      HitsCountBuckets(ix, init, id);
      assert statuses == init + [last];
      var before, now := set s | s in init && id in Ids(ix, s), set s | s in statuses && id in Ids(ix, s);
      assert last !in before;
      assert now == if id in Ids(ix, last) then before + {last} else before;
    }
  }

  /** Listing every bucket of the index once finds a record as often as it is indexed. */
  lemma EveryBucket(ix: Index, statuses: seq<Status>, id: string)
    requires Distinct(statuses) && forall s :: s in statuses <==> s in ix
    ensures Hits(ix, statuses, id) == |Buckets(ix, id)|
  {
    HitsCountBuckets(ix, statuses, id);
    assert (set s | s in statuses && id in Ids(ix, s)) == Buckets(ix, id);
  }

  /** A covered index never misses a record that is past creation, asked for by status or with all
      others. */
  lemma AlwaysListed(files: Files, ix: Index, statuses: seq<Status>, id: string)
    requires Covers(files, ix) && id in files && !files[id].status.Created?
    requires statuses == [] || files[id].status in statuses
    ensures Listings(ix, statuses, id) >= 1
  {
    if statuses == [] {
      assert files[id].status in Buckets(ix, id);
    } else {
      NeverMissed(files, ix, statuses, id);
    }
  }

  /** A covered index never misses a record that is past creation. */
  lemma {:induction false} NeverMissed(files: Files, ix: Index, statuses: seq<Status>, id: string)
    requires Covers(files, ix) && id in files && !files[id].status.Created? && files[id].status in statuses
    ensures Hits(ix, statuses, id) >= 1
  {
    var n := |statuses| - 1;
    if files[id].status != statuses[n] {
      NeverMissed(files, ix, statuses[..n], id);
    }
  }

  /** An exact index lists the records with the given statuses, each once. */
  lemma {:induction false} ListedOnce(files: Files, ix: Index, statuses: seq<Status>, id: string)
    requires Exact(files, ix) && Distinct(statuses)
    ensures Hits(ix, statuses, id) == if id in files && files[id].status in statuses then 1 else 0
  {
    if statuses != [] {
      var n := |statuses| - 1;
      assert id in Ids(ix, statuses[n]) <==> id in files && files[id].status == statuses[n];
      assert statuses == statuses[..n] + [statuses[n]];
      ListedOnce(files, ix, statuses[..n], id);
    }
  }

  /** One store operation; `was` is the status that the index happened to report to a save. */
  datatype Op = Create(e: Entry) | Save(e: Entry, was: Status) | Delete(id: string)

  datatype State = State(files: Files, index: Index)

  predicate Possible(st: State, op: Op) {
    op.Save? ==> MayReport(st.index, op.e.id, op.was)
  }

  function Apply(st: State, op: Op): State {
    match op
    case Create(e) => if e.id in st.files then st else State(st.files[e.id := e], Indexed(st.index, e.id, e.status))
    case Save(e, was) => State(st.files[e.id := e], Moved(st.index, e.id, was, e.status))
    case Delete(id) => State(st.files - {id}, Unindexed(st.index, id))
  }

  ghost predicate PossibleRun(st: State, ops: seq<Op>)
    decreases |ops|
  {
    ops == [] || (Possible(st, ops[0]) && PossibleRun(Apply(st, ops[0]), ops[1..]))
  }

  function ApplyAll(st: State, ops: seq<Op>): State
    decreases |ops|
  {
    if ops == [] then st else ApplyAll(Apply(st, ops[0]), ops[1..])
  }

  /** Recovery never misses a live execution: after any operations, whatever the index reported
      to each save, every stored record that is running or waiting is listed. */
  lemma {:induction false} LiveAlwaysListed(st: State, ops: seq<Op>, id: string)
    requires Covers(st.files, st.index) && PossibleRun(st, ops)
    requires var end := ApplyAll(st, ops);
             id in end.files && (end.files[id].status.Running? || end.files[id].status.WaitingForService?)
    ensures Hits(ApplyAll(st, ops).index, [Running, WaitingForService], id) >= 1
    decreases |ops|
  {
    if ops == [] {
      NeverMissed(st.files, st.index, [Running, WaitingForService], id);
    } else {
      if ops[0].Save? {
        SaveKeepsCover(st.files, st.index, ops[0].e, ops[0].was);
      }
      LiveAlwaysListed(Apply(st, ops[0]), ops[1..], id);
    }
  }

  /** The index does go stale: an execution that is created, starts running and then waits can be
      listed twice among the live ones, because its `Created` entry is never removed and may be
      the one that is reported. */
  lemma LiveListedTwice(id: string)
    ensures var i0 := Indexed(map[], id, Created);
            var i1 := Moved(i0, id, Created, Running);
            var i2 := Moved(i1, id, Created, WaitingForService);
            && MayReport(i0, id, Created) && MayReport(i1, id, Created)
            && Hits(i2, [Running, WaitingForService], id) == 2
  {
    var i2 := Moved(Moved(Indexed(map[], id, Created), id, Created, Running), id, Created, WaitingForService);
    assert [Running, WaitingForService][..1] == [Running] && [Running][..0] == [];
    assert Hits(i2, [Running], id) == 1;
  }

  /** `buildIndex`: one pass over the files, in directory order. */
  method BuildIndex(found: Files) returns (ix: Index)
    ensures Exact(found, ix)
  {
    ix := map[];
    assert forall s :: Ids(ix, s) == {};
    var todo := found.Keys;
    while todo != {}
      invariant todo <= found.Keys
      invariant forall x, s :: x in Ids(ix, s) <==> x in found && x !in todo && found[x].status == s
      decreases |todo|
    {
      var id :| id in todo;
      var ix' := Indexed(ix, id, found[id].status);
      forall x, s ensures x in Ids(ix', s) <==> x in Ids(ix, s) || (x == id && s == found[id].status) {
      }
      ix := ix';
      todo := todo - {id};
    }
  }

  class Store {
    var files: Files
    var index: Index

    ghost predicate Valid()
      reads this
    {
      Covers(files, index) && forall id :: id in files ==> files[id].id == id
    }

    /** `NewFileStore`: the index is rebuilt from the files found at start-up. */
    constructor (found: Files)
      requires forall id :: id in found ==> found[id].id == id
      ensures Valid() && files == found && Exact(files, index)
    {
      var ix := BuildIndex(found);
      files, index := found, ix;
    }

    method Create(e: Entry) returns (ok: bool)
      requires Valid()
      modifies this
      ensures Valid() && ok == (e.id !in old(files))
      ensures State(files, index) == Apply(State(old(files), old(index)), Op.Create(e))
      ensures files == if ok then old(files)[e.id := e] else old(files)
    {
      ok := e.id !in files;
      if ok {
        files := files[e.id := e];
        index := Indexed(index, e.id, e.status);
      }
    }

    /** `getStatusFromIndex`: whichever bucket holding the id comes up first. */
    method ReportedStatus(id: string) returns (s: Status)
      ensures MayReport(index, id, s)
    {
      var todo := index.Keys;
      while todo != {}
        invariant todo <= index.Keys
        invariant forall t :: t in index && t !in todo ==> id !in index[t]
        decreases |todo|
      {
        s :| s in todo;
        if id in index[s] {
          return;
        }
        todo := todo - {s};
      }
      s := Created;
    }

    method Save(e: Entry)
      requires Valid()
      modifies this
      ensures Valid() && files == old(files)[e.id := e]
      ensures exists was :: MayReport(old(index), e.id, was) &&
                State(files, index) == Apply(State(old(files), old(index)), Op.Save(e, was))
    {
      var was := ReportedStatus(e.id);
      SaveKeepsCover(files, index, e, was);
      files := files[e.id := e];
      index := Moved(index, e.id, was, e.status);
    }

    method Delete(id: string)
      requires Valid()
      modifies this
      ensures Valid() && State(files, index) == Apply(State(old(files), old(index)), Op.Delete(id))
      ensures files == old(files) - {id} && forall s :: s in index ==> id !in index[s]
    {
      files := files - {id};
      index := Unindexed(index, id);
    }

    /** `ListByStatus`: the stored records, oldest first, each as often as the listed buckets hold it,
        so every record past creation whose status is asked for is there. */
    method ListByStatus(statuses: seq<Status>) returns (found: seq<Entry>)
      requires Valid()
      ensures forall e :: multiset(found)[e] ==
                if e.id in files && files[e.id] == e then Listings(index, statuses, e.id) else 0
      ensures Sorted(found)
      ensures forall id ::
                id in files && !files[id].status.Created? && (statuses == [] || files[id].status in statuses) ==>
                files[id] in found
    {
      var wanted := statuses;
      if statuses == [] {
        wanted := BucketsInOrder();
      }
      found := [];
      for k := 0 to |wanted|
        invariant forall e :: multiset(found)[e] ==
                    if e.id in files && files[e.id] == e then Hits(index, wanted[..k], e.id) else 0
        invariant Sorted(found)
      {
        assert wanted[..k + 1][..k] == wanted[..k];
        found := Collect(found, Ids(index, wanted[k]));
      }
      assert wanted[..|wanted|] == wanted;
      forall e: Entry ensures Hits(index, wanted, e.id) == Listings(index, statuses, e.id) {
        if statuses == [] {
          EveryBucket(index, wanted, e.id);
        }
      }
      forall id | id in files && !files[id].status.Created? && (statuses == [] || files[id].status in statuses)
        ensures files[id] in found
      {
        AlwaysListed(files, index, statuses, id);
        assert files[id] in multiset(found);
      }
    }

    /** The buckets of the index, in map order. */
    method BucketsInOrder() returns (ss: seq<Status>)
      ensures Distinct(ss) && forall s :: s in ss <==> s in index
    {
      ss := [];
      var todo := index.Keys;
      while todo != {}
        invariant todo <= index.Keys && Distinct(ss)
        invariant forall s :: s in ss <==> s in index && s !in todo
        decreases todo
      {
        var s :| s in todo;
        ss := ss + [s];
        todo := todo - {s};
      }
    }

    /** What recovery picks up: every live execution; and exactly these, each once, if the index is
        exact, as it is after a start. */
    method ListLive() returns (found: seq<Entry>)
      requires Valid()
      ensures forall id :: id in files && (files[id].status.Running? || files[id].status.WaitingForService?) ==>
                files[id] in found
      ensures forall e :: e in found ==> e.id in files && files[e.id] == e
      ensures Exact(files, index) ==>
                forall e :: multiset(found)[e] ==
                  if e.id in files && files[e.id] == e && (e.status.Running? || e.status.WaitingForService?)
                  then 1 else 0
    {
      var live := [Running, WaitingForService];
      found := ListByStatus(live);
      forall e | e in found ensures e.id in files && files[e.id] == e {
        assert e in multiset(found);
      }
      if Exact(files, index) {
        forall e: Entry
          ensures Hits(index, live, e.id) == if e.id in files && files[e.id].status in live then 1 else 0
        {
          ListedOnce(files, index, live, e.id);
        }
      }
    }

    method Collect(found: seq<Entry>, ids: set<string>) returns (more: seq<Entry>)
      requires Valid() && Sorted(found)
      ensures Sorted(more)
      ensures forall e :: multiset(more)[e] ==
                multiset(found)[e] + if e.id in ids && e.id in files && files[e.id] == e then 1 else 0
    {
      more := found;
      var todo := ids;
      while todo != {}
        invariant todo <= ids && Sorted(more)
        invariant forall e :: multiset(more)[e] ==
                    multiset(found)[e] + if e.id in ids - todo && e.id in files && files[e.id] == e then 1 else 0
        decreases |todo|
      {
        var id :| id in todo;
        if id in files {
          InsertByAgeSpec(more, files[id]);
          more := InsertByAge(more, files[id]);
        }
        todo := todo - {id};
      }
    }
  }

  predicate Sorted(es: seq<Entry>) {
    forall i, j :: 0 <= i < j < |es| ==> es[i].createdAt <= es[j].createdAt
  }

  /** How many of the entries from `i` on are no younger than `e`. */
  function Older(es: seq<Entry>, e: Entry, i: nat): (p: nat)
    requires i <= |es|
    ensures i <= p <= |es|
    ensures forall k :: i <= k < p ==> es[k].createdAt <= e.createdAt
    ensures p < |es| ==> e.createdAt < es[p].createdAt
    decreases |es| - i
  {
    if i == |es| || e.createdAt < es[i].createdAt then i else Older(es, e, i + 1)
  }

  lemma InsertKeepsOrder(es: seq<Entry>, e: Entry, p: nat)
    requires Sorted(es) && p <= |es|
    requires forall k :: 0 <= k < p ==> es[k].createdAt <= e.createdAt
    requires p < |es| ==> e.createdAt < es[p].createdAt
    ensures Sorted(es[..p] + [e] + es[p..])
  {
    var r := es[..p] + [e] + es[p..];
    forall i, j | 0 <= i < j < |r| ensures r[i].createdAt <= r[j].createdAt {
      assert r[i] == if i < p then es[i] else if i == p then e else es[i - 1];
      assert r[j] == if j < p then es[j] else if j == p then e else es[j - 1];
    }
  }

  function InsertByAge(es: seq<Entry>, e: Entry): seq<Entry> {
    var p := Older(es, e, 0);
    es[..p] + [e] + es[p..]
  }

  lemma InsertByAgeSpec(es: seq<Entry>, e: Entry)
    requires Sorted(es)
    ensures Sorted(InsertByAge(es, e)) && multiset(InsertByAge(es, e)) == multiset(es) + multiset{e}
  {
    hide Sorted;
    var p := Older(es, e, 0);
    InsertKeepsOrder(es, e, p);
    assert es == es[..p] + es[p..];
  }
}
