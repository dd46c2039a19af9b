/** What a node does when it starts again (`recoverInFlight` in server/internal/node/recovery.go). */
module Restart {
  import opened Prelude
  import opened Driver
  import Recovery
  import opened Node
  import FileStore

  /** The record store lists the node's records, with their statuses. */
  ghost predicate Mirrors(files: FileStore.Files, store: map<string, Record>) {
    files.Keys == store.Keys && forall id :: id in files ==> files[id].id == id && files[id].status == store[id].status
  }

  predicate InFlight(r: Record) {
    r.status.Running? || r.status.WaitingForService?
  }

  predicate Live(e: FileStore.Entry) {
    e.status.Running? || e.status.WaitingForService?
  }

  /** What becomes of a record: untouched unless in flight; else deleted if its recovery completes and
      marked as failed if not. */
  ghost predicate Settled(w: World, before: map<string, Record>, after: map<string, Record>, id: string) {
    if id !in before then id !in after
    else if !InFlight(before[id]) then id in after && after[id] == before[id]
    else if Recover(w, before[id]).end.Output? then id !in after
    else id in after && after[id].status == Status.Failed
  }

  /** The ids to recover, from a store that has just been opened: those in flight, each once. */
  method ListInFlight(files: FileStore.Store) returns (order: seq<string>)
    requires files.Valid() && FileStore.Exact(files.files, files.index)
    ensures Distinct(order) && forall id :: id in order <==> id in files.files && Live(files.files[id])
  {
    hide FileStore.Exact;
    var found := files.ListLive();
    order := Ids(found);
    forall e | e in found ensures Live(e) {
      assert e in multiset(found);
    }
    ListedOnce(files.files, found);
    ListedLive(files.files, found);
  }

  /** The loop over the listed executions, each recovered on its own. */
  method RecoverAll(node: Runner, order: seq<string>)
    requires Distinct(order) && forall id :: id in order ==> id in node.store && InFlight(node.store[id])
    modifies node, node.saga
    ensures Partway(node.world, old(node.store), node.store, order)
  {
    hide Recover, Settled, Partway;
    ghost var before := node.store;
    NothingDone(node.world, before, order);
    for k := 0 to |order|
      invariant Partway(node.world, before, node.store, order[..k])
    {
      ghost var mid := node.store;
      var id := order[k];
      StillThere(node.world, before, mid, order[..k], id);
      var end := node.RecoverExecution(id);
      assert order[..k + 1] == order[..k] + [id];
      OneMoreDone(node.world, before, mid, node.store, order[..k], id);
    }
    assert order[..|order|] == order;
  }

  /** `recoverInFlight` on a store that has just been opened: every execution in flight is recovered
      exactly once, whatever the order, and each ends as its own recovery says. `order` lists them
      as they were recovered. */
  method RecoverInFlight(node: Runner, files: FileStore.Store) returns (order: seq<string>)
    requires files.Valid() && FileStore.Exact(files.files, files.index) && Mirrors(files.files, node.store)
    modifies node, node.saga
    ensures Distinct(order) && forall id :: id in order <==> id in old(node.store) && InFlight(old(node.store)[id])
    ensures forall id :: Settled(node.world, old(node.store), node.store, id)
  {
    hide Recover, Settled, Partway, FileStore.Exact;
    order := ListInFlight(files);
    RecoverAll(node, order);
    AllDone(node.world, old(node.store), node.store, order);
  }

  /** The recoveries of `done` are over and nothing else has changed. */
  ghost predicate Partway(w: World, before: map<string, Record>, now: map<string, Record>, done: seq<string>) {
    && (forall id :: id in done ==> Settled(w, before, now, id))
    && (forall id :: id !in done ==> (id in now <==> id in before) && (id in before ==> now[id] == before[id]))
  }

  lemma NothingDone(w: World, before: map<string, Record>, order: seq<string>)
    ensures Partway(w, before, before, order[..0])
  {
  }

  lemma StillThere(w: World, before: map<string, Record>, now: map<string, Record>, done: seq<string>, id: string)
    requires Partway(w, before, now, done) && id !in done && id in before
    ensures id in now && now[id] == before[id]
  {
    hide Settled;
  }

  lemma OneMoreDone(w: World, before: map<string, Record>, mid: map<string, Record>, now: map<string, Record>,
                    done: seq<string>, id: string)
    requires Partway(w, before, mid, done) && id !in done && id in before && InFlight(before[id])
    requires mid - {id} == now - {id}
    requires if Recover(w, before[id]).end.Output? then id !in now else id in now && now[id].status == Status.Failed
    ensures Partway(w, before, now, done + [id])
  {
    hide Recover;
    forall x | x != id ensures (x in now <==> x in mid) && (x in now ==> now[x] == mid[x]) {
      SameElsewhere(now, mid, id, x);
    }
    forall x | x in done + [id] ensures Settled(w, before, now, x) {
      if x in done {
        assert Settled(w, before, mid, x);
      }
    }
  }

  lemma AllDone(w: World, before: map<string, Record>, now: map<string, Record>, done: seq<string>)
    requires Partway(w, before, now, done) && forall id :: id in before && InFlight(before[id]) ==> id in done
    ensures forall id :: Settled(w, before, now, id)
  {
    hide Recover;
  }

  function Ids(es: seq<FileStore.Entry>): (r: seq<string>)
    ensures |r| == |es| && forall i :: 0 <= i < |es| ==> r[i] == es[i].id
  {
    if es == [] then [] else Ids(es[..|es| - 1]) + [es[|es| - 1].id]
  }

  lemma SameElsewhere(a: map<string, Record>, b: map<string, Record>, id: string, x: string)
    requires a - {id} == b - {id} && x != id
    ensures (x in a <==> x in b) && (x in a ==> a[x] == b[x])
  {
    assert x in a <==> x in a - {id};
    assert x in b <==> x in b - {id};
    if x in a {
      assert a[x] == (a - {id})[x];
    }
  }

  lemma ListedOnce(files: FileStore.Files, found: seq<FileStore.Entry>)
    requires forall e :: e in found ==> e.id in files && files[e.id] == e
    requires forall e :: multiset(found)[e] <= 1
    ensures Distinct(Ids(found))
  {
    var order := Ids(found);
    forall i, j | 0 <= i < j < |order| ensures order[i] != order[j] {
      if order[i] == order[j] {
        TwiceCounts(found, i, j);
        assert false;
      }
    }
  }

  lemma ListedLive(files: FileStore.Files, found: seq<FileStore.Entry>)
    requires forall id :: id in files && Live(files[id]) ==> files[id] in found && files[id].id == id
    requires forall e :: e in found ==> e.id in files && files[e.id] == e && Live(e)
    ensures forall id :: id in Ids(found) <==> id in files && Live(files[id])
  {
    var order := Ids(found);
    forall id | id in order ensures id in files && Live(files[id]) {
      var i :| 0 <= i < |order| && order[i] == id;
      assert found[i] in found;
    }
    forall id | id in files && Live(files[id]) ensures id in order {
      var i :| 0 <= i < |found| && found[i] == files[id];
      assert order[i] == id;
    }
  }

  lemma TwiceCounts(found: seq<FileStore.Entry>, i: nat, j: nat)
    requires i < j < |found| && found[i] == found[j]
    ensures multiset(found)[found[i]] >= 2
  {
    assert found == found[..i] + [found[i]] + found[i + 1..j] + [found[j]] + found[j + 1..];
  }

  /** Every record that a crash of a completing execution can leave, however often its recoveries crashed,
      is in flight, and a restart completes and deletes it. */
  lemma CrashedIsSettled(w: World, plain: bool, r: Record, out: Body, before: map<string, Record>,
                         after: map<string, Record>, id: string)
    requires Recovery.Sound(w, plain, r, out) && id in before && before[id] == r && Settled(w, before, after, id)
    ensures InFlight(r) && id !in after
  {
    hide Recover, Recovery.Replay, Recovery.Waits;
    Recovery.RecoverCompletes(w, plain, r, out);
  }
}
