/** The gossip table of one node (server/internal/cluster/gossip.go). */
module Gossip {
  import opened Prelude

  type Id = string

  datatype GossipState = GossipState(node: Id, addr: string, term: nat, epoch: nat)

  type Table = map<Id, GossipState>

  /** States of one node are ordered by epoch, then by term. */
  predicate Newer(s: GossipState, old_: GossipState) {
    s.epoch > old_.epoch || (s.epoch == old_.epoch && s.term > old_.term)
  }

  /** `UpdateState` on the table: a newer state replaces the entry under this key. */
  function UpdateAt(t: Table, key: Id, s: GossipState): Table {
    if key !in t || Newer(s, t[key]) then t[key := s] else t
  }

  /** Every caller files a state under its own node. */
  function Update(t: Table, s: GossipState): Table {
    UpdateAt(t, s.node, s)
  }

  /** The loop of the push and pull_resp handlers: a node skips what is said about itself. */
  function Absorb(t: Table, me: Id, states: seq<GossipState>): Table
    decreases |states|
  {
    if states == [] then t
    else
      var rest := Absorb(t, me, states[..|states| - 1]);
      var s := states[|states| - 1];
      if s.node == me then rest else Update(rest, s)
  }

  /** Everything a node knows: its table and its own state. */
  function Known(t: Table, me: GossipState): Table {
    t[me.node := me]
  }

  /** One node: its table, its own state, and the nodes announced to the join callback, in order. */
  datatype Node = Node(table: Table, me: GossipState, joins: seq<Id>)

  /** A node processes one state of a push or a pull_resp. */
  function Learn(n: Node, s: GossipState): Node {
    if s.node == n.me.node then n
    else Node(Update(n.table, s), n.me, n.joins + if s.node in n.table then [] else [s.node])
  }

  /** What a pull request asks for: the epochs the requester has. */
  function Epochs(t: Table): map<Id, nat> {
    map id | id in t :: t[id].epoch
  }

  /** The entries a responder sends: those the requester lacks or has at a lower epoch. */
  predicate Missing(epochs: map<Id, nat>, id: Id, s: GossipState) {
    id !in epochs || epochs[id] < s.epoch
  }

  /* ---- the table is a join ---- */

  /** No two distinct states of a node share epoch and term. */
  ghost predicate Unambiguous(states: set<GossipState>) {
    forall a, b :: a in states && b in states && a.node == b.node && a.epoch == b.epoch && a.term == b.term ==> a == b
  }

  ghost predicate Keyed(t: Table) {
    forall id :: id in t ==> t[id].node == id
  }

  /** What went into a table: its old entries and the states absorbed, except those about `me`. */
  function Inputs(t: Table, me: Id, states: seq<GossipState>): set<GossipState> {
    t.Values + set s | s in states && s.node != me
  }

  /** The table holds, for every node among the inputs, one of its newest states, and nothing
      else. */
  ghost predicate Join(x: Table, inputs: set<GossipState>) {
    && Keyed(x)
    && (forall s :: s in inputs ==> s.node in x && !Newer(s, x[s.node]))
    && (forall id :: id in x ==> x[id] in inputs)
  }

  lemma JoinOneMore(x: Table, inputs: set<GossipState>, s: GossipState)
    requires Join(x, inputs)
    ensures Join(Update(x, s), inputs + {s})
  {}

  /** Absorbing joins the absorbed states into the table. */
  lemma {:induction false} AbsorbIsJoin(t: Table, me: Id, states: seq<GossipState>)
    requires Keyed(t)
    ensures Join(Absorb(t, me, states), Inputs(t, me, states))
    decreases |states|
  {
    hide Join;
    if states == [] {
      assert Inputs(t, me, []) == t.Values;
      TableJoinsItself(t);
    } else {
      var init, s := states[..|states| - 1], states[|states| - 1];
      AbsorbIsJoin(t, me, init);
      assert states == init + [s];
      if s.node == me {
        assert Inputs(t, me, states) == Inputs(t, me, init);
      } else {
        assert Inputs(t, me, states) == Inputs(t, me, init) + {s};
        JoinOneMore(Absorb(t, me, init), Inputs(t, me, init), s);
      }
    }
  }

  lemma TableJoinsItself(t: Table)
    requires Keyed(t)
    ensures Join(t, t.Values)
  {}

  /** The entry held is of the highest epoch received, and among those of the highest term. */
  lemma HeldIsNewest(t: Table, me: Id, states: seq<GossipState>, s: GossipState)
    requires Keyed(t) && s.node != me && (s in states || (s.node in t && t[s.node] == s))
    ensures var r := Absorb(t, me, states);
            && s.node in r && r[s.node].node == s.node
            && (r[s.node].epoch > s.epoch || (r[s.node].epoch == s.epoch && r[s.node].term >= s.term))
  {
    AbsorbIsJoin(t, me, states);
    assert s in Inputs(t, me, states);
    hide Absorb;
  }

  ghost predicate SameMembers(a: seq<GossipState>, b: seq<GossipState>) {
    forall s :: s in a <==> s in b
  }

  /** Two distinct states of one other node that share epoch and term, are news to the table, and are
      outranked by none of the list. */
  predicate Tie(t: Table, me: Id, a: seq<GossipState>, x: GossipState, y: GossipState) {
    && x in a && y in a && x != y && x.node == y.node != me && x.epoch == y.epoch && x.term == y.term
    && (x.node in t ==> Newer(x, t[x.node]))
    && forall z :: z in a && z.node == x.node ==> !Newer(z, x)
  }

  ghost predicate NoTie(t: Table, me: Id, a: seq<GossipState>) {
    forall x, y :: !Tie(t, me, a, x, y)
  }

  /** An entry is only ever replaced by newer ones. */
  lemma {:induction false} KeptOrNewer(t: Table, me: Id, states: seq<GossipState>, id: Id)
    requires id in t
    ensures var r := Absorb(t, me, states); id in r && (r[id] == t[id] || Newer(r[id], t[id]))
    decreases |states|
  {
    if states != [] {
      KeptOrNewer(t, me, states[..|states| - 1], id);
    }
  }

  /** Any order and any repetition of the same updates gives the same table, unless they tie. */
  lemma AbsorbOrderIrrelevant(t: Table, me: Id, a: seq<GossipState>, b: seq<GossipState>)
    requires Keyed(t) && SameMembers(a, b) && NoTie(t, me, a)
    ensures Absorb(t, me, a) == Absorb(t, me, b)
  {
    assert Inputs(t, me, a) == Inputs(t, me, b);
    AbsorbIsJoin(t, me, a);
    AbsorbIsJoin(t, me, b);
    hide Absorb;
    var x, y := Absorb(t, me, a), Absorb(t, me, b);
    forall id ensures id in x <==> id in y {
      if id in x {
        assert x[id] in Inputs(t, me, a);
      }
      if id in y {
        assert y[id] in Inputs(t, me, a);
      }
    }
    forall id | id in x ensures x[id] == y[id] {
      SameEntry(t, me, a, b, id);
    }
  }

  lemma SameEntry(t: Table, me: Id, a: seq<GossipState>, b: seq<GossipState>, id: Id)
    requires Keyed(t) && SameMembers(a, b) && NoTie(t, me, a)
    requires var inputs := Inputs(t, me, a); Join(Absorb(t, me, a), inputs) && Join(Absorb(t, me, b), inputs)
    requires id in Absorb(t, me, a) && id in Absorb(t, me, b)
    ensures Absorb(t, me, a)[id] == Absorb(t, me, b)[id]
  {
    hide Absorb;
    var x, y := Absorb(t, me, a)[id], Absorb(t, me, b)[id];
    assert x in Inputs(t, me, a) && y in Inputs(t, me, a) && x.node == y.node == id;
    assert !Newer(x, y) && !Newer(y, x);
    if id in t {
      KeptOrNewer(t, me, a, id);
      KeptOrNewer(t, me, b, id);
    }
    if x != y {
      TieOf(t, me, a, x, y);
      assert false;
    }
  }

  lemma TieOf(t: Table, me: Id, a: seq<GossipState>, x: GossipState, y: GossipState)
    requires Keyed(t) && x in Inputs(t, me, a) && y in Inputs(t, me, a) && x.node == y.node && x != y
    requires x.node in t ==> (x == t[x.node] || Newer(x, t[x.node])) && (y == t[x.node] || Newer(y, t[x.node]))
    requires forall z :: z in Inputs(t, me, a) && z.node == x.node ==> !Newer(z, x) && !Newer(z, y)
    ensures Tie(t, me, a, x, y)
  {
    forall z | z in a && z.node == x.node && z.node != me ensures !Newer(z, x) {
      assert z in Inputs(t, me, a);
    }
  }

  /** The first of a tie stays. */
  lemma {:induction false} FirstOfTieStays(t: Table, me: Id, x: GossipState, rest: seq<GossipState>)
    requires x.node != me && (x.node in t ==> Newer(x, t[x.node]))
    requires forall z :: z in rest && z.node == x.node ==> !Newer(z, x)
    ensures var r := Absorb(t, me, [x] + rest); x.node in r && r[x.node] == x
    decreases |rest|
  {
    var s := [x] + rest;
    if rest == [] {
      assert s[..|s| - 1] == [] && s[|s| - 1] == x;
    } else {
      assert s[..|s| - 1] == [x] + rest[..|rest| - 1] && s[|s| - 1] == rest[|rest| - 1];
      FirstOfTieStays(t, me, x, rest[..|rest| - 1]);
    }
  }

  /** A tie breaks it: whichever of the two comes first stays. */
  lemma TieOrderMatters(t: Table, me: Id, a: seq<GossipState>, x: GossipState, y: GossipState)
    requires Tie(t, me, a, x, y)
    ensures SameMembers(a, [x] + a) && SameMembers(a, [y] + a) && Absorb(t, me, [x] + a) != Absorb(t, me, [y] + a)
  {
    FirstOfTieStays(t, me, x, a);
    FirstOfTieStays(t, me, y, a);
  }

  /** Every order and repetition of a list of updates gives the same table if and only if the list has
      no tie. */
  lemma OrderIrrelevantIff(t: Table, me: Id, a: seq<GossipState>)
    requires Keyed(t)
    ensures (forall b, c :: SameMembers(a, b) && SameMembers(a, c) ==> Absorb(t, me, b) == Absorb(t, me, c)) <==>
            NoTie(t, me, a)
  {
    hide Absorb, Tie;
    if NoTie(t, me, a) {
      forall b, c | SameMembers(a, b) && SameMembers(a, c) ensures Absorb(t, me, b) == Absorb(t, me, c) {
        AbsorbOrderIrrelevant(t, me, a, b);
        AbsorbOrderIrrelevant(t, me, a, c);
      }
    } else {
      var x, y :| Tie(t, me, a, x, y);
      TieOrderMatters(t, me, a, x, y);
    }
  }

  /** Where epoch and term tell all states of a node apart, there is no tie. */
  lemma UnambiguousHasNoTie(t: Table, me: Id, a: seq<GossipState>)
    requires Unambiguous(Inputs(t, me, a))
    ensures NoTie(t, me, a)
  {
  }

  /** A table never falls behind itself. */
  ghost predicate Covers(later: Table, earlier: Table) {
    forall id :: id in earlier ==> id in later && later[id].epoch >= earlier[id].epoch
  }

  lemma UpdateGrows(t: Table, s: GossipState)
    ensures Covers(Update(t, s), t)
    ensures s.node in Update(t, s) && Update(t, s)[s.node].epoch >= s.epoch
  {}

  /** The node object. */
  class Gossiper {
    const nodeID: Id
    var states: Table
    var myState: GossipState
    /** Nodes for which the join callback was invoked, in order. */
    var joins: seq<Id>

    constructor (nodeID: Id, addr: string)
      ensures Valid() && this.nodeID == nodeID && states == map[] && myState == GossipState(nodeID, addr, 0, 0) &&
              joins == []
    {
      this.nodeID := nodeID;
      states, myState, joins := map[], GossipState(nodeID, addr, 0, 0), [];
    }

    /** The table holds other nodes under their own names, and each of them joined exactly once. */
    ghost predicate Valid()
      reads this
    {
      && Keyed(states) && nodeID !in states && myState.node == nodeID
      && Distinct(joins) && (forall id :: id in joins <==> id in states)
    }

    function View(): Node
      reads this
    {
      Node(states, myState, joins)
    }

    method SetState(term: nat)
      requires Valid()
      modifies this
      ensures Valid() && states == old(states) && joins == old(joins)
      ensures myState == old(myState).(epoch := old(myState).epoch + 1, term := term)
    {
      myState := myState.(epoch := myState.epoch + 1, term := term);
    }

    method UpdateState(key: Id, s: GossipState)
      requires Valid()
      modifies this
      ensures states == UpdateAt(old(states), key, s) && myState == old(myState)
      ensures joins == old(joins) + if key in old(states) then [] else [s.node]
      ensures key == s.node != nodeID ==> Valid() && View() == Learn(old(View()), s)
    {
      var known := key in states;
      if !known || Newer(s, states[key]) {
        states := states[key := s];
        if !known {
          joins := joins + [s.node];
        }
      }
    }

    /** `HandleGossipMessage` for push and pull_resp. */
    method Receive(msg: seq<GossipState>)
      requires Valid()
      modifies this
      ensures Valid() && states == Absorb(old(states), nodeID, msg) && myState == old(myState)
      ensures old(joins) <= joins
    {
      for k := 0 to |msg|
        invariant Valid() && states == Absorb(old(states), nodeID, msg[..k]) && myState == old(myState)
        invariant old(joins) <= joins
      {
        assert msg[..k + 1][..k] == msg[..k];
        if msg[k].node != nodeID {
          UpdateState(msg[k].node, msg[k]);
        }
      }
      assert msg[..|msg|] == msg;
    }

    /** `doPush`: everything the node knows, its own state first, the rest in map order. */
    method Push() returns (msg: seq<GossipState>)
      requires Valid()
      ensures forall s :: s in msg <==> s in Known(states, myState).Values
      ensures forall s :: s in msg <==> s == myState || (s.node in states && states[s.node] == s)
    {
      msg := [myState];
      var rest := Collect(states.Keys);
      msg := msg + rest;
      var all := Known(states, myState);
      forall s | s in all.Values ensures s in msg {
        var id :| id in all && all[id] == s;
      }
      forall s | s in msg ensures s in all.Values {
        if s == myState {
          assert all[nodeID] == s;
        } else {
          assert all[s.node] == s;
        }
      }
    }

    /** The loop over a set of table entries, in map order. */
    method Collect(ids: set<Id>) returns (out: seq<GossipState>)
      requires Valid() && ids <= states.Keys
      ensures forall s :: s in out <==> s.node in ids && states[s.node] == s
    {
      out := [];
      var todo := ids;
      while todo != {}
        invariant todo <= ids
        invariant forall s :: s in out <==> s.node in ids && s.node !in todo && states[s.node] == s
        decreases todo
      {
        var id :| id in todo;
        out := out + [states[id]];
        todo := todo - {id};
      }
    }

    /** `doSync`: the epochs of everything the node knows. */
    method Sync() returns (epochs: map<Id, nat>)
      requires Valid()
      ensures epochs == Epochs(Known(states, myState))
      ensures epochs.Keys == states.Keys + {nodeID} && epochs[nodeID] == myState.epoch
      ensures forall id :: id in states ==> epochs[id] == states[id].epoch
    {
      epochs := map[nodeID := myState.epoch];
      var todo := states.Keys;
      while todo != {}
        invariant todo <= states.Keys
        invariant forall id :: id in epochs <==> id == nodeID || (id in states && id !in todo)
        invariant forall id :: id in epochs ==> epochs[id] == Known(states, myState)[id].epoch
        decreases todo
      {
        var id :| id in todo;
        epochs := epochs[id := states[id].epoch];
        todo := todo - {id};
      }
      assert epochs.Keys == Known(states, myState).Keys;
    }

    /** The pull_req handler: the reply holds exactly the known states that the request lacks. */
    method Answer(epochs: map<Id, nat>) returns (missing: seq<GossipState>)
      requires Valid()
      ensures forall s :: s in missing <==>
                s.node in Known(states, myState) && Known(states, myState)[s.node] == s && Missing(epochs, s.node, s)
      ensures forall s :: s in missing <==>
                && (s == myState || (s.node in states && states[s.node] == s))
                && (s.node in epochs ==> epochs[s.node] < s.epoch)
      ensures (forall s :: s == myState || (s.node in states && states[s.node] == s) ==>
                 s.node in epochs && s.epoch <= epochs[s.node]) ==> missing == []
    {
      missing := if Missing(epochs, nodeID, myState) then [myState] else [];
      var wanted := set id | id in states && Missing(epochs, id, states[id]);
      var rest := Collect(wanted);
      missing := missing + rest;
      if missing != [] {
        assert missing[0] in missing;
      }
    }
  }
}
