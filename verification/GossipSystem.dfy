/** A cluster of gossiping nodes over a network that may lose, duplicate and reorder messages.
    Every message ever sent stays available, and any state in it may be applied by its receiver
    at any time, any number of times, or never. */
module GossipSystem {
  import opened Prelude
  import opened Gossip

  datatype Msg = Push(states: seq<GossipState>) | PullReq(epochs: map<Id, nat>) | PullResp(states: seq<GossipState>)

  /** A sent message, with what its sender knew when sending it and, for a response, the position
      of the request it answers. */
  datatype Packet = Packet(src: Id, dst: Id, msg: Msg, knew: Table, answers: nat)

  /** `own` is the list of all states each node ever had, and `applied` the set of message states
      (packet and position) that their receiver has processed. */
  datatype Cluster = Cluster(nodes: map<Id, Node>, own: map<Id, seq<GossipState>>, sent: seq<Packet>,
                             applied: set<(nat, nat)>)

  datatype Action =
    | SetState(n: Id, term: nat)
    | SendPush(n: Id, dst: Id, states: seq<GossipState>)
    | SendReq(n: Id, dst: Id)
    | Reply(n: Id, req: nat, states: seq<GossipState>)
    | Process(pkt: nat, k: nat)

  function StatesOf(m: Msg): seq<GossipState> {
    match m
    case Push(ss) => ss
    case PullResp(ss) => ss
    case PullReq(_) => []
  }

  /** What an action needs: senders exist, a push carries everything known, and a reply carries
      what the request lacks; message lists come in any order. */
  ghost predicate Enabled(c: Cluster, a: Action) {
    match a
    case SetState(n, _) => n in c.nodes
    case SendPush(n, _, ss) =>
      n in c.nodes && forall s :: s in ss <==> s in Known(c.nodes[n].table, c.nodes[n].me).Values
    case SendReq(n, _) => n in c.nodes
    case Reply(n, r, ss) =>
      && n in c.nodes && r < |c.sent| && c.sent[r].dst == n && c.sent[r].msg.PullReq?
      && var knew := Known(c.nodes[n].table, c.nodes[n].me);
         forall s :: s in ss <==> s.node in knew && knew[s.node] == s && Missing(c.sent[r].msg.epochs, s.node, s)
    case Process(p, k) => p < |c.sent| && c.sent[p].dst in c.nodes && k < |StatesOf(c.sent[p].msg)|
  }

  ghost function Next(c: Cluster, a: Action): Cluster
    requires Enabled(c, a)
  {
    match a
    case SetState(n, term) =>
      var me := c.nodes[n].me.(epoch := c.nodes[n].me.epoch + 1, term := term);
      c.(nodes := c.nodes[n := c.nodes[n].(me := me)], own := c.own[n := (if n in c.own then c.own[n] else []) + [me]])
    case SendPush(n, dst, ss) =>
      c.(sent := c.sent + [Packet(n, dst, Push(ss), Known(c.nodes[n].table, c.nodes[n].me), 0)])
    case SendReq(n, dst) =>
      var knew := Known(c.nodes[n].table, c.nodes[n].me);
      c.(sent := c.sent + [Packet(n, dst, PullReq(Epochs(knew)), knew, 0)])
    case Reply(n, r, ss) =>
      c.(sent := c.sent + [Packet(n, c.sent[r].src, PullResp(ss), Known(c.nodes[n].table, c.nodes[n].me), r)])
    case Process(p, k) =>
      var n := c.sent[p].dst;
      c.(nodes := c.nodes[n := Learn(c.nodes[n], StatesOf(c.sent[p].msg)[k])], applied := c.applied + {(p, k)})
  }

  ghost predicate Initial(c: Cluster) {
    && c.sent == [] && c.applied == {} && c.own.Keys == c.nodes.Keys
    && forall n :: n in c.nodes ==>
         && c.nodes[n].table == map[] && c.nodes[n].joins == [] && c.nodes[n].me.node == n && c.nodes[n].me.epoch == 0
         && c.own[n] == [c.nodes[n].me]
  }

  /* ---- the invariant ---- */

  /** The state was once its origin's own state. */
  predicate Real(own: map<Id, seq<GossipState>>, s: GossipState) {
    s.node in own && s.epoch < |own[s.node]| && own[s.node][s.epoch] == s
  }

  /** A node's history lists its states by epoch and ends with the current one. */
  ghost predicate History(states: seq<GossipState>, n: Id, me: GossipState) {
    me.node == n && |states| == me.epoch + 1 && states[me.epoch] == me
  }

  ghost predicate Histories(c: Cluster) {
    c.own.Keys == c.nodes.Keys && forall n :: n in c.nodes ==> History(c.own[n], n, c.nodes[n].me)
  }

  /** The table of `n` holds other nodes' real states. */
  ghost predicate RealTable(own: map<Id, seq<GossipState>>, n: Id, t: Table) {
    forall id :: id in t ==> id != n && t[id].node == id && Real(own, t[id])
  }

  ghost predicate RealTables(c: Cluster) {
    forall n :: n in c.nodes ==> RealTable(c.own, n, c.nodes[n].table)
  }

  ghost predicate RealPacket(own: map<Id, seq<GossipState>>, p: Packet) {
    && (forall s :: s in StatesOf(p.msg) ==> Real(own, s))
    && (forall id :: id in p.knew ==> p.knew[id].node == id && Real(own, p.knew[id]))
  }

  ghost predicate RealMessages(c: Cluster) {
    forall p :: 0 <= p < |c.sent| ==> RealPacket(c.own, c.sent[p])
  }

  /** The join callback was invoked once for every node in the table. */
  ghost predicate JoinsExact(c: Cluster) {
    forall n :: n in c.nodes ==>
      Distinct(c.nodes[n].joins) && forall id :: id in c.nodes[n].joins <==> id in c.nodes[n].table
  }

  /** Whoever sent a request still knows at least what the request says. */
  ghost predicate RequestsKept(c: Cluster) {
    forall p, id :: 0 <= p < |c.sent| && c.sent[p].msg.PullReq? && id in c.sent[p].msg.epochs && id != c.sent[p].src ==>
      && c.sent[p].src in c.nodes && id in c.nodes[c.sent[p].src].table
      && c.nodes[c.sent[p].src].table[id].epoch >= c.sent[p].msg.epochs[id]
  }

  /** A response goes to whoever sent the request, and carries everything the request lacked. */
  ghost predicate ResponsesComplete(c: Cluster) {
    forall p :: 0 <= p < |c.sent| && c.sent[p].msg.PullResp? ==>
      var r := c.sent[p].answers;
      && r < |c.sent| && c.sent[r].msg.PullReq? && c.sent[p].dst == c.sent[r].src
      && forall id :: id in c.sent[p].knew ==>
           !Missing(c.sent[r].msg.epochs, id, c.sent[p].knew[id]) || c.sent[p].knew[id] in StatesOf(c.sent[p].msg)
  }

  /** A processed state has left its mark in the receiver's table. */
  ghost predicate ProcessedKept(c: Cluster) {
    forall p, k :: (p, k) in c.applied ==>
      && p < |c.sent| && c.sent[p].dst in c.nodes && k < |StatesOf(c.sent[p].msg)|
      && var s := StatesOf(c.sent[p].msg)[k];
         s.node != c.sent[p].dst ==>
           s.node in c.nodes[c.sent[p].dst].table && c.nodes[c.sent[p].dst].table[s.node].epoch >= s.epoch
  }

  ghost predicate Inv(c: Cluster) {
    && Histories(c) && RealTables(c) && RealMessages(c) && JoinsExact(c)
    && RequestsKept(c) && ResponsesComplete(c) && ProcessedKept(c)
  }

  /* ---- every step keeps the invariant ---- */

  ghost predicate Extends(later: map<Id, seq<GossipState>>, earlier: map<Id, seq<GossipState>>) {
    forall n :: n in earlier ==> n in later && earlier[n] <= later[n]
  }

  /** Tables, histories and messages only grow. */
  ghost predicate Grows(c: Cluster, d: Cluster) {
    && d.nodes.Keys == c.nodes.Keys && Extends(d.own, c.own) && c.sent <= d.sent && c.applied <= d.applied
    && forall n :: n in c.nodes ==>
         && Covers(d.nodes[n].table, c.nodes[n].table) && c.nodes[n].joins <= d.nodes[n].joins
         && c.nodes[n].me.node == d.nodes[n].me.node && c.nodes[n].me.epoch <= d.nodes[n].me.epoch
  }

  lemma StepGrows(c: Cluster, a: Action)
    requires Enabled(c, a)
    ensures Grows(c, Next(c, a))
  {
    hide Known, Missing, StatesOf, Epochs;
  }

  lemma HistoriesKept(c: Cluster, a: Action)
    requires Enabled(c, a) && Histories(c)
    ensures Histories(Next(c, a))
  {
    hide Known, Missing, StatesOf, Epochs, Update;
    var d := Next(c, a);
    if a.SetState? {
      assert History(c.own[a.n], a.n, c.nodes[a.n].me);
    }
    assert d.own.Keys == d.nodes.Keys;
  }

  /** Everything a node knows is real. */
  lemma KnownIsReal(c: Cluster, n: Id, id: Id)
    requires Histories(c) && RealTables(c) && n in c.nodes && id in Known(c.nodes[n].table, c.nodes[n].me)
    ensures var s := Known(c.nodes[n].table, c.nodes[n].me)[id]; s.node == id && Real(c.own, s)
  {
  }

  lemma TableStaysReal(own: map<Id, seq<GossipState>>, later: map<Id, seq<GossipState>>, n: Id, t: Table)
    requires Extends(later, own) && RealTable(own, n, t)
    ensures RealTable(later, n, t)
  {
  }

  lemma LearnsReal(own: map<Id, seq<GossipState>>, node: Node, p: Packet, k: nat)
    requires k < |StatesOf(p.msg)| && RealTable(own, node.me.node, node.table) && RealPacket(own, p)
    ensures RealTable(own, node.me.node, Learn(node, StatesOf(p.msg)[k]).table)
  {
    hide StatesOf, Real;
  }

  lemma RealTablesKept(c: Cluster, a: Action)
    requires Enabled(c, a) && Histories(c) && RealTables(c) && RealMessages(c)
    ensures RealTables(Next(c, a))
  {
    hide RealTable, RealPacket, Extends, Known, Missing, Learn;
    StepGrows(c, a);
    var d := Next(c, a);
    forall n | n in d.nodes ensures RealTable(d.own, n, d.nodes[n].table) {
      if a.Process? && n == c.sent[a.pkt].dst {
        LearnsReal(c.own, c.nodes[n], c.sent[a.pkt], a.k);
      }
      TableStaysReal(c.own, d.own, n, d.nodes[n].table);
    }
  }

  lemma PacketStaysReal(own: map<Id, seq<GossipState>>, later: map<Id, seq<GossipState>>, p: Packet)
    requires Extends(later, own) && RealPacket(own, p)
    ensures RealPacket(later, p)
  {
  }

  lemma NewPacketIsReal(c: Cluster, a: Action)
    requires Enabled(c, a) && Histories(c) && RealTables(c)
    requires a.SendPush? || a.SendReq? || a.Reply?
    ensures var d := Next(c, a); d.own == c.own && |d.sent| == |c.sent| + 1 && RealPacket(c.own, d.sent[|c.sent|])
  {
    hide Real;
    forall id | id in Known(c.nodes[a.n].table, c.nodes[a.n].me)
      ensures var s := Known(c.nodes[a.n].table, c.nodes[a.n].me)[id]; s.node == id && Real(c.own, s)
    {
      KnownIsReal(c, a.n, id);
    }
  }

  lemma RealMessagesKept(c: Cluster, a: Action)
    requires Enabled(c, a) && Histories(c) && RealTables(c) && RealMessages(c)
    ensures RealMessages(Next(c, a))
  {
    hide RealPacket, Extends, Known, Missing, Learn;
    StepGrows(c, a);
    var d := Next(c, a);
    forall p | 0 <= p < |d.sent| ensures RealPacket(d.own, d.sent[p]) {
      if p < |c.sent| {
        PacketStaysReal(c.own, d.own, c.sent[p]);
      } else {
        NewPacketIsReal(c, a);
      }
    }
  }

  lemma JoinsExactKept(c: Cluster, a: Action)
    requires Enabled(c, a) && JoinsExact(c)
    ensures JoinsExact(Next(c, a))
  {
  }

  lemma RequestsStay(c: Cluster, a: Action)
    requires Enabled(c, a) && Histories(c) && RequestsKept(c)
    ensures RequestsKept(Next(c, a))
  {
    StepGrows(c, a);
  }

  lemma ResponsesStay(c: Cluster, a: Action)
    requires Enabled(c, a) && Histories(c) && RealTables(c) && ResponsesComplete(c)
    ensures ResponsesComplete(Next(c, a))
  {
    StepGrows(c, a);
  }

  lemma ProcessedStays(c: Cluster, a: Action)
    requires Enabled(c, a) && Histories(c) && ProcessedKept(c)
    ensures ProcessedKept(Next(c, a))
  {
    StepGrows(c, a);
  }

  lemma StepKeepsInv(c: Cluster, a: Action)
    requires Enabled(c, a) && Inv(c)
    ensures Inv(Next(c, a))
  {
    hide Enabled, Next, Histories, RealTables, RealMessages, JoinsExact, RequestsKept, ResponsesComplete, ProcessedKept;
    HistoriesKept(c, a);
    RealTablesKept(c, a);
    RealMessagesKept(c, a);
    JoinsExactKept(c, a);
    RequestsStay(c, a);
    ResponsesStay(c, a);
    ProcessedStays(c, a);
  }

  /* ---- whole runs ---- */

  /** A run: the states it goes through and the actions between them. */
  ghost predicate Run(cs: seq<Cluster>, acts: seq<Action>) {
    && |cs| == |acts| + 1 && Initial(cs[0])
    && forall i :: 0 <= i < |acts| ==> Enabled(cs[i], acts[i]) && cs[i + 1] == Next(cs[i], acts[i])
  }

  lemma {:induction false} InvHolds(cs: seq<Cluster>, acts: seq<Action>, i: nat)
    requires Run(cs, acts) && i < |cs|
    ensures Inv(cs[i])
  {
    if i == 0 {
      hide Enabled, Next;
    } else {
      hide Inv, Enabled, Next, Initial;
      InvHolds(cs, acts, i - 1);
      assert cs[i - 1 + 1] == Next(cs[i - 1], acts[i - 1]);
      StepKeepsInv(cs[i - 1], acts[i - 1]);
    }
  }

  lemma {:induction false} RunGrows(cs: seq<Cluster>, acts: seq<Action>, i: nat, j: nat)
    requires Run(cs, acts) && i <= j < |cs|
    ensures Grows(cs[i], cs[j])
    decreases j
  {
    hide Initial, Enabled, Next;
    if i < j {
      hide Grows;
      RunGrows(cs, acts, i, j - 1);
      assert cs[j - 1 + 1] == Next(cs[j - 1], acts[j - 1]);
      StepGrows(cs[j - 1], acts[j - 1]);
      GrowsTransitive(cs[i], cs[j - 1], cs[j]);
    }
  }

  lemma GrowsTransitive(c: Cluster, d: Cluster, e: Cluster)
    requires Grows(c, d) && Grows(d, e)
    ensures Grows(c, e)
  {
  }

  /** A state in a node's history was that node's own state at some point of the run. */
  lemma {:induction false} HistoryHappened(cs: seq<Cluster>, acts: seq<Action>, i: nat, id: Id, e: nat)
    requires Run(cs, acts) && i < |cs| && id in cs[i].own && e < |cs[i].own[id]|
    ensures exists j :: 0 <= j <= i && id in cs[j].nodes && cs[j].nodes[id].me == cs[i].own[id][e]
  {
    hide Enabled, Next, RealTables, RealMessages, JoinsExact, RequestsKept, ResponsesComplete, ProcessedKept;
    InvHolds(cs, acts, i);
    assert History(cs[i].own[id], id, cs[i].nodes[id].me);
    if cs[i].nodes[id].me.epoch != e {
      InvHolds(cs, acts, i - 1);
      assert cs[i - 1 + 1] == Next(cs[i - 1], acts[i - 1]);
      StepAppends(cs[i - 1], acts[i - 1], id, e);
      HistoryHappened(cs, acts, i - 1, id, e);
    }
  }

  /** A step adds at most the node's new current state to its history. */
  lemma StepAppends(c: Cluster, a: Action, id: Id, e: nat)
    requires Enabled(c, a) && Histories(c)
    requires id in Next(c, a).own && e < |Next(c, a).own[id]| && id in Next(c, a).nodes &&
             Next(c, a).nodes[id].me.epoch != e
    ensures id in c.own && e < |c.own[id]| && c.own[id][e] == Next(c, a).own[id][e]
  {
    hide Known, Missing, StatesOf, Epochs, Learn;
    assert History(c.own[id], id, c.nodes[id].me);
  }

  /** Stored states are real: each was once its origin's own state, and its origin is not behind
      it. */
  lemma TablesAreHistory(cs: seq<Cluster>, acts: seq<Action>, i: nat, n: Id, id: Id)
    requires Run(cs, acts) && i < |cs| && n in cs[i].nodes && id in cs[i].nodes[n].table
    ensures exists j :: 0 <= j <= i && id in cs[j].nodes && cs[j].nodes[id].me == cs[i].nodes[n].table[id]
    ensures id != n && id in cs[i].nodes && cs[i].nodes[n].table[id].epoch <= cs[i].nodes[id].me.epoch
  {
    hide Run;
    InvHolds(cs, acts, i);
    assert RealTable(cs[i].own, n, cs[i].nodes[n].table);
    assert History(cs[i].own[id], id, cs[i].nodes[id].me);
    HistoryHappened(cs, acts, i, id, cs[i].nodes[n].table[id].epoch);
  }

  /** So are the states in flight. */
  lemma MessagesAreHistory(cs: seq<Cluster>, acts: seq<Action>, i: nat, p: nat, s: GossipState)
    requires Run(cs, acts) && i < |cs| && p < |cs[i].sent| && s in StatesOf(cs[i].sent[p].msg)
    ensures exists j :: 0 <= j <= i && s.node in cs[j].nodes && cs[j].nodes[s.node].me == s
    ensures s.node in cs[i].nodes && s.epoch <= cs[i].nodes[s.node].me.epoch
  {
    hide Run;
    InvHolds(cs, acts, i);
    assert RealPacket(cs[i].own, cs[i].sent[p]);
    assert History(cs[i].own[s.node], s.node, cs[i].nodes[s.node].me);
    HistoryHappened(cs, acts, i, s.node, s.epoch);
  }

  /** Epochs never fall, in any table, and no join is taken back. */
  lemma EpochsNeverFall(cs: seq<Cluster>, acts: seq<Action>, i: nat, j: nat, n: Id)
    requires Run(cs, acts) && i <= j < |cs| && n in cs[i].nodes
    ensures n in cs[j].nodes && Covers(cs[j].nodes[n].table, cs[i].nodes[n].table)
    ensures cs[i].nodes[n].me.epoch <= cs[j].nodes[n].me.epoch && cs[i].nodes[n].joins <= cs[j].nodes[n].joins
  {
    hide Run;
    RunGrows(cs, acts, i, j);
  }

  /** The join callback was invoked exactly once for each node learned, and for no other. */
  lemma JoinedOnce(cs: seq<Cluster>, acts: seq<Action>, i: nat, n: Id)
    requires Run(cs, acts) && i < |cs| && n in cs[i].nodes
    ensures Distinct(cs[i].nodes[n].joins) && forall id :: id in cs[i].nodes[n].joins <==> id in cs[i].nodes[n].table
  {
    hide Run;
    InvHolds(cs, acts, i);
  }

  /** Real states of a node differ in their epochs. */
  lemma RealIsUnambiguous(own: map<Id, seq<GossipState>>, states: set<GossipState>)
    requires forall s :: s in states ==> Real(own, s)
    ensures Unambiguous(states)
  {
  }

  /** At any point of a run, processing states in flight in any order and with any repetition
      gives the same table. */
  lemma DeliveryOrderIrrelevant(cs: seq<Cluster>, acts: seq<Action>, i: nat, n: Id, a: seq<GossipState>,
                                b: seq<GossipState>)
    requires Run(cs, acts) && i < |cs| && n in cs[i].nodes && forall s :: s in a <==> s in b
    requires forall s :: s in a ==> exists p :: 0 <= p < |cs[i].sent| && s in StatesOf(cs[i].sent[p].msg)
    ensures Absorb(cs[i].nodes[n].table, n, a) == Absorb(cs[i].nodes[n].table, n, b)
  {
    hide Run, Absorb;
    InvHolds(cs, acts, i);
    var t := cs[i].nodes[n].table;
    assert RealTable(cs[i].own, n, t);
    forall s | s in Inputs(t, n, a) ensures Real(cs[i].own, s) {
      if s !in t.Values {
        var p :| 0 <= p < |cs[i].sent| && s in StatesOf(cs[i].sent[p].msg);
        assert RealPacket(cs[i].own, cs[i].sent[p]);
      }
    }
    RealIsUnambiguous(cs[i].own, Inputs(t, n, a));
    UnambiguousHasNoTie(t, n, a);
    AbsorbOrderIrrelevant(t, n, a, b);
  }

  /* ---- the pull exchange ---- */

  ghost predicate ProcessedBetween(acts: seq<Action>, j: nat, i: nat, p: nat, k: nat) {
    exists m :: j < m < i <= |acts| && acts[m] == Process(p, k)
  }

  lemma ProcessedIsApplied(cs: seq<Cluster>, acts: seq<Action>, j: nat, i: nat, p: nat, k: nat)
    requires Run(cs, acts) && i < |cs| && ProcessedBetween(acts, j, i, p, k)
    ensures (p, k) in cs[i].applied
  {
    var m :| j < m < i <= |acts| && acts[m] == Process(p, k);
    assert cs[m + 1] == Next(cs[m], acts[m]);
    RunGrows(cs, acts, m + 1, i);
  }

  lemma RunStep(cs: seq<Cluster>, acts: seq<Action>, i: nat)
    requires Run(cs, acts) && i + 1 < |cs|
    ensures i < |acts| && Enabled(cs[i], acts[i]) && cs[i + 1] == Next(cs[i], acts[i])
  {
  }

  /** A response whose states have all been processed leaves its receiver at least as far as the
      responder was. */
  lemma ResponseClosesGap(c: Cluster, p: nat, id: Id)
    requires Inv(c) && p < |c.sent| && c.sent[p].msg.PullResp? && id in c.sent[p].knew && id != c.sent[p].dst
    requires forall k :: 0 <= k < |StatesOf(c.sent[p].msg)| ==> (p, k) in c.applied
    ensures c.sent[p].dst in c.nodes && id in c.nodes[c.sent[p].dst].table
    ensures c.nodes[c.sent[p].dst].table[id].epoch >= c.sent[p].knew[id].epoch
  {
    var r := c.sent[p].answers;
    var s := c.sent[p].knew[id];
    assert RealPacket(c.own, c.sent[p]);
    if Missing(c.sent[r].msg.epochs, id, s) {
      var k :| 0 <= k < |StatesOf(c.sent[p].msg)| && StatesOf(c.sent[p].msg)[k] == s;
      assert (p, k) in c.applied;
    }
  }

  lemma ReplySent(c: Cluster, a: Action)
    requires Enabled(c, a) && a.Reply?
    ensures var knew := Known(c.nodes[a.n].table, c.nodes[a.n].me);
            Next(c, a).sent == c.sent + [Packet(a.n, c.sent[a.req].src, PullResp(a.states), knew, a.req)]
  {
  }

  /** The pull exchange is complete: the responder replies in step `j`, and by step `i` the
      requester has processed every state of the reply, in any order, as often as it likes and
      between any other steps; then for every node other than itself the requester's epoch is at
      least what the responder's was when it replied. */
  lemma PullComplete(cs: seq<Cluster>, acts: seq<Action>, j: nat, i: nat, id: Id)
    requires Run(cs, acts) && j < i < |cs| && acts[j].Reply? && Enabled(cs[j], acts[j])
    requires forall k :: 0 <= k < |acts[j].states| ==> ProcessedBetween(acts, j, i, |cs[j].sent|, k)
    requires id in Known(cs[j].nodes[acts[j].n].table, cs[j].nodes[acts[j].n].me) && id != cs[j].sent[acts[j].req].src
    ensures var requester := cs[j].sent[acts[j].req].src;
            && requester in cs[i].nodes && id in cs[i].nodes[requester].table
            && cs[i].nodes[requester].table[id].epoch >=
               Known(cs[j].nodes[acts[j].n].table, cs[j].nodes[acts[j].n].me)[id].epoch
  {
    hide Run, Inv, Next, Enabled, Known, Covers, Extends;
    var p := |cs[j].sent|;
    RunStep(cs, acts, j);
    ReplySent(cs[j], acts[j]);
    RunGrows(cs, acts, j + 1, i);
    InvHolds(cs, acts, i);
    assert cs[i].sent[p] == cs[j + 1].sent[p];
    forall k | 0 <= k < |StatesOf(cs[i].sent[p].msg)| ensures (p, k) in cs[i].applied {
      ProcessedIsApplied(cs, acts, j, i, p, k);
    }
    ResponseClosesGap(cs[i], p, id);
  }

  lemma PushSent(c: Cluster, a: Action, id: Id) returns (k: nat)
    requires Inv(c) && Enabled(c, a) && a.SendPush? && id in Known(c.nodes[a.n].table, c.nodes[a.n].me)
    ensures var p, d := |c.sent|, Next(c, a);
            |d.sent| == p + 1 && d.sent[p].dst == a.dst && StatesOf(d.sent[p].msg) == a.states
    ensures k < |a.states| && a.states[k] == Known(c.nodes[a.n].table, c.nodes[a.n].me)[id] && a.states[k].node == id
  {
    hide Known;
    var s := Known(c.nodes[a.n].table, c.nodes[a.n].me)[id];
    assert s in a.states;
    KnownIsReal(c, a.n, id);
    k :| 0 <= k < |a.states| && a.states[k] == s;
  }

  lemma AppliedIsKept(c: Cluster, p: nat, k: nat)
    requires Inv(c) && p < |c.sent| && k < |StatesOf(c.sent[p].msg)| && (p, k) in c.applied
    ensures var dst, s := c.sent[p].dst, StatesOf(c.sent[p].msg)[k];
            dst in c.nodes && (s.node != dst ==> s.node in c.nodes[dst].table
                                                 && c.nodes[dst].table[s.node].epoch >= s.epoch)
  {
  }

  /** A push is complete as well: once the node it was sent to has processed its states, in any order and
      between any other steps, that node is for every node but itself as far as the sender was. */
  lemma PushComplete(cs: seq<Cluster>, acts: seq<Action>, j: nat, i: nat, id: Id)
    requires Run(cs, acts) && j < i < |cs| && acts[j].SendPush? && Enabled(cs[j], acts[j])
    requires forall k :: 0 <= k < |acts[j].states| ==> ProcessedBetween(acts, j, i, |cs[j].sent|, k)
    requires id in Known(cs[j].nodes[acts[j].n].table, cs[j].nodes[acts[j].n].me) && id != acts[j].dst
    ensures acts[j].dst in cs[i].nodes && id in cs[i].nodes[acts[j].dst].table
    ensures cs[i].nodes[acts[j].dst].table[id].epoch >=
            Known(cs[j].nodes[acts[j].n].table, cs[j].nodes[acts[j].n].me)[id].epoch
  {
    hide Run, Inv, Next, Enabled, Known, Covers, Extends;
    var p := |cs[j].sent|;
    RunStep(cs, acts, j);
    InvHolds(cs, acts, j);
    var k := PushSent(cs[j], acts[j], id);
    RunGrows(cs, acts, j + 1, i);
    InvHolds(cs, acts, i);
    assert cs[i].sent[p] == cs[j + 1].sent[p];
    ProcessedIsApplied(cs, acts, j, i, p, k);
    AppliedIsKept(cs[i], p, k);
  }

  /* ---- replies carry news only ---- */

  /** Every request in flight was sent in some step, with the epochs its sender had then. */
  lemma {:induction false} RequestOrigin(cs: seq<Cluster>, acts: seq<Action>, i: nat, r: nat) returns (q: nat)
    requires Run(cs, acts) && i < |cs| && r < |cs[i].sent| && cs[i].sent[r].msg.PullReq?
    ensures q < i && q < |acts| && acts[q].SendReq? && Enabled(cs[q], acts[q])
    ensures var n := cs[q].nodes[acts[q].n];
            && cs[i].sent[r].src == acts[q].n && |cs[q].sent| == r
            && cs[i].sent[r].msg.epochs == Epochs(Known(n.table, n.me))
    decreases i
  {
    hide Run, Known, Epochs, Missing, Learn;
    if i == 0 {
      NothingSentYet(cs, acts);
      assert false;
    } else {
      RunStep(cs, acts, i - 1);
      if r < |cs[i - 1].sent| {
        StepGrows(cs[i - 1], acts[i - 1]);
        q := RequestOrigin(cs, acts, i - 1, r);
      } else {
        q := i - 1;
      }
    }
  }

  lemma NothingSentYet(cs: seq<Cluster>, acts: seq<Action>)
    requires Run(cs, acts)
    ensures cs[0].sent == []
  {
  }

  /** In every run, each state of a reply is news to the requester: when the request was sent, in step `q`,
      the requester did not know its node or knew it at a lower epoch. */
  lemma RepliesAreNews(cs: seq<Cluster>, acts: seq<Action>, j: nat, s: GossipState) returns (q: nat)
    requires Run(cs, acts) && j < |acts| && acts[j].Reply? && s in acts[j].states
    ensures q < j && acts[q].SendReq? && Enabled(cs[q], acts[q]) && |cs[q].sent| == acts[j].req
    ensures var n := cs[q].nodes[acts[q].n];
            if s.node == n.me.node then n.me.epoch < s.epoch
            else s.node in n.table ==> n.table[s.node].epoch < s.epoch
  {
    RunStep(cs, acts, j);
    hide Run;
    q := RequestOrigin(cs, acts, j, acts[j].req);
  }

  /** A responder that knows nothing newer than the request says replies with nothing. */
  lemma QuietReply(c: Cluster, a: Action)
    requires Enabled(c, a) && a.Reply?
    requires var n, epochs := c.nodes[a.n], c.sent[a.req].msg.epochs;
             && n.me.node in epochs && n.me.epoch <= epochs[n.me.node]
             && forall id :: id in n.table ==>
                  n.table[id].node in epochs && n.table[id].epoch <= epochs[n.table[id].node]
    ensures a.states == []
  {
    forall s ensures s !in a.states {
    }
    NotEmpty(a.states);
  }

  lemma NotEmpty(states: seq<GossipState>)
    ensures states != [] ==> exists s :: s in states
  {
    if states != [] {
      assert states[0] in states;
    }
  }
}
