/** Partition assignment (server/internal/partition/manager.go). */
module Partition {
  import opened Prelude

  const DEFAULT_PARTITIONS := 64

  type U32 = x: int | 0 <= x < 0x1_0000_0000

  datatype Assignment = Assignment(node: string, partition: U32, term: nat)

  /* ---- sorting node names ---- */

  /** The byte order of strings. */
  predicate AtMost(a: string, b: string) {
    a == [] || (b != [] && (a[0] < b[0] || (a[0] == b[0] && AtMost(a[1..], b[1..]))))
  }

  lemma {:induction false} OrderIsTotal(a: string, b: string)
    ensures AtMost(a, b) || AtMost(b, a)
    ensures AtMost(a, b) && AtMost(b, a) ==> a == b
  {
    if a != [] && b != [] && a[0] == b[0] {
      OrderIsTotal(a[1..], b[1..]);
      assert a == [a[0]] + a[1..] && b == [b[0]] + b[1..];
    }
  }

  lemma {:induction false} OrderIsTransitive(a: string, b: string, c: string)
    requires AtMost(a, b) && AtMost(b, c)
    ensures AtMost(a, c)
  {
    if a != [] && a[0] == b[0] == c[0] {
      OrderIsTransitive(a[1..], b[1..], c[1..]);
    }
  }

  predicate Sorted(s: seq<string>) {
    forall i, j :: 0 <= i < j < |s| ==> AtMost(s[i], s[j])
  }

  function Insert(x: string, s: seq<string>): (r: seq<string>)
    ensures multiset(r) == multiset(s) + multiset{x}
  {
    if s == [] then [x]
    else if AtMost(x, s[0]) then [x] + s
    else
      assert s == [s[0]] + s[1..];
      [s[0]] + Insert(x, s[1..])
  }

  /** `sort.Strings`. */
  function Sort(s: seq<string>): (r: seq<string>)
    ensures multiset(r) == multiset(s)
  {
    if s == [] then []
    else
      assert s == [s[0]] + s[1..];
      Insert(s[0], Sort(s[1..]))
  }

  lemma SameMembers(a: seq<string>, b: seq<string>, x: string)
    requires multiset(a) == multiset(b)
    ensures x in a <==> x in b
  {
    assert x in a <==> x in multiset(a);
    assert x in b <==> x in multiset(b);
  }

  lemma {:induction false} InsertSorts(x: string, s: seq<string>)
    requires Sorted(s)
    ensures Sorted(Insert(x, s))
  {
    if s != [] {
      if AtMost(x, s[0]) {
        forall k | 0 <= k < |s| ensures AtMost(x, s[k]) {
          if k > 0 {
            OrderIsTransitive(x, s[0], s[k]);
          }
        }
      } else {
        OrderIsTotal(x, s[0]);
        InsertSorts(x, s[1..]);
        var r := Insert(x, s[1..]);
        forall k | 0 <= k < |r| ensures AtMost(s[0], r[k]) {
          SameMembers(r, s[1..] + [x], r[k]);
        }
      }
    }
  }

  lemma {:induction false} SortSorts(s: seq<string>)
    ensures Sorted(Sort(s))
  {
    if s != [] {
      SortSorts(s[1..]);
      InsertSorts(s[0], Sort(s[1..]));
    }
  }

  lemma HeadIsLeast(s: seq<string>, x: string)
    requires Sorted(s) && x in s
    ensures AtMost(s[0], x)
  {
    OrderIsTotal(x, x);
  }

  lemma TailMultiset(s: seq<string>)
    requires s != []
    ensures multiset(s[1..]) == multiset(s) - multiset{s[0]}
  {
    assert s == [s[0]] + s[1..];
  }

  /** There is only one way to sort. */
  lemma {:induction false} SortedUnique(a: seq<string>, b: seq<string>)
    requires Sorted(a) && Sorted(b) && multiset(a) == multiset(b)
    ensures a == b
  {
    hide AtMost;
    assert |a| == |multiset(a)| == |multiset(b)| == |b|;
    if a != [] {
      SameMembers(a, b, a[0]);
      SameMembers(a, b, b[0]);
      HeadIsLeast(a, b[0]);
      HeadIsLeast(b, a[0]);
      OrderIsTotal(a[0], b[0]);
      TailMultiset(a);
      TailMultiset(b);
      SortedUnique(a[1..], b[1..]);
      assert a == [a[0]] + a[1..] && b == [b[0]] + b[1..];
    }
  }

  /* ---- the two tables ---- */

  type Parts = map<string, seq<int>>

  /** Round robin over the nodes; with no nodes, every partition is unassigned. */
  function Table(nodes: seq<string>, n: nat): (t: seq<string>)
    ensures |t| == n
  {
    if n == 0 then []
    else Table(nodes, n - 1) + [if nodes == [] then "" else nodes[(n - 1) % |nodes|]]
  }

  /** The partitions a table gives to a node, in increasing order. */
  function Owned(t: seq<string>, node: string): (r: seq<int>)
    ensures forall p :: p in r <==> 0 <= p < |t| && t[p] == node
    ensures forall i, j :: 0 <= i < j < |r| ==> r[i] < r[j]
  {
    if t == [] then []
    else
      var init, last := Owned(t[..|t| - 1], node), |t| - 1;
      assert forall i :: 0 <= i < |init| ==> init[i] in init;
      if t[last] == node then init + [last] else init
  }

  lemma OwnedAppend(t: seq<string>, x: string, node: string)
    ensures Owned(t + [x], node) == Owned(t, node) + if x == node then [|t|] else []
  {
    assert (t + [x])[..|t|] == t;
  }

  lemma OwnedAbsent(t: seq<string>, node: string)
    requires node !in t
    ensures Owned(t, node) == []
  {
    if t != [] {
      OwnedAbsent(t[..|t| - 1], node);
    }
  }

  /** The table turned around. */
  function Inverted(t: seq<string>): Parts {
    map node | node in t :: Owned(t, node)
  }

  function PartsOf(m: Parts, node: string): seq<int> {
    if node in m then m[node] else []
  }

  function Append(m: Parts, node: string, p: int): Parts {
    m[node := PartsOf(m, node) + [p]]
  }

  lemma InvertedAppend(t: seq<string>, node: string)
    ensures Inverted(t + [node]) == Append(Inverted(t), node, |t|)
  {
    hide Owned;
    var u, m := t + [node], Append(Inverted(t), node, |t|);
    forall x ensures x in Inverted(u) <==> x in m {
      assert x in u <==> x in t || x == node;
    }
    forall x | x in Inverted(u) ensures Inverted(u)[x] == m[x] {
      OwnedAppend(t, node, x);
      if x !in t {
        OwnedAbsent(t, x);
      }
    }
  }

  /** The message the leader sends. */
  function Produced(t: seq<string>, term: nat): (r: seq<Assignment>)
    requires |t| < 0x1_0000_0000
    ensures |r| == |t| && forall i :: 0 <= i < |t| ==> r[i] == Assignment(t[i], i, term)
  {
    if t == [] then []
    else Produced(t[..|t| - 1], term) + [Assignment(t[|t| - 1], (|t| - 1) % 0x1_0000_0000, term)]
  }

  function ApplyTable(list: seq<Assignment>, n: nat): (t: seq<string>)
    ensures |t| == n
  {
    if list == [] then seq(n, _ => "")
    else
      var t := ApplyTable(list[..|list| - 1], n);
      var a := list[|list| - 1];
      if a.partition < n then t[a.partition := a.node] else t
  }

  function ApplyParts(list: seq<Assignment>, n: nat): Parts {
    if list == [] then map[]
    else
      var m := ApplyParts(list[..|list| - 1], n);
      var a := list[|list| - 1];
      if a.partition < n then Append(m, a.node, a.partition) else m
  }

  function Latest(list: seq<Assignment>, term: nat): (r: nat)
    ensures r >= term && forall a :: a in list ==> r >= a.term
    ensures r == term || exists a :: a in list && r == a.term
  {
    if list == [] then term
    else
      var r := Latest(list[..|list| - 1], term);
      var a := list[|list| - 1];
      assert list == list[..|list| - 1] + [a];
      if a.term > r then a.term else r
  }

  /* ---- balance ---- */

  /** Every partition is owned once, by the node the table names. */
  lemma TablesAreInverse(t: seq<string>, p: int, node: string)
    requires 0 <= p < |t|
    ensures p in PartsOf(Inverted(t), node) <==> t[p] == node
    ensures Distinct(PartsOf(Inverted(t), node))
  {
  }

  lemma TableAt(nodes: seq<string>, n: nat, p: nat)
    requires p < n
    ensures Table(nodes, n)[p] == if nodes == [] then "" else nodes[p % |nodes|]
  {
  }

  lemma DivStep(n: nat, m: nat)
    requires m > 0
    ensures (n + 1) / m == n / m + (if n % m == m - 1 then 1 else 0)
    ensures (n + 1) % m == if n % m == m - 1 then 0 else n % m + 1
  {
    var q, r := n / m, n % m;
    if r == m - 1 {
      DivUnique(n + 1, m, q + 1, 0);
    } else {
      DivUnique(n + 1, m, q, r + 1);
    }
  }

  lemma SamePosition(nodes: seq<string>, j: nat, k: nat)
    requires Distinct(nodes) && j < |nodes| && k < |nodes|
    ensures nodes[j] == nodes[k] <==> j == k
  {
  }

  /** The k-th node owns the number of partitions rounded down or up, the first ones one more. */
  lemma {:induction false} LoadOf(nodes: seq<string>, n: nat, k: nat)
    requires Distinct(nodes) && k < |nodes|
    ensures |Owned(Table(nodes, n), nodes[k])| == n / |nodes| + if k < n % |nodes| then 1 else 0
  {
    hide Owned;
    var m := |nodes|;
    if n == 0 {
      OwnedAbsent([], nodes[k]);
      DivUnique(0, m, 0, 0);
    } else {
      var t, node := Table(nodes, n - 1), nodes[(n - 1) % m];
      LoadOf(nodes, n - 1, k);
      DivStep(n - 1, m);
      assert Table(nodes, n) == t + [node];
      OwnedAppend(t, node, nodes[k]);
      SamePosition(nodes, (n - 1) % m, k);
    }
  }

  /** Distinct alive nodes own numbers of partitions that differ by at most one. */
  lemma LoadsAreBalanced(alive: seq<string>, n: nat, a: string, b: string)
    requires Distinct(alive) && a in alive && b in alive
    ensures var t := Table(Sort(alive), n);
            |PartsOf(Inverted(t), a)| <= |PartsOf(Inverted(t), b)| + 1
  {
    var nodes := Sort(alive);
    SameMembers(nodes, alive, a);
    SameMembers(nodes, alive, b);
    DistinctByCount(alive, nodes);
    var i :| 0 <= i < |nodes| && nodes[i] == a;
    var j :| 0 <= j < |nodes| && nodes[j] == b;
    LoadOf(nodes, n, i);
    LoadOf(nodes, n, j);
    OwnedByAll(Table(nodes, n), a);
    OwnedByAll(Table(nodes, n), b);
  }

  lemma OwnedByAll(t: seq<string>, node: string)
    ensures PartsOf(Inverted(t), node) == Owned(t, node)
  {
    if node !in t {
      OwnedAbsent(t, node);
    }
  }

  lemma {:induction false} CountInDistinct(s: seq<string>, x: string)
    requires Distinct(s)
    ensures multiset(s)[x] <= 1
  {
    if s != [] {
      CountInDistinct(s[1..], x);
      assert s == [s[0]] + s[1..];
      if s[0] == x {
        assert x !in s[1..];
      }
    }
  }

  /** A rearrangement of distinct names is distinct. */
  lemma DistinctByCount(a: seq<string>, b: seq<string>)
    requires Distinct(a) && multiset(a) == multiset(b)
    ensures Distinct(b)
  {
    forall i, j | 0 <= i < j < |b| ensures b[i] != b[j] {
      if b[i] == b[j] {
        assert b == b[..i] + [b[i]] + b[i + 1..j] + [b[j]] + b[j + 1..];
        CountInDistinct(a, b[i]);
        assert false;
      }
    }
  }

  /** The order in which the alive nodes are listed does not matter. */
  lemma ListingOrderIrrelevant(alive: seq<string>, other: seq<string>, n: nat)
    requires multiset(alive) == multiset(other)
    ensures Table(Sort(alive), n) == Table(Sort(other), n)
  {
    SortSorts(alive);
    SortSorts(other);
    SortedUnique(Sort(alive), Sort(other));
  }

  /* ---- replication ---- */

  lemma {:induction false} ApplyPrefix(t: seq<string>, term: nat, k: nat)
    requires k <= |t| < 0x1_0000_0000
    ensures var list := Produced(t, term)[..k];
            && ApplyTable(list, |t|) == t[..k] + seq(|t| - k, _ => "")
            && ApplyParts(list, |t|) == Inverted(t[..k])
  {
    hide Produced, Owned, Inverted;
    var list := Produced(t, term)[..k];
    if k == 0 {
      InvertedEmpty(t[..0]);
    } else {
      ApplyPrefix(t, term, k - 1);
      assert list[..k - 1] == Produced(t, term)[..k - 1];
      assert t[..k] == t[..k - 1] + [t[k - 1]];
      InvertedAppend(t[..k - 1], t[k - 1]);
    }
  }

  /** A follower that applies what the leader produced holds the leader's two tables. */
  lemma FollowerAgrees(t: seq<string>, term: nat)
    requires |t| < 0x1_0000_0000
    ensures ApplyTable(Produced(t, term), |t|) == t && ApplyParts(Produced(t, term), |t|) == Inverted(t)
  {
    ApplyPrefix(t, term, |t|);
    assert Produced(t, term)[..|t|] == Produced(t, term) && t[..|t|] == t;
  }

  /** With no alive nodes the leader produces nothing, and a follower applying nothing agrees. */
  lemma FollowerAgreesOnEmpty(n: nat)
    ensures ApplyTable([], n) == Table([], n) && ApplyParts([], n) == map[]
  {
    forall p | 0 <= p < n ensures Table([], n)[p] == "" {
      TableAt([], n, p);
    }
  }

  /* ---- arbitrary assignment lists ---- */

  /** The last entry of the list for partition `p`. */
  function LastFor(list: seq<Assignment>, p: int): Option<string> {
    if list == [] then None
    else if list[|list| - 1].partition == p then Some(list[|list| - 1].node)
    else LastFor(list[..|list| - 1], p)
  }

  lemma {:induction false} AppliedTable(list: seq<Assignment>, n: nat, p: nat)
    requires p < n
    ensures ApplyTable(list, n)[p] == match LastFor(list, p) case Some(node) => node case None => ""
  {
    if list != [] {
      AppliedTable(list[..|list| - 1], n, p);
    }
  }

  ghost predicate Lists(list: seq<Assignment>, p: int, node: string) {
    exists i :: 0 <= i < |list| && list[i].partition == p && list[i].node == node
  }

  lemma {:induction false} AppliedParts(list: seq<Assignment>, n: nat, p: int, node: string)
    ensures p in PartsOf(ApplyParts(list, n), node) <==> p < n && Lists(list, p, node)
  {
    if list != [] {
      var init, a := list[..|list| - 1], list[|list| - 1];
      AppliedParts(init, n, p, node);
      assert list == init + [a];
      if Lists(init, p, node) {
        var i :| 0 <= i < |init| && init[i].partition == p && init[i].node == node;
        assert list[i].partition == p && list[i].node == node;
      }
      if a.partition == p && a.node == node {
        assert list[|init|].partition == p && list[|init|].node == node;
      }
      if Lists(list, p, node) && !(a.partition == p && a.node == node) {
        var i :| 0 <= i < |list| && list[i].partition == p && list[i].node == node;
        assert init[i].partition == p && init[i].node == node;
      }
    }
  }

  /** After applying the list, the nodes' lists agree with the table on partition `p`. */
  ghost predicate InverseAt(list: seq<Assignment>, n: nat, p: nat)
    requires p < n
  {
    forall node :: node != "" ==> (p in PartsOf(ApplyParts(list, n), node) <==> ApplyTable(list, n)[p] == node)
  }

  /** Every name the list gives to `p` is the last one it gives. */
  ghost predicate Unchallenged(list: seq<Assignment>, p: nat) {
    forall i :: 0 <= i < |list| && list[i].partition == p && list[i].node != "" ==>
      LastFor(list, p) == Some(list[i].node)
  }

  /** The two tables agree on a partition exactly if the list does not name two owners for it or
      take its owner away: an overwritten owner keeps the partition in its own list. */
  lemma AppliedInverseIff(list: seq<Assignment>, n: nat, p: nat)
    requires p < n
    ensures InverseAt(list, n, p) <==> Unchallenged(list, p)
  {
    hide ApplyParts, ApplyTable, LastFor, PartsOf;
    AppliedTable(list, n, p);
    LastIsListed(list, p);
    if InverseAt(list, n, p) {
      forall i | 0 <= i < |list| && list[i].partition == p && list[i].node != ""
        ensures LastFor(list, p) == Some(list[i].node)
      {
        assert Lists(list, p, list[i].node);
        AppliedParts(list, n, p, list[i].node);
      }
    }
    if Unchallenged(list, p) {
      forall node | node != "" ensures p in PartsOf(ApplyParts(list, n), node) <==> ApplyTable(list, n)[p] == node {
        AppliedParts(list, n, p, node);
      }
    }
  }

  lemma {:induction false} LastIsListed(list: seq<Assignment>, p: int)
    ensures LastFor(list, p).Some? ==> Lists(list, p, LastFor(list, p).value)
  {
    if list != [] && list[|list| - 1].partition != p {
      var init := list[..|list| - 1];
      LastIsListed(init, p);
      if LastFor(init, p).Some? {
        var i :| 0 <= i < |init| && init[i].partition == p && init[i].node == LastFor(init, p).value;
        assert list[i] == init[i];
      }
    }
  }

  /* ---- the manager ---- */

  /** The loop of `Rebalance` that fills both tables. */
  method RoundRobin(nodes: seq<string>, n: U32) returns (t: seq<string>, parts: Parts)
    requires nodes != []
    ensures t == Table(nodes, n) && parts == Inverted(t)
  {
    hide Table, Owned, Inverted;
    ghost var spec := Table(nodes, n);
    t, parts := seq(n, _ => ""), map[];
    InvertedEmpty(spec[..0]);
    for i := 0 to n
      invariant |t| == n && t[..i] == spec[..i] && parts == Inverted(spec[..i])
    {
      var node := nodes[i % |nodes|];
      TableAt(nodes, n, i);
      assert spec[..i + 1] == spec[..i] + [node];
      InvertedAppend(spec[..i], node);
      t := t[i := node];
      parts := parts[node := (if node in parts then parts[node] else []) + [i]];
    }
    assert t[..n] == t && spec[..n] == spec;
  }

  lemma InvertedEmpty(t: seq<string>)
    requires t == []
    ensures Inverted(t) == map[]
  {
  }

  /** The loop of `Rebalance` that lists the assignments. */
  method Produce(t: seq<string>, term: nat) returns (out: seq<Assignment>)
    requires |t| < 0x1_0000_0000
    ensures out == Produced(t, term)
  {
    hide Produced;
    out := [];
    for i := 0 to |t|
      invariant out == Produced(t, term)[..i]
    {
      out := out + [Assignment(t[i], i % 0x1_0000_0000, term)];
    }
  }

  datatype Handled = Applied | Ignored | NotLeader | StaleTerm

  class Manager {
    const numPartitions: U32
    var assignments: seq<string>
    var nodeParts: Parts
    var currentTerm: nat
    var leaderID: string

    constructor (numPartitions: U32)
      ensures this.numPartitions == if numPartitions == 0 then 64 else numPartitions
      ensures assignments == Table([], this.numPartitions) && nodeParts == map[] && currentTerm == 0 && leaderID == ""
    {
      var n := if numPartitions == 0 then DEFAULT_PARTITIONS else numPartitions;
      this.numPartitions := n;
      assignments, nodeParts, currentTerm, leaderID := seq(n, _ => ""), map[], 0, "";
      FollowerAgreesOnEmpty(n);
    }

    method Rebalance(aliveNodes: seq<string>, term: nat) returns (out: seq<Assignment>)
      modifies this
      ensures currentTerm == term && leaderID == old(leaderID)
      ensures assignments == Table(Sort(aliveNodes), numPartitions)
      ensures nodeParts == if aliveNodes == [] then map[] else Inverted(assignments)
      ensures out == if aliveNodes == [] then [] else Produced(assignments, term)
    {
      var nodes := Sort(aliveNodes);
      assert |nodes| == |multiset(nodes)| == |multiset(aliveNodes)| == |aliveNodes|;
      currentTerm := term;
      if |nodes| == 0 {
        FollowerAgreesOnEmpty(numPartitions);
        assignments, nodeParts := seq(numPartitions, _ => ""), map[];
        return [];
      }
      assignments, nodeParts := RoundRobin(nodes, numPartitions);
      out := Produce(assignments, term);
    }

    method ApplyAssignments(list: seq<Assignment>)
      modifies this
      ensures assignments == ApplyTable(list, numPartitions) && nodeParts == ApplyParts(list, numPartitions)
      ensures currentTerm == Latest(list, old(currentTerm)) && leaderID == old(leaderID)
    {
      var fresh_: seq<string> := seq(numPartitions, _ => "");
      var parts: Parts := map[];
      for k := 0 to |list|
        invariant fresh_ == ApplyTable(list[..k], numPartitions) && parts == ApplyParts(list[..k], numPartitions)
        invariant currentTerm == Latest(list[..k], old(currentTerm)) && leaderID == old(leaderID)
      {
        var a := list[k];
        assert list[..k + 1][..k] == list[..k];
        if a.partition < |fresh_| {
          fresh_ := fresh_[a.partition := a.node];
          parts := parts[a.node := (if a.node in parts then parts[a.node] else []) + [a.partition]];
        }
        if a.term > currentTerm {
          currentTerm := a.term;
        }
      }
      assert list[..|list|] == list;
      assignments, nodeParts := fresh_, parts;
    }

    /** A message from the known leader is applied unless its term is behind; with no known leader
        every assignment message is applied. */
    method HandleAssignmentMessage(isAssign: bool, list: seq<Assignment>, sender: string, term: nat)
      returns (r: Handled)
      modifies this
      ensures r.Ignored? <==> !isAssign
      ensures r.NotLeader? <==> isAssign && leaderID != "" && sender != leaderID
      ensures r.StaleTerm? <==> isAssign && leaderID != "" && sender == leaderID && term < old(currentTerm)
      ensures leaderID == old(leaderID)
      ensures !r.Applied? ==>
              assignments == old(assignments) && nodeParts == old(nodeParts) && currentTerm == old(currentTerm)
      ensures r.Applied? ==>
              assignments == ApplyTable(list, numPartitions) && nodeParts == ApplyParts(list, numPartitions)
      ensures r.Applied? ==> currentTerm == Latest(list, old(currentTerm))
    {
      if !isAssign {
        return Ignored;
      }
      if leaderID != "" && sender != leaderID {
        return NotLeader;
      }
      if term < currentTerm && leaderID != "" {
        return StaleTerm;
      }
      ApplyAssignments(list);
      return Applied;
    }

    method OnLeaderChange(leader: string)
      modifies this
      ensures leaderID == leader
      ensures assignments == old(assignments) && nodeParts == old(nodeParts) && currentTerm == old(currentTerm)
    {
      leaderID := leader;
    }

    method NodeForPartition(p: U32) returns (node: string)
      ensures node == if p < |assignments| then assignments[p] else ""
    {
      if p >= |assignments| {
        return "";
      }
      return assignments[p];
    }
  }

  /** The whole exchange: the leader rebalances and sends what it produced, and a follower of
      the same size that knows no leader, or knows this one and no later term, ends with the same
      two tables. */
  method Replicate(leader: Manager, follower: Manager, name: string, alive: seq<string>, term: nat) returns (r: Handled)
    requires leader != follower && leader.numPartitions == follower.numPartitions
    requires follower.leaderID == "" || (follower.leaderID == name && follower.currentTerm <= term)
    modifies leader, follower
    ensures r == Applied && follower.assignments == leader.assignments && follower.nodeParts == leader.nodeParts
    ensures leader.currentTerm == term
    ensures follower.currentTerm ==
            if alive == [] || leader.numPartitions == 0 || term <= old(follower.currentTerm)
            then old(follower.currentTerm) else term
  {
    var out := leader.Rebalance(alive, term);
    r := follower.HandleAssignmentMessage(true, out, name, term);
    if alive == [] {
      FollowerAgreesOnEmpty(leader.numPartitions);
      assert Sort(alive) == [];
    } else {
      FollowerAgrees(leader.assignments, term);
      assert leader.numPartitions > 0 ==> out[0].term == term;
    }
  }

  /* ---- which order it is ---- */

  /** The first differing character decides, and a proper prefix comes first. */
  lemma {:induction false} OrderDecided(common: string, a: string, b: string)
    ensures AtMost(common, common + b)
    ensures a != [] && b != [] && a[0] < b[0] ==> AtMost(common + a, common + b) && !AtMost(common + b, common + a)
    ensures b != [] ==> !AtMost(common + b, common)
    decreases common
  {
    if common == [] {
      assert [] + a == a && [] + b == b;
    } else {
      OrderDecided(common[1..], a, b);
      assert (common + a)[1..] == common[1..] + a && (common + b)[1..] == common[1..] + b;
    }
  }

  /** The first partition goes to the least name alive. */
  lemma LeastComesFirst(alive: seq<string>, n: nat, a: string)
    requires n > 0 && a in alive
    ensures Table(Sort(alive), n)[0] in alive && AtMost(Table(Sort(alive), n)[0], a)
  {
    var nodes := Sort(alive);
    SortSorts(alive);
    SameMembers(nodes, alive, a);
    SameMembers(nodes, alive, nodes[0]);
    TableAt(nodes, n, 0);
    DivUnique(0, |nodes|, 0, 0);
    HeadIsLeast(nodes, a);
  }
}
