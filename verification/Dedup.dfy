/** The duplicate tracker (server/internal/reliability/dedup.go): an LRU with a TTL sweep. */
module Dedup {
  import opened Prelude

  /** Keys are compared and never looked into. */
  type Key = string

  /** One tracked key and the time it was last marked. */
  datatype Entry = Entry(key: Key, at: int)

  /** Tracked keys, most recently marked first. */
  type Order = seq<Entry>

  /** Position of a key, or the length of the list. */
  function PosOf(o: Order, k: Key): (p: nat)
    ensures p <= |o|
    ensures forall i :: 0 <= i < p ==> o[i].key != k
    ensures p < |o| ==> o[p].key == k
  {
    if o == [] || o[0].key == k then 0 else 1 + PosOf(o[1..], k)
  }

  predicate Has(o: Order, k: Key) {
    PosOf(o, k) < |o|
  }

  /** Marking moves a known key to the front; a new key may push the oldest one out. */
  function Marked(o: Order, max: nat, k: Key, now: int): Order {
    var p := PosOf(o, k);
    [Entry(k, now)] +
    if p < |o| then o[..p] + o[p + 1..]
    else if |o| >= max && o != [] then o[..|o| - 1]
    else o
  }

  /** The sweep drops every entry older than the time to live. */
  function Swept(o: Order, ttl: int, now: int): Order {
    if o == [] then [] else (if now - o[0].at > ttl then [] else [o[0]]) + Swept(o[1..], ttl, now)
  }

  datatype Event = Mark(key: Key, at: int) | Sweep(at: int)

  function Apply(o: Order, max: nat, ttl: int, e: Event): Order {
    match e
    case Mark(k, t) => Marked(o, max, k, t)
    case Sweep(t) => Swept(o, ttl, t)
  }

  /** The tracker after a history of marks and sweeps, oldest event first. */
  function After(max: nat, ttl: int, h: seq<Event>): Order {
    if h == [] then [] else Apply(After(max, ttl, h[..|h| - 1]), max, ttl, h[|h| - 1])
  }

  /* ---- what the history says, independently of any list ---- */

  predicate EverMarked(h: seq<Event>, k: Key) {
    exists i :: 0 <= i < |h| && h[i].Mark? && h[i].key == k
  }

  /** Time of the last mark of `k`. */
  function LastMark(h: seq<Event>, k: Key): int {
    if h == [] then 0
    else
      var e := h[|h| - 1];
      if e.Mark? && e.key == k then e.at else LastMark(h[..|h| - 1], k)
  }

  /** The other keys marked since the last mark of `k`. */
  function Since(h: seq<Event>, k: Key): set<Key> {
    if h == [] then {}
    else
      var e := h[|h| - 1];
      if e.Mark? && e.key == k then {}
      else Since(h[..|h| - 1], k) + (if e.Mark? then {e.key} else {})
  }

  /** A sweep since the last mark of `k` found it too old. */
  predicate Expired(h: seq<Event>, ttl: int, k: Key) {
    if h == [] then false
    else
      var e := h[|h| - 1];
      if e.Mark? && e.key == k then false
      else Expired(h[..|h| - 1], ttl, k) || (e.Sweep? && e.at - LastMark(h[..|h| - 1], k) > ttl)
  }

  predicate Monotone(h: seq<Event>) {
    forall i, j :: 0 <= i < j < |h| ==> h[i].at <= h[j].at
  }

  /** The law of the tracker: a key is known iff it was marked, fewer than `max` distinct other
      keys were marked since, and no sweep since then found it too old. */
  predicate Known(h: seq<Event>, max: nat, ttl: int, k: Key) {
    EverMarked(h, k) && |Since(h, k)| < max && !Expired(h, ttl, k)
  }

  /* ---- the list and the history tell the same story ---- */

  function KeysOf(o: Order): (r: set<Key>) {
    set i | 0 <= i < |o| :: o[i].key
  }

  ghost predicate DistinctKeys(o: Order) {
    forall i, j :: 0 <= i < j < |o| ==> o[i].key != o[j].key
  }

  /** Each listed key carries the time of its last mark and stands behind exactly the keys that
      were marked since. */
  ghost predicate InPlace(o: Order, h: seq<Event>) {
    forall i :: 0 <= i < |o| ==> o[i].at == LastMark(h, o[i].key) && KeysOf(o[..i]) == Since(h, o[i].key)
  }

  /** Exactly the known keys are listed. */
  ghost predicate ListsKnown(o: Order, h: seq<Event>, max: nat, ttl: int) {
    forall k :: Has(o, k) <==> Known(h, max, ttl, k)
  }

  ghost predicate Mirrors(o: Order, h: seq<Event>, max: nat, ttl: int) {
    DistinctKeys(o) && InPlace(o, h) && ListsKnown(o, h, max, ttl)
  }

  lemma {:induction false} CountKeys(o: Order)
    requires DistinctKeys(o)
    ensures |KeysOf(o)| == |o|
    decreases |o|
  {
    if o != [] {
      var init, last := o[..|o| - 1], o[|o| - 1].key;
      CountKeys(init);
      assert KeysOf(o) == KeysOf(init) + {last};
      assert last !in KeysOf(init);
    }
  }

  lemma AppendMark(h: seq<Event>, k: Key, t: int, ttl: int, x: Key)
    ensures var h' := h + [Mark(k, t)];
            if x == k then EverMarked(h', x) && LastMark(h', x) == t && Since(h', x) == {} && !Expired(h', ttl, x)
            else (EverMarked(h', x) <==> EverMarked(h, x)) && LastMark(h', x) == LastMark(h, x) &&
                 Since(h', x) == Since(h, x) + {k} && (Expired(h', ttl, x) <==> Expired(h, ttl, x))
  {
    var h' := h + [Mark(k, t)];
    assert h'[..|h'| - 1] == h && h'[|h|] == Mark(k, t);
    assert forall i :: 0 <= i < |h| ==> h'[i] == h[i];
  }

  lemma AppendSweep(h: seq<Event>, t: int, ttl: int, x: Key)
    ensures var h' := h + [Sweep(t)];
            && (EverMarked(h', x) <==> EverMarked(h, x)) && LastMark(h', x) == LastMark(h, x)
            && Since(h', x) == Since(h, x) && (Expired(h', ttl, x) <==> Expired(h, ttl, x) || t - LastMark(h, x) > ttl)
  {
    var h' := h + [Sweep(t)];
    assert h'[..|h'| - 1] == h;
    assert forall i :: 0 <= i < |h| ==> h'[i] == h[i];
  }

  /** Where the entries of the list go when a key is marked. */
  lemma MarkedAt(o: Order, max: nat, k: Key, now: int, i: nat)
    requires max > 0 && i < |Marked(o, max, k, now)|
    ensures Marked(o, max, k, now)[i] ==
            if i == 0 then Entry(k, now) else if i <= PosOf(o, k) then o[i - 1] else o[i]
  {}

  /** A key keeps its place in the list of keys marked since, shifted by one if the marked key
      was not in front of it already. */
  lemma MarkKeepsPlaces(o: Order, h: seq<Event>, max: nat, ttl: int, k: Key, now: int)
    requires max > 0 && Mirrors(o, h, max, ttl)
    ensures DistinctKeys(Marked(o, max, k, now)) && InPlace(Marked(o, max, k, now), h + [Mark(k, now)])
  {
    hide LastMark, Since, Known, EverMarked, Expired, PosOf;
    var o', h' := Marked(o, max, k, now), h + [Mark(k, now)];
    var p := PosOf(o, k);
    forall i | 0 <= i < |o'| ensures o'[i].at == LastMark(h', o'[i].key) && KeysOf(o'[..i]) == Since(h', o'[i].key) {
      MarkedAt(o, max, k, now, i);
      AppendMark(h, k, now, ttl, o'[i].key);
      if i > 0 {
        PrefixKeys(o, max, k, now, i);
      }
    }
    forall i, j | 0 <= i < j < |o'| ensures o'[i].key != o'[j].key {
      MarkedAt(o, max, k, now, i);
      MarkedAt(o, max, k, now, j);
    }
  }

  lemma KeysConcat(a: Order, b: Order)
    ensures KeysOf(a + b) == KeysOf(a) + KeysOf(b)
  {
    forall x | x in KeysOf(b) ensures x in KeysOf(a + b) {
      var i :| 0 <= i < |b| && b[i].key == x;
      assert (a + b)[|a| + i].key == x;
    }
    forall x | x in KeysOf(a) ensures x in KeysOf(a + b) {
      var i :| 0 <= i < |a| && a[i].key == x;
      assert (a + b)[i].key == x;
    }
  }

  lemma KeysOfOne(e: Entry)
    ensures KeysOf([e]) == {e.key}
  {
    assert [e][0] == e;
  }

  lemma PrefixKeys(o: Order, max: nat, k: Key, now: int, i: nat)
    requires max > 0 && 0 < i < |Marked(o, max, k, now)|
    ensures var j := if i <= PosOf(o, k) then i - 1 else i;
            j <= |o| && KeysOf(Marked(o, max, k, now)[..i]) == KeysOf(o[..j]) + {k}
  {
    var o', p, e := Marked(o, max, k, now), PosOf(o, k), Entry(k, now);
    hide KeysOf, PosOf;
    KeysOfOne(e);
    if i <= p {
      assert o'[..i] == [e] + o[..i - 1];
      KeysConcat([e], o[..i - 1]);
    } else {
      assert o'[..i] == [e] + (o[..p] + o[p + 1..i]);
      KeysConcat([e], o[..p] + o[p + 1..i]);
      KeysConcat(o[..p], o[p + 1..i]);
      assert o[..i] == o[..p] + ([o[p]] + o[p + 1..i]);
      KeysConcat(o[..p], [o[p]] + o[p + 1..i]);
      KeysConcat([o[p]], o[p + 1..i]);
      KeysOfOne(o[p]);
    }
  }

  /** Marking a key keeps exactly the known keys listed. */
  lemma MarkKeepsKnown(o: Order, h: seq<Event>, max: nat, ttl: int, k: Key, now: int)
    requires max > 0 && Mirrors(o, h, max, ttl)
    ensures ListsKnown(Marked(o, max, k, now), h + [Mark(k, now)], max, ttl)
  {
    hide LastMark, Since, EverMarked, Expired;
    var o', h' := Marked(o, max, k, now), h + [Mark(k, now)];
    MarkKeepsPlaces(o, h, max, ttl, k, now);
    forall x ensures Has(o', x) <==> Known(h', max, ttl, x) {
      AppendMark(h, k, now, ttl, x);
      if x == k {
        assert o'[0].key == k;
      } else if !Has(o, x) {
        NotListedLater(o, max, k, now, x);
        assert !Known(h, max, ttl, x);
        assert Since(h, x) <= Since(h', x);
        SubsetSize(Since(h, x), Since(h', x));
      } else {
        KnownAfterMark(o, h, max, ttl, k, now, x);
      }
    }
  }

  lemma SubsetSize<T>(a: set<T>, b: set<T>)
    requires a <= b
    ensures |a| <= |b|
  {
    assert b == a + (b - a);
  }

  lemma NotListedLater(o: Order, max: nat, k: Key, now: int, x: Key)
    requires max > 0 && !Has(o, x) && x != k
    ensures !Has(Marked(o, max, k, now), x)
  {
    var o' := Marked(o, max, k, now);
    var q := PosOf(o', x);
    if q < |o'| {
      MarkedAt(o, max, k, now, q);
    }
  }

  /** Where a key goes when `k` is marked. */
  function Shifted(o: Order, k: Key, x: Key): nat {
    if PosOf(o, x) < PosOf(o, k) then PosOf(o, x) + 1 else PosOf(o, x)
  }

  lemma SinceSize(o: Order, h: seq<Event>, k: Key, now: int, x: Key)
    requires DistinctKeys(o) && InPlace(o, h) && x != k && Has(o, x)
    ensures |Since(h + [Mark(k, now)], x)| == Shifted(o, k, x)
  {
    AppendMark(h, k, now, 0, x);
    hide LastMark, Since, EverMarked, Expired;
    var p, i := PosOf(o, k), PosOf(o, x);
    CountKeys(o[..i]);
    if p < i {
      assert o[..i][p].key == k;
      assert Since(h, x) + {k} == Since(h, x);
    } else {
      assert k !in KeysOf(o[..i]);
    }
  }

  /** A listed key stays listed unless the marked key pushes it out, and it is pushed out exactly
      when too many keys have been marked since. */
  lemma KnownAfterMark(o: Order, h: seq<Event>, max: nat, ttl: int, k: Key, now: int, x: Key)
    requires max > 0 && Mirrors(o, h, max, ttl) && x != k && Has(o, x)
    ensures Has(Marked(o, max, k, now), x) <==> Known(h + [Mark(k, now)], max, ttl, x)
  {
    LengthBounded(o, h, max, ttl);
    AppendMark(h, k, now, ttl, x);
    SinceSize(o, h, k, now, x);
    MovesTo(o, max, k, now, x);
    assert Known(h, max, ttl, x);
    hide LastMark, Since, EverMarked, Expired, PosOf, Mirrors;
  }

  lemma MovesTo(o: Order, max: nat, k: Key, now: int, x: Key)
    requires max > 0 && DistinctKeys(o) && Has(o, x) && x != k
    ensures Has(Marked(o, max, k, now), x) <==>
            Shifted(o, k, x) < |Marked(o, max, k, now)|
  {
    var o', i := Marked(o, max, k, now), PosOf(o, x);
    var at := if i < PosOf(o, k) then i + 1 else i;
    if at < |o'| {
      MarkedAt(o, max, k, now, at);
      assert o'[at].key == x;
    } else {
      var n := PosOf(o', x);
      if n < |o'| {
        MarkedAt(o, max, k, now, n);
      }
    }
  }

  lemma LengthBounded(o: Order, h: seq<Event>, max: nat, ttl: int)
    requires Mirrors(o, h, max, ttl)
    ensures |o| <= max
  {
    hide LastMark, Since, EverMarked, Expired;
    if o != [] {
      var n := |o| - 1;
      assert Has(o, o[n].key);
      assert Known(h, max, ttl, o[n].key);
      CountKeys(o[..n]);
    }
  }

  /* ---- sweeps ---- */

  lemma {:induction false} MarkedSinceIsNewer(h: seq<Event>, k: Key, x: Key)
    requires Monotone(h) && EverMarked(h, k) && x in Since(h, k)
    ensures LastMark(h, k) <= LastMark(h, x)
    ensures EverMarked(h, x) && exists i :: 0 <= i < |h| && LastMark(h, x) == h[i].at
    decreases |h|
  {
    var n := |h| - 1;
    var e := h[n];
    if e.Mark? && e.key == x {
      LastMarkInHistory(h[..n], k);
      var i :| 0 <= i < n && h[..n][i].at == LastMark(h[..n], k);
      assert h[i].at <= h[n].at;
    } else {
      var i :| 0 <= i < |h| && h[i].Mark? && h[i].key == k;
      assert h[..n][i] == h[i];
      MarkedSinceIsNewer(h[..n], k, x);
      var j :| 0 <= j < n && h[..n][j].at == LastMark(h[..n], x);
      assert h[j].at == LastMark(h, x);
      var m :| 0 <= m < n && h[..n][m].Mark? && h[..n][m].key == x;
      assert h[m].Mark? && h[m].key == x;
    }
  }

  lemma {:induction false} LastMarkInHistory(h: seq<Event>, k: Key)
    requires exists i :: 0 <= i < |h| && h[i].Mark? && h[i].key == k
    ensures exists i :: 0 <= i < |h| && h[i].at == LastMark(h, k)
    decreases |h|
  {
    var n := |h| - 1;
    if !(h[n].Mark? && h[n].key == k) {
      var i :| 0 <= i < |h| && h[i].Mark? && h[i].key == k;
      assert h[..n][i] == h[i];
      LastMarkInHistory(h[..n], k);
      var j :| 0 <= j < n && h[..n][j].at == LastMark(h[..n], k);
      assert h[j].at == LastMark(h, k);
    }
  }

  /** Older entries stand further back, so a sweep cuts off the end of the list. */
  lemma {:induction false} SweptPrefix(o: Order, ttl: int, now: int) returns (n: nat)
    requires forall i, j :: 0 <= i < j < |o| ==> o[i].at >= o[j].at
    ensures n <= |o| && Swept(o, ttl, now) == o[..n]
    ensures forall i :: 0 <= i < |o| ==> (i < n <==> now - o[i].at <= ttl)
    decreases |o|
  {
    if o == [] {
      n := 0;
    } else {
      n := SweptPrefix(o[1..], ttl, now);
      if now - o[0].at > ttl {
        assert forall i :: 0 <= i < |o[1..]| ==> o[1..][i] == o[i + 1];
        assert n == 0;
      } else {
        n := n + 1;
        assert o[..n] == [o[0]] + o[1..][..n - 1];
        assert forall i :: 0 < i < |o| ==> o[i] == o[1..][i - 1];
      }
    }
  }

  lemma ByAge(o: Order, h: seq<Event>, max: nat, ttl: int)
    requires Monotone(h) && Mirrors(o, h, max, ttl)
    ensures forall i, j :: 0 <= i < j < |o| ==> o[i].at >= o[j].at
  {
    hide LastMark, Since, EverMarked, Expired;
    forall i, j | 0 <= i < j < |o| ensures o[i].at >= o[j].at {
      assert Has(o, o[j].key);
      assert o[..j][i].key == o[i].key;
      MarkedSinceIsNewer(h, o[j].key, o[i].key);
    }
  }

  lemma SweepKeepsMirror(o: Order, h: seq<Event>, max: nat, ttl: int, now: int)
    requires Monotone(h) && Mirrors(o, h, max, ttl)
    ensures Mirrors(Swept(o, ttl, now), h + [Sweep(now)], max, ttl)
  {
    hide LastMark, Since, EverMarked, Expired, Swept;
    ByAge(o, h, max, ttl);
    var n := SweptPrefix(o, ttl, now);
    var o', h' := o[..n], h + [Sweep(now)];
    forall i | 0 <= i < n ensures o'[i].at == LastMark(h', o'[i].key) && KeysOf(o'[..i]) == Since(h', o'[i].key) {
      AppendSweep(h, now, ttl, o[i].key);
      assert o'[..i] == o[..i];
    }
    forall x ensures Has(o', x) <==> Known(h', max, ttl, x) {
      AppendSweep(h, now, ttl, x);
      assert Has(o, x) <==> Known(h, max, ttl, x);
      var p, q := PosOf(o, x), PosOf(o', x);
      if p < n {
        assert o'[p].key == x;
      }
      if q < n {
        assert o[q].key == x && q == p;
      }
    }
  }

  /** The tracker is an exact LRU with expiry: after any history without sweeps, or under a clock
      that does not run backwards, the list mirrors the history. */
  lemma {:induction false} TrackerMirrorsHistory(max: nat, ttl: int, h: seq<Event>)
    requires max > 0 && (Monotone(h) || forall e :: e in h ==> e.Mark?)
    ensures Mirrors(After(max, ttl, h), h, max, ttl)
    decreases |h|
  {
    hide LastMark, Since, EverMarked, Expired;
    if h == [] {
      EmptyMirror(max, ttl);
    } else {
      var n := |h| - 1;
      assert h == h[..n] + [h[n]];
      assert h[n] in h;
      TrackerMirrorsHistory(max, ttl, h[..n]);
      var o := After(max, ttl, h[..n]);
      match h[n]
      case Mark(k, t) =>
        MarkKeepsPlaces(o, h[..n], max, ttl, k, t);
        MarkKeepsKnown(o, h[..n], max, ttl, k, t);
      case Sweep(t) => SweepKeepsMirror(o, h[..n], max, ttl, t);
    }
  }

  lemma EmptyMirror(max: nat, ttl: int)
    ensures Mirrors([], [], max, ttl)
  {}

  /** Without sweeps: a key counts as seen exactly when it was marked and fewer than `max`
      distinct other keys were marked since. */
  lemma DuplicateIffRecentlyMarked(max: nat, ttl: int, h: seq<Event>, k: Key)
    requires max > 0 && forall e :: e in h ==> e.Mark?
    ensures Has(After(max, ttl, h), k) <==> EverMarked(h, k) && |Since(h, k)| < max
  {
    TrackerMirrorsHistory(max, ttl, h);
    NeverExpires(h, ttl, k);
    hide LastMark, Since, EverMarked, Expired, Has, After;
    assert Has(After(max, ttl, h), k) <==> Known(h, max, ttl, k);
  }

  lemma {:induction false} NeverExpires(h: seq<Event>, ttl: int, k: Key)
    requires forall e :: e in h ==> e.Mark?
    ensures !Expired(h, ttl, k)
    decreases |h|
  {
    if h != [] {
      assert h[|h| - 1] in h;
      NeverExpires(h[..|h| - 1], ttl, k);
    }
  }

  /* ---- the tracker itself: a map and a list changed together ---- */

  function Minus(keys: seq<Key>, gone: set<Key>): seq<Key> {
    if keys == [] then [] else (if keys[0] in gone then [] else [keys[0]]) + Minus(keys[1..], gone)
  }

  lemma {:induction false} MinusMembers(keys: seq<Key>, gone: set<Key>)
    ensures forall k :: k in Minus(keys, gone) <==> k in keys && k !in gone
    ensures Distinct(keys) ==> Distinct(Minus(keys, gone))
    decreases |keys|
  {
    if keys != [] {
      MinusMembers(keys[1..], gone);
    }
  }

  lemma {:induction false} MinusTwice(keys: seq<Key>, a: set<Key>, b: set<Key>)
    ensures Minus(Minus(keys, a), b) == Minus(keys, a + b)
    decreases |keys|
  {
    if keys != [] {
      MinusTwice(keys[1..], a, b);
      if keys[0] !in a {
        var rest := Minus(keys[1..], a);
        assert Minus(keys, a) == [keys[0]] + rest && ([keys[0]] + rest)[1..] == rest;
      } else {
        assert Minus(keys, a) == Minus(keys[1..], a);
        assert Minus(keys, a + b) == Minus(keys[1..], a + b);
      }
    }
  }

  lemma {:induction false} MinusNothing(keys: seq<Key>, gone: set<Key>)
    requires forall k :: k in keys ==> k !in gone
    ensures Minus(keys, gone) == keys
    decreases |keys|
  {
    if keys != [] {
      MinusNothing(keys[1..], gone);
    }
  }

  lemma {:induction false} MinusAt(keys: seq<Key>, i: nat)
    requires Distinct(keys) && i < |keys|
    ensures Minus(keys, {keys[i]}) == keys[..i] + keys[i + 1..]
    decreases |keys|
  {
    if i == 0 {
      MinusNothing(keys[1..], {keys[0]});
    } else {
      assert keys[1..][i - 1] == keys[i];
      MinusAt(keys[1..], i - 1);
      assert keys[1..][..i - 1] == keys[1..i] && keys[1..][i..] == keys[i + 1..];
      assert keys[..i] == [keys[0]] + keys[1..i];
    }
  }

  function Names(o: Order): (r: seq<Key>)
    ensures |r| == |o| && forall i :: 0 <= i < |o| ==> r[i] == o[i].key
  {
    if o == [] then [] else [o[0].key] + Names(o[1..])
  }

  lemma {:induction false} NamesSlice(o: Order, i: nat, j: nat)
    requires i <= j <= |o|
    ensures Names(o[i..j]) == Names(o)[i..j]
  {
    assert forall n :: 0 <= n < j - i ==> Names(o[i..j])[n] == Names(o)[i..j][n];
  }

  lemma {:induction false} NamesConcat(a: Order, b: Order)
    ensures Names(a + b) == Names(a) + Names(b)
  {
    assert forall n :: 0 <= n < |a + b| ==> Names(a + b)[n] == (Names(a) + Names(b))[n];
  }

  /** The list's time stamps are those of the map. */
  ghost predicate Stamped(o: Order, times: map<Key, int>) {
    forall i :: 0 <= i < |o| ==> o[i].key in times && times[o[i].key] == o[i].at
  }

  /** The map's keys and the list's elements are in bijection, and the time stamps agree. */
  ghost predicate Tied(keys: seq<Key>, times: map<Key, int>, o: Order) {
    Distinct(keys) && keys == Names(o) && (forall k :: k in keys <==> k in times) && Stamped(o, times)
  }

  lemma MoveNames(keys: seq<Key>, o: Order, k: Key, now: int)
    requires Distinct(keys) && keys == Names(o) && Has(o, k)
    ensures [k] + Minus(keys, {k}) == Names(Marked(o, 1, k, now))
  {
    hide Minus, PosOf, Names, Distinct;
    var p, e := PosOf(o, k), Entry(k, now);
    MinusAt(keys, p);
    NamesSlice(o, 0, p);
    NamesSlice(o, p + 1, |o|);
    NamesConcat(o[..p], o[p + 1..]);
    NamesConcat([e], o[..p] + o[p + 1..]);
    assert Names([e]) == [k];
  }

  lemma MoveStamps(keys: seq<Key>, times: map<Key, int>, o: Order, k: Key, now: int)
    requires Distinct(keys) && keys == Names(o) && Has(o, k) && Stamped(o, times)
    ensures Stamped(Marked(o, 1, k, now), times[k := now])
  {
    hide PosOf, Names;
    var p, o' := PosOf(o, k), Marked(o, 1, k, now);
    forall i | 0 <= i < |o'| ensures o'[i].key in times[k := now] && times[k := now][o'[i].key] == o'[i].at {
      MarkedAt(o, 1, k, now, i);
      if i > 0 {
        var j := if i <= p then i - 1 else i;
        assert keys[j] == o[j].key && keys[p] == k;
      }
    }
  }

  lemma TiedMove(keys: seq<Key>, times: map<Key, int>, o: Order, k: Key, now: int)
    requires Tied(keys, times, o) && Has(o, k)
    ensures Tied([k] + Minus(keys, {k}), times[k := now], Marked(o, 1, k, now))
  {
    hide Minus, PosOf, Names, Stamped, Marked;
    MoveNames(keys, o, k, now);
    MoveStamps(keys, times, o, k, now);
    MinusMembers(keys, {k});
    assert keys[PosOf(o, k)] == k;
  }

  lemma TiedPush(keys: seq<Key>, times: map<Key, int>, o: Order, k: Key, now: int)
    requires Tied(keys, times, o) && k !in times
    ensures Tied([k] + keys, times[k := now], [Entry(k, now)] + o)
  {
    hide Names;
    NamesConcat([Entry(k, now)], o);
  }

  lemma TiedDrop(keys: seq<Key>, times: map<Key, int>, o: Order)
    requires Tied(keys, times, o) && keys != []
    ensures Tied(keys[..|keys| - 1], times - {keys[|keys| - 1]}, o[..|o| - 1])
  {
    hide Names;
    var n := |keys| - 1;
    NamesSlice(o, 0, n);
    forall i | 0 <= i < n ensures o[i].key in times - {keys[n]} && (times - {keys[n]})[o[i].key] == o[i].at {
      assert keys[i] == o[i].key && keys[i] != keys[n];
    }
    forall k ensures k in keys[..n] <==> k in times - {keys[n]} {
      assert k in keys <==> k in keys[..n] || k == keys[n];
    }
  }

  lemma TiedSweep(keys: seq<Key>, times: map<Key, int>, o: Order, left: map<Key, int>, gone: set<Key>, ttl: int,
                  now: int)
    requires Tied(keys, times, o)
    requires forall k :: k in gone <==> k in times && now - times[k] > ttl
    requires forall k :: k in left <==> k in times && k !in gone
    requires forall k :: k in left ==> left[k] == times[k]
    ensures Tied(Minus(keys, gone), left, Swept(o, ttl, now))
  {
    hide Swept, Minus, Names;
    var o' := Swept(o, ttl, now);
    MinusMembers(keys, gone);
    SweptNames(o, ttl, now, gone);
    SweptMembers(o, ttl, now);
    forall i | 0 <= i < |o'| ensures o'[i].key in left && left[o'[i].key] == o'[i].at {
      assert o'[i] in o;
      assert Names(o')[i] in Minus(keys, gone);
    }
  }

  lemma TiedHas(keys: seq<Key>, times: map<Key, int>, o: Order, k: Key)
    requires Tied(keys, times, o)
    ensures k in times <==> Has(o, k)
    ensures |times| == |o|
  {
    if k in times {
      var i :| 0 <= i < |keys| && keys[i] == k;
      assert o[i].key == k;
    }
    SizeOfDistinct(keys);
    assert times.Keys == set x | x in keys;
  }

  /** A sweep of the list takes out exactly the keys that are too old. */
  lemma {:induction false} SweptNames(o: Order, ttl: int, now: int, gone: set<Key>)
    requires forall i :: 0 <= i < |o| ==> (o[i].key in gone <==> now - o[i].at > ttl)
    ensures Names(Swept(o, ttl, now)) == Minus(Names(o), gone)
    decreases |o|
  {
    if o != [] {
      SweptNames(o[1..], ttl, now, gone);
      assert Names(o)[1..] == Names(o[1..]);
      var rest := Swept(o[1..], ttl, now);
      assert ([o[0]] + rest)[1..] == rest;
    }
  }

  lemma {:induction false} SweptMembers(o: Order, ttl: int, now: int)
    ensures forall e :: e in Swept(o, ttl, now) ==> e in o
    decreases |o|
  {
    if o != [] {
      SweptMembers(o[1..], ttl, now);
    }
  }

  class DedupTracker {
    var entries: map<Key, int>
    var order: seq<Key>
    const maxSize: nat
    const ttl: int
    /** The list with its time stamps, most recently marked first. */
    ghost var contents: Order

    /** The map's keys and the list's elements are in bijection. */
    ghost predicate Valid()
      reads this
    {
      maxSize > 0 && Tied(order, entries, contents)
    }

    /** Non-positive limits are replaced by defaults (10000 keys, five minutes in nanoseconds). */
    constructor (maxSize: int, ttl: int)
      ensures Valid() && contents == [] && this.maxSize == (if maxSize <= 0 then 10000 else maxSize)
      ensures this.ttl == if ttl <= 0 then 300_000_000_000 else ttl
    {
      this.maxSize := if maxSize <= 0 then 10000 else maxSize;
      this.ttl := if ttl <= 0 then 300_000_000_000 else ttl;
      entries, order, contents := map[], [], [];
    }

    method Seen(k: Key) returns (seen: bool)
      requires Valid()
      ensures seen == Has(contents, k)
    {
      TiedHas(order, entries, contents, k);
      seen := k in entries;
    }

    /** `markLocked`. */
    method Mark(k: Key, now: int)
      requires Valid()
      modifies this
      ensures Valid() && contents == Marked(old(contents), maxSize, k, now)
    {
      hide Tied;
      TiedHas(order, entries, contents, k);
      if k in entries {
        TiedMove(order, entries, contents, k, now);
        order := [k] + Minus(order, {k});
        entries := entries[k := now];
        contents := Marked(contents, 1, k, now);
        return;
      }
      if |entries| >= maxSize {
        DropOldest();
        TiedHas(order, entries, contents, k);
      }
      TiedPush(order, entries, contents, k, now);
      order := [k] + order;
      entries := entries[k := now];
      contents := [Entry(k, now)] + contents;
    }

    method DropOldest()
      requires Valid() && entries != map[]
      modifies this
      ensures Valid() && contents == old(contents)[..|old(contents)| - 1]
      ensures forall k :: k in entries ==> k in old(entries)
    {
      TiedHas(order, entries, contents, "");
      TiedDrop(order, entries, contents);
      var n := |order| - 1;
      entries := entries - {order[n]};
      order := order[..n];
      contents := contents[..n];
    }

    /** `CheckAndMark`: reports a duplicate, and marks the key either way. */
    method CheckAndMark(k: Key, now: int) returns (duplicate: bool)
      requires Valid()
      modifies this
      ensures duplicate == Has(old(contents), k)
      ensures Valid() && contents == Marked(old(contents), maxSize, k, now)
    {
      duplicate := Seen(k);
      Mark(k, now);
    }

    /** One cleanup tick: the map is walked in any order and both structures shrink together. */
    method Cleanup(now: int)
      requires Valid()
      modifies this
      ensures Valid() && contents == Swept(old(contents), ttl, now)
    {
      hide Tied;
      ghost var gone: set<Key> := {};
      var todo := entries.Keys;
      MinusNothing(order, {});
      while todo != {}
        invariant todo <= old(entries).Keys && contents == old(contents)
        invariant forall k :: k in gone <==> k in old(entries) && k !in todo && now - old(entries)[k] > ttl
        invariant forall k :: k in entries <==> k in old(entries) && k !in gone
        invariant forall k :: k in entries ==> entries[k] == old(entries)[k]
        invariant order == Minus(old(order), gone)
        decreases todo
      {
        var k :| k in todo;
        if now - entries[k] > ttl {
          MinusTwice(old(order), gone, {k});
          order := Minus(order, {k});
          entries := entries - {k};
          gone := gone + {k};
        }
        todo := todo - {k};
      }
      TiedSweep(old(order), old(entries), contents, entries, gone, ttl, now);
      contents := Swept(contents, ttl, now);
    }

    method Clear()
      requires Valid()
      modifies this
      ensures Valid() && contents == []
    {
      entries, order, contents := map[], [], [];
    }
  }

  lemma {:induction false} SizeOfDistinct(keys: seq<Key>)
    requires Distinct(keys)
    ensures |set k | k in keys| == |keys|
    decreases |keys|
  {
    if keys != [] {
      var init, last := keys[..|keys| - 1], keys[|keys| - 1];
      SizeOfDistinct(init);
      assert (set k | k in keys) == (set k | k in init) + {last};
    }
  }
}
