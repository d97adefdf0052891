/**
 The skip list: one linked list per level, threaded through the nodes' `forward` pointers, and its
 only defined operation, insertion.
 */
module SkipList {

  // ---------------------------------------------------------------- the specification: a sorted association list

  /** How many keys from the front are smaller than `k`. */
  function Rank<V>(s: seq<(int, V)>, k: int): (p: nat)
    ensures p <= |s|
  {
    if s == [] || s[0].0 >= k then 0 else 1 + Rank(s[1..], k)
  }

  /** Inserting a key that is present changes nothing: the first value stays. */
  function Put<V>(s: seq<(int, V)>, k: int, v: V): seq<(int, V)> {
    var p := Rank(s, k);
    if p < |s| && s[p].0 == k then s else s[..p] + [(k, v)] + s[p..]
  }

  ghost predicate Increasing<V>(s: seq<(int, V)>) {
    forall i, j :: 0 <= i < j < |s| ==> s[i].0 < s[j].0
  }

  ghost predicate HasKey<V>(s: seq<(int, V)>, k: int) {
    exists i :: 0 <= i < |s| && s[i].0 == k
  }

  /** The list built by a sequence of inserts. */
  function Build<V>(ops: seq<(int, V)>): seq<(int, V)> {
    if ops == [] then [] else
      var (k, v) := ops[|ops| - 1];
      Put(Build(ops[..|ops| - 1]), k, v)
  }

  lemma {:induction false} RankSplits<V>(s: seq<(int, V)>, k: int)
    requires Increasing(s)
    ensures var p := Rank(s, k);
            && (forall i :: 0 <= i < p ==> s[i].0 < k) && (forall i :: p <= i < |s| ==> k <= s[i].0)
            && (HasKey(s, k) <==> p < |s| && s[p].0 == k)
  {
    if s != [] && s[0].0 < k {
      var t := s[1..];
      assert forall i :: 0 <= i < |t| ==> t[i] == s[i + 1];
      RankSplits(t, k);
      forall i | 0 <= i < Rank(s, k) ensures s[i].0 < k {
        if i > 0 { assert t[i - 1].0 < k; }
      }
      forall i | Rank(s, k) <= i < |s| ensures k <= s[i].0 {
        assert k <= t[i - 1].0;
      }
    }
  }

  lemma {:induction false} PutElements<V>(s: seq<(int, V)>, k: int, v: V)
    requires Increasing(s)
    ensures Increasing(Put(s, k, v))
    ensures forall e :: e in Put(s, k, v) <==> e in s || (e == (k, v) && !HasKey(s, k))
    ensures |Put(s, k, v)| == |s| + (if HasKey(s, k) then 0 else 1)
  {
    RankSplits(s, k);
    var p := Rank(s, k);
    hide Rank, HasKey;
    PutSorted(s, p, k, v);
    hide Increasing;
    assert s == s[..p] + s[p..];
  }

  lemma {:induction false} PutSorted<V>(s: seq<(int, V)>, p: nat, k: int, v: V)
    requires Increasing(s) && p <= |s| && (forall i :: 0 <= i < p ==> s[i].0 < k)
    ensures (forall i :: p <= i < |s| ==> k < s[i].0) ==> Increasing(s[..p] + [(k, v)] + s[p..])
    ensures p < |s| && k < s[p].0 ==> Increasing(s[..p] + [(k, v)] + s[p..])
    ensures p == |s| ==> Increasing(s[..p] + [(k, v)] + s[p..])
  {
    if p == |s| || k < s[p].0 {
      var r := s[..p] + [(k, v)] + s[p..];
      assert forall i :: p <= i < |s| ==> k < s[i].0;
      forall i, j | 0 <= i < j < |r| ensures r[i].0 < r[j].0 {
        assert r[i] == if i < p then s[i] else if i == p then (k, v) else s[i - 1];
        assert r[j] == if j < p then s[j] else if j == p then (k, v) else s[j - 1];
      }
    }
  }

  lemma {:induction false} BuildKeys<V>(ops: seq<(int, V)>, k: int)
    ensures Increasing(Build(ops)) && (HasKey(Build(ops), k) <==> HasKey(ops, k))
  {
    if ops != [] {
      var n := |ops| - 1;
      BuildKeys(ops[..n], k);
      PutElements(Build(ops[..n]), ops[n].0, ops[n].1);
      HasKeyPut(Build(ops[..n]), ops[n].0, ops[n].1, k);
      HasKeyMore(ops, n, k);
    }
  }

  lemma {:induction false} HasKeyMore<V>(ops: seq<(int, V)>, n: nat, k: int)
    requires n + 1 == |ops|
    ensures HasKey(ops, k) <==> HasKey(ops[..n], k) || ops[n].0 == k
  {
    var pre := ops[..n];
    if HasKey(pre, k) { var i :| 0 <= i < n && pre[i].0 == k; assert ops[i].0 == k; }
    if HasKey(ops, k) && ops[n].0 != k { var i :| 0 <= i <= n && ops[i].0 == k; assert pre[i].0 == k; }
  }

  /** After any inserts the list is sorted and holds exactly the keys inserted, each with its first value. */
  lemma {:induction false} BuildHoldsFirstValues<V>(ops: seq<(int, V)>, k: int, v: V)
    ensures Increasing(Build(ops))
    ensures (k, v) in Build(ops) <==> exists i :: 0 <= i < |ops| && ops[i] == (k, v) && !HasKey(ops[..i], k)
    ensures HasKey(Build(ops), k) <==> HasKey(ops, k)
  {
    BuildKeys(ops, k);
    if ops != [] {
      var n := |ops| - 1;
      var pre := ops[..n];
      BuildHoldsFirstValues(pre, k, v);
      BuildKeys(pre, ops[n].0);
      PutElements(Build(pre), ops[n].0, ops[n].1);
      hide Build, Put, HasKey, Increasing;
      if HasKey(pre, ops[n].0) || ops[n] != (k, v) {
        FirstInPrefix(ops, n, k, v);
      } else {
        assert ops[n] == (k, v) && !HasKey(ops[..n], k);
      }
    }
  }

  lemma {:induction false} HasKeyPut<V>(s: seq<(int, V)>, k0: int, v0: V, k: int)
    requires Increasing(s)
    ensures HasKey(Put(s, k0, v0), k) <==> HasKey(s, k) || k == k0
  {
    PutElements(s, k0, v0);
    var r := Put(s, k0, v0);
    if HasKey(r, k) {
      var i :| 0 <= i < |r| && r[i].0 == k;
      assert r[i] in r;
      if r[i] in s { var j :| 0 <= j < |s| && s[j] == r[i]; }
    }
    if HasKey(s, k) {
      var i :| 0 <= i < |s| && s[i].0 == k;
      assert s[i] in r;
      var j :| 0 <= j < |r| && r[j] == s[i];
    } else if k == k0 {
      assert (k0, v0) in r;
      var j :| 0 <= j < |r| && r[j] == (k0, v0);
    }
  }

  /** Whether some pair is a first insertion does not depend on a last insertion that is not one. */
  lemma {:induction false} FirstInPrefix<V>(ops: seq<(int, V)>, n: nat, k: int, v: V)
    requires n + 1 == |ops|
    requires ops[n] != (k, v) || HasKey(ops[..n], k)
    ensures (exists i :: 0 <= i < n && ops[..n][i] == (k, v) && !HasKey(ops[..n][..i], k))
       <==> (exists i :: 0 <= i < |ops| && ops[i] == (k, v) && !HasKey(ops[..i], k))
  {
    assert forall i :: 0 <= i < n ==> ops[..n][..i] == ops[..i] && ops[..n][i] == ops[i];
  }

  // ---------------------------------------------------------------- the linked structure

  class Node<V> {
    const key: int
    const val: V
    const level: nat
    var forward: seq<Node?<V>>

    constructor (k: int, v: V, level: nat)
      ensures key == k && val == v && this.level == level
      ensures |forward| == level + 1 && forall i :: 0 <= i <= level ==> forward[i] == null
    {
      key, val, this.level := k, v, level;
      forward := seq(level + 1, _ => null);
    }
  }

  /** Keys strictly increase along the list. */
  ghost predicate Sorted<V>(s: seq<Node<V>>) {
    forall i, j :: 0 <= i < j < |s| ==> s[i].key < s[j].key
  }

  /** The first node after place `p` of the list. */
  function NodeAt<V>(s: seq<Node<V>>, p: nat): Node?<V> {
    if p < |s| then s[p] else null
  }

  /** Following `forward[i]` from `h` visits exactly the nodes of `s`, in order, and ends. */
  ghost predicate Chained<V>(h: Node<V>, i: nat, s: seq<Node<V>>)
    reads h, s
  {
    && i < |h.forward| && h.forward[i] == NodeAt(s, 0)
    && forall k {:trigger s[k].forward} :: 0 <= k < |s| ==> i < |s[k].forward| && s[k].forward[i] == NodeAt(s, k + 1)
  }

  function Entries<V>(s: seq<Node<V>>): seq<(int, V)> {
    seq(|s|, i requires 0 <= i < |s| => (s[i].key, s[i].val))
  }

  /** The keys with the heights of their nodes. */
  function Heights<V>(s: seq<Node<V>>): seq<(int, nat)> {
    seq(|s|, i requires 0 <= i < |s| => (s[i].key, s[i].level))
  }

  /** The list `s` with `n` put in at place `p`. */
  function Spliced<V>(s: seq<Node<V>>, p: nat, n: Node<V>): seq<Node<V>>
    requires p <= |s|
  {
    s[..p] + [n] + s[p..]
  }

  /** Place `p` splits the list at `key`. */
  ghost predicate SplitsAt<V>(s: seq<Node<V>>, p: nat, key: int) {
    p <= |s| && (forall k :: 0 <= k < p ==> s[k].key < key) && (p < |s| ==> key <= s[p].key)
  }

  /** The node before place `p`: the header for the first place. */
  function Before<V>(h: Node<V>, s: seq<Node<V>>, p: nat): Node<V>
    requires p <= |s|
  {
    if p == 0 then h else s[p - 1]
  }

  /** Links `n` into one level, right after `u`. */
  method Link<V>(h: Node<V>, i: nat, ghost s: seq<Node<V>>, ghost p: nat, u: Node<V>, n: Node<V>)
    requires Chained(h, i, s) && p <= |s| && u == Before(h, s, p)
    requires n !in s && n != h && h !in s && i < |n.forward|
    requires forall j, k :: 0 <= j < k < |s| ==> s[j] != s[k]
    modifies u, n
    ensures u.forward == old(u.forward)[i := n]
    ensures n.forward == old(n.forward)[i := old(u.forward)[i]]
    ensures Chained(h, i, Spliced(s, p, n))
  {
    n.forward := n.forward[i := u.forward[i]];
    u.forward := u.forward[i := n];
    ghost var r := Spliced(s, p, n);
    forall k | 0 <= k < |r| ensures i < |r[k].forward| && r[k].forward[i] == NodeAt(r, k + 1) {
      SplicedAt(s, p, n, k);
      if k + 1 < |r| { SplicedAt(s, p, n, k + 1); }
      if k + 1 < p {
        assert s[k] != s[p - 1] && s[k].forward == old(s[k].forward);
      } else if k > p {
        assert s[k - 1] != u && s[k - 1].forward == old(s[k - 1].forward);
      }
    }
    SplicedAt(s, p, n, 0);
  }

  lemma {:induction false} SplicedAt<V>(s: seq<Node<V>>, p: nat, n: Node<V>, k: nat)
    requires p <= |s| && k <= |s|
    ensures Spliced(s, p, n)[k] == if k < p then s[k] else if k == p then n else s[k - 1]
  {}

  /** The inner search loop: walks level `i` while the next key is smaller. */
  method Walk<V>(key: int, h: Node<V>, i: nat, ghost s: seq<Node<V>>, from: Node<V>) returns (u: Node<V>, ghost p: nat)
    requires Chained(h, i, s) && Sorted(s) && h !in s
    requires from == h || (from in s && from.key < key)
    ensures SplitsAt(s, p, key) && u == Before(h, s, p)
  {
    u := from;
    if from == h {
      p := 0;
    } else {
      ghost var k :| 0 <= k < |s| && s[k] == from;
      p := k + 1;
    }
    assert u.forward[i] == NodeAt(s, p);
    while u.forward[i] != null && u.forward[i].key < key
      invariant p <= |s| && u == Before(h, s, p) && u.forward[i] == NodeAt(s, p)
      invariant forall k :: 0 <= k < p ==> s[k].key < key
      decreases |s| - p
    {
      u := u.forward[i];
      assert u == s[p];
      p := p + 1;
    }
  }

  /** One round of the linking loop: the other levels stay as they are. */
  method LinkLevel<V>(h: Node<V>, ghost lists: seq<seq<Node<V>>>, i: nat, ghost p: nat, u: Node<V>, n: Node<V>)
    returns (ghost now: seq<seq<Node<V>>>)
    requires i < |lists| && n != h && i < |n.forward|
    requires Sorted(lists[i]) && h !in lists[i] && n !in lists[i]
    requires forall j :: 0 <= j < |lists| ==> Chained(h, j, lists[j])
    requires p <= |lists[i]| && u == Before(h, lists[i], p)
    modifies u, n
    ensures |u.forward| == |old(u.forward)| && |n.forward| == |old(n.forward)|
    ensures now == lists[i := Spliced(lists[i], p, n)]
    ensures forall j :: 0 <= j < |now| ==> Chained(h, j, now[j])
  {
    now := lists[i := Spliced(lists[i], p, n)];
    Link(h, i, lists[i], p, u, n);
    forall j | 0 <= j < |lists| && j != i ensures Chained(h, j, lists[j]) {
      ghost var s := lists[j];
      assert old(Chained(h, j, s));
      assert h.forward[j] == old(h.forward[j]);
      forall k | 0 <= k < |s| ensures j < |s[k].forward| && s[k].forward[j] == NodeAt(s, k + 1) {
        assert old(j < |s[k].forward| && s[k].forward[j] == NodeAt(s, k + 1));
        assert s[k].forward[j] == old(s[k].forward[j]);
      }
    }
  }

  /** The lists once `n` is in the first `count` levels. */
  ghost function SplicedUpTo<V>(lists: seq<seq<Node<V>>>, at: seq<nat>, n: Node<V>, count: nat): seq<seq<Node<V>>>
    requires |at| == |lists| && count <= |lists| && forall j :: 0 <= j < count ==> at[j] <= |lists[j]|
  {
    seq(|lists|, j requires 0 <= j < |lists| => if j < count then Spliced(lists[j], at[j], n) else lists[j])
  }

  /** The linking loop: puts `n` into every level up to its own. */
  method LinkAll<V>(h: Node<V>, ghost lists: seq<seq<Node<V>>>, ghost top: nat, n: Node<V>, update: array<Node?<V>>,
                    ghost at: seq<nat>, ghost nodes: set<Node<V>>) returns (ghost now: seq<seq<Node<V>>>)
    requires update.Length == |at| == |lists| && n.level < |lists|
    requires |n.forward| == n.level + 1 && n != h && h !in nodes && n !in nodes
    requires Levelled(lists, top) && nodes == set m | m in lists[0]
    requires forall i :: 0 <= i < |lists| ==> Chained(h, i, lists[i])
    requires forall i :: 0 <= i <= n.level ==> at[i] <= |lists[i]| && update[i] == Before(h, lists[i], at[i])
    modifies n, h, nodes
    ensures now == SplicedUpTo(lists, at, n, n.level + 1) && |now| == |lists|
    ensures forall i :: 0 <= i < |now| ==> Chained(h, i, now[i])
    ensures |h.forward| == |old(h.forward)| && |n.forward| == |old(n.forward)|
    ensures forall m :: m in nodes ==> |m.forward| == |old(m.forward)|
  {
    hide Chained, Sorted;
    now := lists;
    assert now == SplicedUpTo(lists, at, n, 0);
    var i := 0;
    while i <= n.level
      invariant 0 <= i <= n.level + 1
      invariant now == SplicedUpTo(lists, at, n, i)
      invariant forall j :: 0 <= j < |now| ==> Chained(h, j, now[j])
      invariant |h.forward| == |old(h.forward)| && |n.forward| == |old(n.forward)|
      invariant forall m :: m in nodes ==> |m.forward| == |old(m.forward)|
    {
      now := LinkLevel(h, now, i, at[i], update[i], n);
      assert now == SplicedUpTo(lists, at, n, i + 1);
      i := i + 1;
    }
  }

  /** Level `i` holds exactly the nodes of height at least `i`, sorted; no node is higher than `top`. */
  ghost predicate Levelled<V>(lists: seq<seq<Node<V>>>, top: nat) {
    && lists != [] && (forall n :: n in lists[0] ==> n.level <= top)
    && (forall i :: 0 <= i < |lists| ==> Sorted(lists[i]))
    && (forall i :: 0 <= i < |lists| ==> forall n :: n in lists[i] ==> n in lists[0] && i <= n.level)
    && (forall i :: 0 <= i < |lists| ==> forall n :: n in lists[0] && i <= n.level ==> n in lists[i])
  }

  lemma {:induction false} LevelledSpliced<V>(lists: seq<seq<Node<V>>>, at: seq<nat>, n: Node<V>, top: nat)
    requires Levelled(lists, top) && |at| == |lists| && n.level <= top && n.level < |lists|
    requires forall m :: m in lists[0] ==> m.key != n.key
    requires forall i :: 0 <= i <= n.level ==> at[i] <= |lists[i]| && SplitsAt(lists[i], at[i], n.key)
    ensures var now := SplicedUpTo(lists, at, n, n.level + 1);
            && Levelled(now, top) && (forall m :: m in now[0] <==> m in lists[0] || m == n)
            && |now[0]| == |lists[0]| + 1 && Entries(now[0]) == Put(Entries(lists[0]), n.key, n.val)
            && Heights(now[0]) == Put(Heights(lists[0]), n.key, n.level)
  {
    hide Entries, Heights, Put, Sorted;
    var now := SplicedUpTo(lists, at, n, n.level + 1);
    forall i | 0 <= i < |lists|
      ensures Sorted(now[i])
      ensures forall m :: m in now[i] <==> m in lists[i] || (m == n && i <= n.level)
      ensures i == 0 ==> Entries(now[0]) == Put(Entries(lists[0]), n.key, n.val)
      ensures i == 0 ==> Heights(now[0]) == Put(Heights(lists[0]), n.key, n.level)
    {
      if i <= n.level { SplicedNodes(lists[i], at[i], n); }
    }
  }

  /** What one level of the lists is like. */
  lemma {:induction false} LevelFacts<V>(lists: seq<seq<Node<V>>>, top: nat, i: nat)
    requires Levelled(lists, top) && i < |lists|
    ensures Sorted(lists[i]) && (forall n :: n in lists[i] <==> n in lists[0] && i <= n.level)
  {}

  lemma {:induction false} BeforeFacts<V>(h: Node<V>, i: nat, s: seq<Node<V>>, p: nat)
    requires Chained(h, i, s) && p <= |s|
    ensures var u := Before(h, s, p);
            && i < |u.forward| && u.forward[i] == NodeAt(s, p)
            && (u == h || (u in s && p > 0 && u == s[p - 1]))
  {}

  class SkipList<V(0)> {
    const maxLevel: nat
    const header: Node<V>
    var skipListLevel: nat
    var elementCount: nat

    /** The nodes linked at each level, in order. */
    ghost var lists: seq<seq<Node<V>>>

    ghost function Nodes(): set<Node<V>>
      reads this
    {
      if lists == [] then {} else set n | n in lists[0]
    }

    /**
     Level `i` links exactly the nodes of height at least `i`, in strictly increasing key order;
     no `forward` array is indexed out of range; and the count is the length of level 0.
     */
    ghost predicate Valid()
      reads this, header, Nodes()
    {
      && |lists| == maxLevel + 1 && skipListLevel <= maxLevel && |header.forward| == maxLevel + 1
      && header !in lists[0] && elementCount == |lists[0]|
      && Levelled(lists, skipListLevel)
      && (forall n :: n in lists[0] ==> |n.forward| == n.level + 1)
      && (forall i :: 0 <= i <= maxLevel ==> Chained(header, i, lists[i]))
    }

    /** Keys and values at level 0. */
    ghost function Contents(): seq<(int, V)>
      reads this
      requires lists != []
    {
      Entries(lists[0])
    }

    /** Keys and heights at level 0. */
    ghost function Levels(): seq<(int, nat)>
      reads this
      requires lists != []
    {
      Heights(lists[0])
    }

    constructor (max: nat)
      ensures Valid() && fresh(header) && maxLevel == max
      ensures Contents() == [] && elementCount == 0 && Levels() == [] && skipListLevel == 0
    {
      var v: V := *;
      maxLevel := max;
      skipListLevel, elementCount := 0, 0;
      header := new Node(0, v, max);
      lists := seq(max + 1, _ => []);
    }

    /** `getRandomLevel`: `odds` is how many odd draws come before the first even one. */
    method RandomLevel(odds: nat) returns (k: nat)
      ensures k <= maxLevel && (maxLevel > 0 ==> 1 <= k)
      ensures k == if odds + 1 < maxLevel then odds + 1 else maxLevel
    {
      k := 1;
      var i := 0;
      while i < odds
        invariant 0 <= i <= odds && k == i + 1
      {
        k, i := k + 1, i + 1;
      }
      k := if k < maxLevel then k else maxLevel;
    }

    /** The search loop: for every level in use, the last node whose key is smaller. */
    method FindPredecessors(key: int) returns (current: Node<V>, update: array<Node?<V>>, ghost at: seq<nat>)
      requires Valid()
      ensures fresh(update) && update.Length == |at| == maxLevel + 1
      ensures forall i :: 0 <= i <= skipListLevel ==>
                SplitsAt(lists[i], at[i], key) && update[i] == Before(header, lists[i], at[i])
      ensures current.forward != [] && current.forward[0] == NodeAt(lists[0], at[0])
    {
      hide Levelled, Chained, Sorted, Before;
      update := new Node?<V>[maxLevel + 1](_ => null);
      at := seq(maxLevel + 1, _ => 0);
      current := header;
      var i: int := skipListLevel;
      while i >= 0
        invariant -1 <= i <= skipListLevel && |at| == maxLevel + 1
        invariant current == header || (current in lists[0] && i < current.level && current.key < key)
        invariant forall j :: i < j <= skipListLevel ==>
                    SplitsAt(lists[j], at[j], key) && update[j] == Before(header, lists[j], at[j])
        invariant i < skipListLevel ==>
                    && update[i + 1] == current && i + 1 < |current.forward|
                    && current.forward[i + 1] == NodeAt(lists[i + 1], at[i + 1])
      {
        LevelFacts(lists, skipListLevel, i);
        ghost var p;
        current, p := Walk(key, header, i, lists[i], current);
        BeforeFacts(header, i, lists[i], p);
        at := at[i := p];
        update[i] := current;
        i := i - 1;
      }
    }

    lemma {:induction false} EmptyAbove(i: nat)
      requires Valid() && skipListLevel < i <= maxLevel
      ensures lists[i] == []
    {
      hide Chained, Sorted;
      FirstIsIn(lists[i]);
    }

    /** A level above the ones in use has an empty list, so its predecessor is the header. */
    method RaiseLevel(level: nat, key: int, update: array<Node?<V>>, ghost at: seq<nat>)
      returns (ghost places: seq<nat>)
      requires Valid() && update.Length == |at| == maxLevel + 1 && skipListLevel < level <= maxLevel
      requires forall i :: 0 <= i <= skipListLevel ==>
                SplitsAt(lists[i], at[i], key) && update[i] == Before(header, lists[i], at[i])
      modifies this`skipListLevel, update
      ensures Valid() && skipListLevel == level && |places| == maxLevel + 1
      ensures forall i :: 0 <= i <= level ==>
                SplitsAt(lists[i], places[i], key) && update[i] == Before(header, lists[i], places[i])
    {
      hide Chained, Sorted;
      places := at;
      var i := skipListLevel + 1;
      while i < level + 1
        modifies update
        invariant skipListLevel < i <= level + 1 && |places| == maxLevel + 1
        invariant forall j :: 0 <= j < i ==>
                    SplitsAt(lists[j], places[j], key) && update[j] == Before(header, lists[j], places[j])
      {
        EmptyAbove(i);
        update[i] := header;
        places := places[i := 0];
        i := i + 1;
      }
      skipListLevel := level;
    }

    /** Creates the node and links it at every level up to `level`. */
    method AddNode(key: int, val: V, level: nat, update: array<Node?<V>>, ghost at: seq<nat>)
      requires Valid() && update.Length == |at| == maxLevel + 1 && level <= skipListLevel
      requires forall m :: m in lists[0] ==> m.key != key
      requires forall i :: 0 <= i <= level ==>
                SplitsAt(lists[i], at[i], key) && update[i] == Before(header, lists[i], at[i])
      modifies this`lists, this`elementCount, header, Nodes()
      ensures Valid() && fresh(Nodes() - old(Nodes())) && elementCount == old(elementCount) + 1
      ensures Contents() == Put(old(Contents()), key, val) && Levels() == Put(old(Levels()), key, level)
    {
      hide Chained, Entries, Heights, Put, SplicedUpTo, Levelled;
      var n := new Node(key, val, level);
      ghost var was := lists;
      lists := LinkAll(header, lists, skipListLevel, n, update, at, Nodes());
      elementCount := elementCount + 1;
      LevelledSpliced(was, at, n, skipListLevel);
    }

    /** The height of a new node. */
    function HeightFor(odds: nat): nat {
      if odds + 1 < maxLevel then odds + 1 else maxLevel
    }

    /** What `insertElement` does once it has not found the key. */
    method InsertAbsent(key: int, val: V, odds: nat, update: array<Node?<V>>, ghost at: seq<nat>)
      requires Valid() && update.Length == |at| == maxLevel + 1
      requires forall m :: m in lists[0] ==> m.key != key
      requires forall i :: 0 <= i <= skipListLevel ==>
                SplitsAt(lists[i], at[i], key) && update[i] == Before(header, lists[i], at[i])
      modifies this, header, Nodes(), update
      ensures Valid() && fresh(Nodes() - old(Nodes())) && elementCount == old(elementCount) + 1
      ensures Contents() == Put(old(Contents()), key, val) && Levels() == Put(old(Levels()), key, HeightFor(odds))
      ensures skipListLevel == if HeightFor(odds) > old(skipListLevel) then HeightFor(odds) else old(skipListLevel)
    {
      hide Chained, Levelled, Before, Entries, Heights, Put;
      var places := at;
      var level := RandomLevel(odds);
      if level > skipListLevel {
        places := RaiseLevel(level, key, update, at);
      }
      AddNode(key, val, level, update, places);
    }

    /** `insertElement`: the node is as high as its draws say, and the list as high as its highest node. */
    method InsertElement(key: int, val: V, odds: nat) returns (r: int)
      requires Valid()
      modifies this, header, Nodes()
      ensures Valid() && fresh(Nodes() - old(Nodes()))
      ensures Contents() == Put(old(Contents()), key, val) && Levels() == Put(old(Levels()), key, HeightFor(odds))
      ensures r == if HasKey(old(Contents()), key) then 1 else 0
      ensures elementCount == |Contents()|
      ensures skipListLevel == if r == 0 && HeightFor(odds) > old(skipListLevel) then HeightFor(odds)
                               else old(skipListLevel)
    {
      hide Chained, Levelled, Before;
      var current, update, at := FindPredecessors(key);
      SortedBottom(lists, skipListLevel);
      PlaceIsRank(lists[0], at[0], key);
      HeightRank(lists[0], at[0], key);
      var next := current.forward[0];
      if next != null && next.key == key {
        return 1;
      }
      AbsentKey(lists[0], key);
      InsertAbsent(key, val, odds, update, at);
      return 0;
    }
  }

  /** Any sequence of inserts, with any random draws, builds the specified list: a client of the class. */
  method InsertAll<V(0)>(max: nat, ops: seq<(int, V)>, draws: seq<nat>) returns (l: SkipList<V>)
    requires |draws| == |ops|
    ensures fresh(l) && l.Valid() && l.Contents() == Build(ops)
  {
    l := new SkipList(max);
    var i := 0;
    while i < |ops|
      invariant 0 <= i <= |ops| && fresh(l) && fresh(l.header) && l.Valid() && fresh(l.Nodes())
      invariant l.Contents() == Build(ops[..i])
    {
      assert ops[..i + 1][..i] == ops[..i];
      var _ := l.InsertElement(ops[i].0, ops[i].1, draws[i]);
      i := i + 1;
    }
    assert ops[..i] == ops;
  }

  /** `a` is what is left of `b` after dropping some of its nodes. */
  ghost predicate Sublist<V>(a: seq<Node<V>>, b: seq<Node<V>>) {
    a == [] || (b != [] && if a[0] == b[0] then Sublist(a[1..], b[1..]) else Sublist(a, b[1..]))
  }

  lemma {:induction false} SortedSublist<V>(a: seq<Node<V>>, b: seq<Node<V>>)
    requires Sorted(a) && Sorted(b) && forall n :: n in a ==> n in b
    ensures Sublist(a, b)
  {
    if a != [] {
      assert a[0] in b;
      var a' := if a[0] == b[0] then a[1..] else a;
      forall n | n in a' ensures n in b[1..] {
        assert n in b;
        var j :| 0 <= j < |b| && b[j] == n;
        var k :| 0 <= k < |a'| && a'[k] == n;
        var k0 :| 0 <= k0 < |b| && b[k0] == a[0];
        assert a[0] != b[0] ==> a[k] == n;
        assert b[1..][j - 1] == n;
      }
      SortedSublist(a', b[1..]);
    }
  }

  lemma {:induction false} LevelsNest<V(0)>(l: SkipList<V>, i: nat)
    requires l.Valid() && i < l.maxLevel
    ensures Sublist(l.lists[i + 1], l.lists[i])
    ensures forall n :: n in l.lists[i + 1] <==> n in l.lists[i] && i < n.level
  {
    assert forall n :: n in l.lists[i + 1] ==> n in l.lists[i];
    SortedSublist(l.lists[i + 1], l.lists[i]);
  }

  lemma {:induction false} FirstIsIn<V>(s: seq<Node<V>>)
    ensures s == [] || s[0] in s
  {}

  lemma {:induction false} SortedBottom<V>(lists: seq<seq<Node<V>>>, top: nat)
    requires Levelled(lists, top)
    ensures Sorted(lists[0])
  {}

  lemma {:induction false} AbsentKey<V>(s: seq<Node<V>>, key: int)
    requires !HasKey(Entries(s), key)
    ensures forall m :: m in s ==> m.key != key
  {
    assert forall k :: 0 <= k < |s| ==> Entries(s)[k].0 == s[k].key;
  }

  lemma {:induction false} SplicedNodes<V>(s: seq<Node<V>>, p: nat, n: Node<V>)
    requires Sorted(s) && SplitsAt(s, p, n.key) && (p < |s| ==> s[p].key != n.key)
    ensures Sorted(Spliced(s, p, n))
    ensures forall m :: m in Spliced(s, p, n) <==> m in s || m == n
    ensures Entries(Spliced(s, p, n)) == Put(Entries(s), n.key, n.val)
    ensures Heights(Spliced(s, p, n)) == Put(Heights(s), n.key, n.level)
  {
    SplicedSorted(s, p, n);
    SplicedMembers(s, p, n);
    SplicedEntries(s, p, n);
    SplicedHeights(s, p, n);
  }

  lemma {:induction false} SplicedSorted<V>(s: seq<Node<V>>, p: nat, n: Node<V>)
    requires Sorted(s) && SplitsAt(s, p, n.key) && (p < |s| ==> s[p].key != n.key)
    ensures Sorted(Spliced(s, p, n))
  {
    var r := Spliced(s, p, n);
    forall i, j | 0 <= i < j < |r| ensures r[i].key < r[j].key {
      SplicedAt(s, p, n, i);
      SplicedAt(s, p, n, j);
    }
  }

  lemma {:induction false} SplicedMembers<V>(s: seq<Node<V>>, p: nat, n: Node<V>)
    requires p <= |s|
    ensures forall m :: m in Spliced(s, p, n) <==> m in s || m == n
  {
    assert s == s[..p] + s[p..];
  }

  lemma {:induction false} SplicedEntries<V>(s: seq<Node<V>>, p: nat, n: Node<V>)
    requires Sorted(s) && SplitsAt(s, p, n.key) && (p < |s| ==> s[p].key != n.key)
    ensures Entries(Spliced(s, p, n)) == Put(Entries(s), n.key, n.val)
  {
    PlaceIsRank(s, p, n.key);
    hide Sorted, SplitsAt, HasKey, Rank;
    var es := Entries(s);
    assert p < |es| ==> es[p].0 == s[p].key;
    assert Entries(Spliced(s, p, n)) == es[..p] + [(n.key, n.val)] + es[p..];
  }

  lemma {:induction false} SplicedHeights<V>(s: seq<Node<V>>, p: nat, n: Node<V>)
    requires Sorted(s) && SplitsAt(s, p, n.key) && (p < |s| ==> s[p].key != n.key)
    ensures Heights(Spliced(s, p, n)) == Put(Heights(s), n.key, n.level)
  {
    HeightRank(s, p, n.key);
    hide Sorted, SplitsAt, HasKey, Rank;
    var hs := Heights(s);
    assert p < |hs| ==> hs[p].0 == s[p].key;
    assert Heights(Spliced(s, p, n)) == hs[..p] + [(n.key, n.level)] + hs[p..];
  }

  /** The key's place is the same among the heights, where a key that is present keeps its own. */
  lemma {:induction false} HeightRank<V>(s: seq<Node<V>>, p: nat, key: int)
    requires Sorted(s) && SplitsAt(s, p, key)
    ensures Rank(Heights(s), key) == p
    ensures forall h: nat :: p < |s| && s[p].key == key ==> Put(Heights(s), key, h) == Heights(s)
  {
    RankSplits(Heights(s), key);
    var q := Rank(Heights(s), key);
    assert p < |s| ==> Heights(s)[p].0 == s[p].key;
    assert q < |s| ==> Heights(s)[q].0 == s[q].key;
  }

  lemma {:induction false} PlaceIsRank<V>(s: seq<Node<V>>, p: nat, key: int)
    requires Sorted(s) && SplitsAt(s, p, key)
    ensures Rank(Entries(s), key) == p
    ensures HasKey(Entries(s), key) <==> p < |s| && s[p].key == key
  {
    RankSplits(Entries(s), key);
    var q := Rank(Entries(s), key);
    assert p < |s| ==> Entries(s)[p].0 == s[p].key;
    assert q < |s| ==> Entries(s)[q].0 == s[q].key;
  }
}
