/**
 The indexed expiration heap (src/shared/utils/indexed_expiration_heap.ts): one node per key, a
 map from key to position, and sift-up and sift-down that keep both in step. Abstractly it is a
 map from key to expiry time.
 */
module ExpirationHeap {
  import opened Options

  datatype Node = Node(key: nat, at: int)

  function Parent(i: nat): nat
    requires i > 0
  {
    (i - 1) / 2
  }

  /** Node i is not due before its parent. */
  predicate Ordered(nodes: seq<Node>, i: nat) {
    0 < i < |nodes| ==> nodes[Parent(i)].at <= nodes[i].at
  }

  predicate HeapOrder(nodes: seq<Node>) {
    forall i: nat :: i < |nodes| ==> Ordered(nodes, i)
  }

  /** The parent of p, if any, is due no later than p's children. */
  predicate Bridges(nodes: seq<Node>, p: nat) {
    forall c: nat :: 0 < p < |nodes| && 0 < c < |nodes| && Parent(c) == p ==> nodes[Parent(p)].at <= nodes[c].at
  }

  /** Order holds except between p and its parent and between p and its children. */
  predicate Loose(nodes: seq<Node>, p: nat) {
    Bridges(nodes, p) && forall i: nat :: 0 < i < |nodes| && i != p && Parent(i) != p ==> Ordered(nodes, i)
  }

  predicate ChildrenOrdered(nodes: seq<Node>, p: nat) {
    forall c: nat :: 0 < c < |nodes| && Parent(c) == p ==> Ordered(nodes, c)
  }

  predicate Indexed(nodes: seq<Node>, positions: map<nat, nat>) {
    && (forall i :: 0 <= i < |nodes| ==> nodes[i].key in positions && positions[nodes[i].key] == i)
    && (forall k :: k in positions ==> positions[k] < |nodes| && nodes[positions[k]].key == k)
  }

  function Contents(nodes: seq<Node>, positions: map<nat, nat>): map<nat, int>
    requires Indexed(nodes, positions)
  {
    map k | k in positions :: nodes[positions[k]].at
  }

  function Swapped(nodes: seq<Node>, a: nat, b: nat): seq<Node>
    requires a < |nodes| && b < |nodes|
  {
    nodes[a := nodes[b]][b := nodes[a]]
  }

  function SwappedPositions(nodes: seq<Node>, positions: map<nat, nat>, a: nat, b: nat): map<nat, nat>
    requires a < |nodes| && b < |nodes|
  {
    positions[nodes[b].key := a][nodes[a].key := b]
  }

  lemma SwapKeepsIndex(nodes: seq<Node>, positions: map<nat, nat>, a: nat, b: nat)
    requires Indexed(nodes, positions) && a < |nodes| && b < |nodes| && a != b
    ensures Indexed(Swapped(nodes, a, b), SwappedPositions(nodes, positions, a, b))
    ensures Contents(Swapped(nodes, a, b), SwappedPositions(nodes, positions, a, b)) == Contents(nodes, positions)
  {
    assert nodes[a].key != nodes[b].key;
  }

  /** Moving p up past a later parent leaves only the parent's place loose, below in order. */
  lemma UpStep(nodes: seq<Node>, p: nat)
    requires 0 < p < |nodes| && Loose(nodes, p) && nodes[p].at < nodes[Parent(p)].at
    ensures Loose(Swapped(nodes, Parent(p), p), Parent(p)) && ChildrenOrdered(Swapped(nodes, Parent(p), p), Parent(p))
  {
    var q := Parent(p);
    var t := Swapped(nodes, q, p);
    assert Ordered(nodes, q);
    forall i: nat | 0 < i < |t| && i != q && Parent(i) != q
      ensures Ordered(t, i)
    {
      assert Parent(i) != p ==> Ordered(nodes, i);
    }
    forall c: nat | 0 < c < |t| && Parent(c) == q
      ensures Ordered(t, c) && (q > 0 ==> t[Parent(q)].at <= t[c].at)
    {
      assert c != p ==> Ordered(nodes, c);
    }
  }

  /** Moving p down past its earliest child leaves only that child's place loose, above in order. */
  lemma DownStep(nodes: seq<Node>, p: nat, s: nat)
    requires 0 < s < |nodes| && p == Parent(s) && Loose(nodes, p) && Ordered(nodes, p) && nodes[s].at < nodes[p].at
    requires forall c: nat :: 0 < c < |nodes| && Parent(c) == p ==> nodes[s].at <= nodes[c].at
    ensures Loose(Swapped(nodes, p, s), s) && Ordered(Swapped(nodes, p, s), s)
  {
  }

  lemma Settled(nodes: seq<Node>, p: nat)
    requires Loose(nodes, p) && Ordered(nodes, p) && ChildrenOrdered(nodes, p)
    ensures HeapOrder(nodes)
  {
  }

  /** Another value at p leaves only p loose. */
  lemma ReplaceIsLoose(nodes: seq<Node>, p: nat, n: Node)
    requires HeapOrder(nodes) && p < |nodes|
    ensures Loose(nodes[p := n], p)
  {
    var t := nodes[p := n];
    forall c: nat | 0 < p && 0 < c < |t| && Parent(c) == p
      ensures t[Parent(p)].at <= t[c].at
    {
      assert Ordered(nodes, p) && Ordered(nodes, c);
    }
    forall i: nat | 0 < i < |t| && i != p && Parent(i) != p
      ensures Ordered(t, i)
    {
      assert Ordered(nodes, i);
    }
  }

  lemma PushIsLoose(nodes: seq<Node>, n: Node)
    requires HeapOrder(nodes)
    ensures Loose(nodes + [n], |nodes|) && ChildrenOrdered(nodes + [n], |nodes|)
  {
    forall i: nat | 0 < i < |nodes|
      ensures Ordered(nodes + [n], i)
    {
      assert Ordered(nodes, i);
    }
  }

  lemma PopKeepsOrder(nodes: seq<Node>)
    requires HeapOrder(nodes) && |nodes| > 0
    ensures HeapOrder(nodes[..|nodes| - 1])
  {
    var t := nodes[..|nodes| - 1];
    forall i: nat | i < |t|
      ensures Ordered(t, i)
    {
      assert Ordered(nodes, i);
    }
  }

  /** What deletion leaves: the last node gone, or moved into the free place. */
  lemma DeleteKeepsIndex(nodes: seq<Node>, positions: map<nat, nat>, position: nat)
    requires Indexed(nodes, positions) && position < |nodes|
    ensures var n := |nodes| - 1; var key := nodes[position].key;
      var t := if position < n then nodes[..n][position := nodes[n]] else nodes[..n];
      var at := if position < n then (positions - {key})[nodes[n].key := position] else positions - {key};
      Indexed(t, at) && Contents(t, at) == Contents(nodes, positions) - {key}
  {
    var n := |nodes| - 1;
    var key := nodes[position].key;
    assert forall i :: 0 <= i <= n && i != position ==> nodes[i].key != key;
    assert forall i :: 0 <= i < n ==> nodes[i].key != nodes[n].key;
  }

  /** The first node is due first. */
  lemma {:induction false} FirstIsEarliest(nodes: seq<Node>, i: nat)
    requires HeapOrder(nodes) && i < |nodes|
    ensures nodes[0].at <= nodes[i].at
    decreases i
  {
    if i > 0 {
      FirstIsEarliest(nodes, Parent(i));
      assert Ordered(nodes, i);
    }
  }

  class Heap {
    var nodes: seq<Node>
    var positions: map<nat, nat>

    predicate Valid()
      reads this
    {
      Indexed(nodes, positions) && HeapOrder(nodes)
    }

    function Map(): map<nat, int>
      requires Indexed(nodes, positions)
      reads this
    {
      Contents(nodes, positions)
    }

    constructor ()
      ensures Valid() && Map() == map[]
    {
      nodes, positions := [], map[];
    }

    method Swap(a: nat, b: nat)
      requires Indexed(nodes, positions) && a < |nodes| && b < |nodes| && a != b
      modifies this
      ensures nodes == Swapped(old(nodes), a, b) && Indexed(nodes, positions) && Map() == old(Map())
    {
      SwapKeepsIndex(nodes, positions, a, b);
      var left, right := nodes[a], nodes[b];
      nodes := nodes[a := right][b := left];
      positions := positions[right.key := a][left.key := b];
    }

    method Up(start: nat) returns (p: nat)
      requires Indexed(nodes, positions) && start < |nodes| && Loose(nodes, start)
      modifies this
      ensures Indexed(nodes, positions) && Map() == old(Map()) && |nodes| == old(|nodes|)
      ensures p < |nodes| && Loose(nodes, p) && Ordered(nodes, p)
      ensures old(ChildrenOrdered(nodes, start)) ==> ChildrenOrdered(nodes, p)
    {
      p := start;
      while p > 0
        invariant p < |nodes| == old(|nodes|) && Indexed(nodes, positions) && Map() == old(Map()) && Loose(nodes, p)
        invariant old(ChildrenOrdered(nodes, start)) ==> ChildrenOrdered(nodes, p)
        decreases p
      {
        var parent := (p - 1) / 2;
        if nodes[parent].at <= nodes[p].at { break; }
        UpStep(nodes, p);
        Swap(parent, p);
        p := parent;
      }
    }

    /** The position, or its child that is due first. */
    method Smallest(p: nat) returns (s: nat)
      requires p < |nodes|
      ensures s == p || (0 < s < |nodes| && Parent(s) == p && nodes[s].at < nodes[p].at)
      ensures forall c: nat :: 0 < c < |nodes| && Parent(c) == p ==> nodes[s].at <= nodes[c].at
    {
      var left := p * 2 + 1;
      var right := left + 1;
      s := p;
      if left < |nodes| && nodes[left].at < nodes[s].at { s := left; }
      if right < |nodes| && nodes[right].at < nodes[s].at { s := right; }
      assert forall c: nat :: c > 0 && Parent(c) == p ==> c == left || c == right;
    }

    method Down(start: nat)
      requires Indexed(nodes, positions) && start < |nodes| && Loose(nodes, start) && Ordered(nodes, start)
      modifies this
      ensures Valid() && Map() == old(Map())
    {
      var p: nat := start;
      var s: nat := Smallest(p);
      while s != p
        invariant p < |nodes| && Indexed(nodes, positions) && Map() == old(Map())
        invariant Loose(nodes, p) && Ordered(nodes, p)
        invariant s == p || (0 < s < |nodes| && Parent(s) == p && nodes[s].at < nodes[p].at)
        invariant forall c: nat :: 0 < c < |nodes| && Parent(c) == p ==> nodes[s].at <= nodes[c].at
        decreases |nodes| - p, s != p
      {
        DownStep(nodes, p, s);
        Swap(p, s);
        p := s;
        s := Smallest(p);
      }
      Settled(nodes, p);
    }

    method Set(key: nat, at: int)
      requires Valid()
      modifies this
      ensures Valid() && Map() == old(Map())[key := at]
    {
      if key !in positions {
        PushIsLoose(nodes, Node(key, at));
        positions := positions[key := |nodes|];
        nodes := nodes + [Node(key, at)];
        var p := Up(|nodes| - 1);
        Settled(nodes, p);
      } else {
        var position := positions[key];
        ReplaceIsLoose(nodes, position, Node(key, at));
        nodes := nodes[position := Node(key, at)];
        Resettle(position);
      }
    }

    method Resettle(position: nat)
      requires Indexed(nodes, positions) && position < |nodes| && Loose(nodes, position)
      modifies this
      ensures Valid() && Map() == old(Map())
    {
      var p := Up(position);
      Down(p);
    }

    method Delete(key: nat)
      requires Valid()
      modifies this
      ensures Valid() && Map() == old(Map()) - {key}
    {
      if key in positions {
        var position := positions[key];
        PopKeepsOrder(nodes);
        DeleteKeepsIndex(nodes, positions, position);
        var last := nodes[|nodes| - 1];
        nodes := nodes[..|nodes| - 1];
        positions := positions - {key};
        if position < |nodes| {
          ReplaceIsLoose(nodes, position, last);
          nodes := nodes[position := last];
          positions := positions[last.key := position];
          Resettle(position);
        }
      }
    }

    /** A key due now, the earliest of all, taken out; none exactly when none is due. */
    method TakeExpired(now: int) returns (key: Option<nat>)
      requires Valid()
      modifies this
      ensures Valid()
      ensures key.None? <==> forall k :: k in old(Map()) ==> old(Map())[k] > now
      ensures key.None? ==> Map() == old(Map())
      ensures key.Some? ==>
        && key.value in old(Map()) && old(Map())[key.value] <= now
        && (forall k :: k in old(Map()) ==> old(Map())[key.value] <= old(Map())[k])
        && Map() == old(Map()) - {key.value}
    {
      forall k | k in positions
        ensures nodes[0].at <= Map()[k]
      {
        FirstIsEarliest(nodes, positions[k]);
      }
      assert |nodes| > 0 ==> nodes[0].key in positions;
      if |nodes| == 0 || nodes[0].at > now { return None; }
      key := Some(nodes[0].key);
      Delete(nodes[0].key);
    }
  }
}
