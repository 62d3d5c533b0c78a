/**
 * Baking the scene graph's hierarchy into a flat list: the nodes needed
 * for some node ids in parent-before-child order, and for each listed node
 * the position of its parent in that list.
 *
 * The hierarchy graph is its node weights (the node ids) and its edges,
 * each from parent to child. The graph library's topological sort (None
 * where it finds a cycle) and the upstream walk that collects the needed
 * nodes are parameters.
 */
module Bake {
  import opened Wrappers

  type NodeIndex = nat
  type NodeId = int

  datatype Graph = Graph(weights: seq<NodeId>, edges: seq<(NodeIndex, NodeIndex)>)

  /** The sources of the edges that end at `v`, in edge order. */
  function Incoming(edges: seq<(NodeIndex, NodeIndex)>, v: NodeIndex): (r: seq<NodeIndex>)
    ensures forall p :: p in r <==> (p, v) in edges
  {
    if |edges| == 0 then []
    else
      var rest := Incoming(edges[1..], v);
      assert forall e :: e in edges <==> e == edges[0] || e in edges[1..];
      if edges[0].1 == v then [edges[0].0] + rest else rest
  }

  /** The first position of `x` in `s`. */
  function FirstIndex(s: seq<NodeIndex>, x: NodeIndex): (r: Option<nat>)
    ensures r.None? <==> x !in s
    ensures r.Some? ==> r.value < |s| && s[r.value] == x && forall k :: 0 <= k < r.value ==> s[k] != x
  {
    if |s| == 0 then None
    else if s[0] == x then Some(0)
    else
      match FirstIndex(s[1..], x)
      case None => None
      case Some(k) => Some(k + 1)
  }

  /**
   * The entry for position `i` of the parent-index list: None without an
   * incoming edge, otherwise the first earlier position of the parent.
   */
  function ParentIndex(edges: seq<(NodeIndex, NodeIndex)>, nodes: seq<NodeIndex>, i: nat): Option<nat>
    requires i < |nodes|
  {
    var inc := Incoming(edges, nodes[i]);
    if |inc| == 0 then None else FirstIndex(nodes[..i], inc[0])
  }

  /** At most one parent per node: the graph is a hierarchy. */
  predicate OneParentEach(edges: seq<(NodeIndex, NodeIndex)>, nodes: seq<NodeIndex>)
  {
    forall i :: 0 <= i < |nodes| ==> |Incoming(edges, nodes[i])| < 2
  }

  /** `get_parent_index_list`: for each node, where its parent sits earlier in the list. */
  method GetParentIndexList(g: Graph, nodes: seq<NodeIndex>) returns (list: seq<Option<nat>>)
    requires OneParentEach(g.edges, nodes)
    ensures |list| == |nodes|
    ensures forall i :: 0 <= i < |nodes| ==> list[i] == ParentIndex(g.edges, nodes, i)
  {
    list := [];
    var i := 0;
    while i < |nodes|
      invariant 0 <= i <= |nodes|
      invariant |list| == i
      invariant forall k :: 0 <= k < i ==> list[k] == ParentIndex(g.edges, nodes, k)
    {
      var edges := Incoming(g.edges, nodes[i]);
      if |edges| == 0 {
        list := list + [None];
        i := i + 1;
        continue;
      }
      var parent := edges[0];
      var parentIndex: Option<nat> := None;
      var j := 0;
      while j < i
        invariant 0 <= j <= i
        invariant parentIndex.None? ==> forall k :: 0 <= k < j ==> nodes[k] != parent
        invariant parentIndex.Some? ==> parentIndex == FirstIndex(nodes[..i], parent)
      {
        if nodes[j] == parent {
          parentIndex := Some(j);
          FirstIndexAt(nodes[..i], parent, j);
          break;
        }
        j := j + 1;
      }
      if parentIndex.None? {
        assert parent !in nodes[..i];
      }
      list := list + [parentIndex];
      i := i + 1;
    }
  }

  /** A position holding `x` with no earlier `x` is the first position. */
  lemma FirstIndexAt(s: seq<NodeIndex>, x: NodeIndex, j: nat)
    requires j < |s| && s[j] == x
    requires forall k :: 0 <= k < j ==> s[k] != x
    ensures FirstIndex(s, x) == Some(j)
  {
  }

  /**
   * What a parent-index entry means: Some(j) names the first earlier
   * position holding the node's parent; None means no parent, or a parent
   * that is not earlier in the list.
   */
  lemma ParentIndexMeaning(edges: seq<(NodeIndex, NodeIndex)>, nodes: seq<NodeIndex>, i: nat)
    requires i < |nodes| && |Incoming(edges, nodes[i])| < 2
    ensures ParentIndex(edges, nodes, i).Some? ==>
      var j := ParentIndex(edges, nodes, i).value;
      j < i && (nodes[j], nodes[i]) in edges && forall k :: 0 <= k < j ==> nodes[k] != nodes[j]
    ensures ParentIndex(edges, nodes, i).None? <==>
      forall k :: 0 <= k < i ==> (nodes[k], nodes[i]) !in edges
  {
    var inc := Incoming(edges, nodes[i]);
    if |inc| == 1 {
      assert forall p :: (p, nodes[i]) in edges ==> p == inc[0] by {
        assert forall p :: p in inc ==> p == inc[0];
      }
      assert inc[0] in inc;
      var r := FirstIndex(nodes[..i], inc[0]);
      if r.None? {
        forall k | 0 <= k < i
          ensures (nodes[k], nodes[i]) !in edges
        {
          assert nodes[..i][k] == nodes[k];
        }
      } else {
        assert nodes[..i][r.value] == nodes[r.value];
      }
    } else {
      assert |inc| == 0;
    }
  }

  /** No edge runs from a node to itself or to an earlier node. */
  predicate IsTopological(edges: seq<(NodeIndex, NodeIndex)>, order: seq<NodeIndex>)
  {
    forall i, j :: 0 <= j <= i < |order| ==> (order[i], order[j]) !in edges
  }

  /**
   * `sub` is `s` with some elements left out: matching from the back, the
   * last element of `sub` is either the last of `s` or comes earlier.
   */
  predicate IsSubsequence(sub: seq<NodeIndex>, s: seq<NodeIndex>)
    decreases |s|
  {
    |sub| == 0
    || (|s| > 0 &&
        if sub[|sub| - 1] == s[|s| - 1] then IsSubsequence(sub[..|sub| - 1], s[..|s| - 1])
        else IsSubsequence(sub, s[..|s| - 1]))
  }

  /** The nodes of `order` that are in `keep`, in the same order. */
  function Filter(order: seq<NodeIndex>, keep: set<NodeIndex>): (r: seq<NodeIndex>)
    ensures forall v :: v in r <==> v in order && v in keep
    ensures |r| <= |order|
    ensures IsSubsequence(r, order)
  {
    if |order| == 0 then []
    else
      var init := order[..|order| - 1];
      var last := order[|order| - 1];
      assert forall v :: v in order <==> v in init || v == last;
      var rest := Filter(init, keep);
      if last in keep then
        var r := rest + [last];
        assert r[..|r| - 1] == rest;
        r
      else
        assert |rest| > 0 ==> rest[|rest| - 1] in rest;
        rest
  }

  /** The node ids of the given nodes. */
  function Weights(g: Graph, nodes: seq<NodeIndex>): (r: seq<NodeId>)
    requires forall k :: 0 <= k < |nodes| ==> nodes[k] < |g.weights|
    ensures |r| == |nodes| && forall k :: 0 <= k < |nodes| ==> r[k] == g.weights[nodes[k]]
  {
    if |nodes| == 0 then [] else [g.weights[nodes[0]]] + Weights(g, nodes[1..])
  }

  /**
   * `flatten_filter_and_sort_graph_nodes`: None when the graph has a cycle;
   * otherwise the needed nodes in sorted order and their node ids.
   */
  function FlattenFilterAndSort(g: Graph, toposort: Option<seq<NodeIndex>>, needed: set<NodeIndex>)
    : (r: Option<(seq<NodeIndex>, seq<NodeId>)>)
    requires toposort.Some? ==> forall k :: 0 <= k < |toposort.value| ==> toposort.value[k] < |g.weights|
    ensures r.None? <==> toposort.None?
    ensures r.Some? ==>
      (forall v :: v in r.value.0 <==> v in toposort.value && v in needed)
      && |r.value.1| == |r.value.0|
      && forall k :: 0 <= k < |r.value.0| ==> r.value.0[k] < |g.weights| && r.value.1[k] == g.weights[r.value.0[k]]
  {
    match toposort
    case None => None
    case Some(nodes) =>
      var filtered := Filter(nodes, needed);
      assert forall k :: 0 <= k < |filtered| ==> filtered[k] in nodes;
      Some((filtered, Weights(g, filtered)))
  }

  /** Extending a topological order by a node with no edge back into it. */
  lemma TopologicalSnoc(edges: seq<(NodeIndex, NodeIndex)>, order: seq<NodeIndex>, x: NodeIndex)
    requires IsTopological(edges, order)
    requires (x, x) !in edges && forall y :: y in order ==> (x, y) !in edges
    ensures IsTopological(edges, order + [x])
  {
    var o := order + [x];
    forall i, j | 0 <= j <= i < |o|
      ensures (o[i], o[j]) !in edges
    {
      if i == |order| {
        if j < |order| {
          assert o[j] in order;
        }
      } else {
        assert o[i] == order[i] && o[j] == order[j];
      }
    }
  }

  /** Filtering a topological order keeps it topological: parents still come first. */
  lemma {:induction false} FilterKeepsTopological(edges: seq<(NodeIndex, NodeIndex)>, order: seq<NodeIndex>, keep: set<NodeIndex>)
    requires IsTopological(edges, order)
    ensures IsTopological(edges, Filter(order, keep))
  {
    if |order| > 0 {
      var init := order[..|order| - 1];
      var last := order[|order| - 1];
      assert IsTopological(edges, init) by {
        forall i, j | 0 <= j <= i < |init|
          ensures (init[i], init[j]) !in edges
        {
          assert init[i] == order[i] && init[j] == order[j];
        }
      }
      FilterKeepsTopological(edges, init, keep);
      if last in keep {
        forall y | y in Filter(init, keep)
          ensures (last, y) !in edges
        {
          var k :| 0 <= k < |init| && init[k] == y;
          assert order[k] == y;
        }
        TopologicalSnoc(edges, Filter(init, keep), last);
      }
    }
  }

  /**
   * In a topological order, a node whose parent is listed gets that
   * parent's position, which is earlier.
   */
  lemma ParentsComeFirst(edges: seq<(NodeIndex, NodeIndex)>, nodes: seq<NodeIndex>, i: nat, p: NodeIndex)
    requires IsTopological(edges, nodes)
    requires i < |nodes| && |Incoming(edges, nodes[i])| < 2
    requires (p, nodes[i]) in edges && p in nodes
    ensures ParentIndex(edges, nodes, i).Some?
    ensures nodes[ParentIndex(edges, nodes, i).value] == p
  {
    assert forall m :: i <= m < |nodes| ==> nodes[m] != p by {
      forall m | i <= m < |nodes|
        ensures nodes[m] != p
      {
        assert (nodes[m], nodes[i]) !in edges;
      }
    }
    var k :| 0 <= k < |nodes| && nodes[k] == p;
    assert nodes[..i][k] == p;
    var inc := Incoming(edges, nodes[i]);
    assert p in inc;
    assert |inc| == 1 && inc[0] == p;
  }
}
