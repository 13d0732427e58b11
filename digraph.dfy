/**
 * The part of `petgraph::Graph` the planner relies on: a directed multigraph
 * whose nodes and edges are kept in insertion order, a node's index being its
 * position; `filter_map` with filters that keep weights unchanged;
 * `edges_connecting`; and the first node satisfying a predicate.
 */
module Digraph {
  import opened Wrappers
  import opened Seqs

  /** An edge: the indices of its endpoints and its weight. */
  datatype Edge<E> = Edge(source: nat, target: nat, weight: E)

  /** A graph: node weights and edges in insertion order. */
  datatype Graph<N, E> = Graph(nodes: seq<N>, edges: seq<Edge<E>>)

  /** Every edge joins two existing nodes (an invariant `petgraph` maintains). */
  predicate Valid<N, E>(g: Graph<N, E>)
  {
    forall k :: 0 <= k < |g.edges| ==> g.edges[k].source < |g.nodes| && g.edges[k].target < |g.nodes|
  }

  /** There is an edge from `a` to `b`. */
  predicate Adjacent<N, E>(g: Graph<N, E>, a: nat, b: nat)
  {
    exists k :: 0 <= k < |g.edges| && g.edges[k].source == a && g.edges[k].target == b
  }

  /** `p` is a walk along edges from `s` to `t`; its length in hops is `|p| - 1`. */
  predicate IsPath<N, E>(g: Graph<N, E>, p: seq<nat>, s: nat, t: nat)
  {
    && |p| >= 1 && p[0] == s && p[|p| - 1] == t
    && forall i :: 0 <= i < |p| - 1 ==> Adjacent(g, p[i], p[i + 1])
  }

  /** The index that node `i` gets in a filtered graph: the number of kept nodes before it. */
  function KeptIndex<N>(nodes: seq<N>, keepNode: N -> bool, i: nat): nat
    requires i <= |nodes|
  {
    |Filter(nodes[..i], keepNode)|
  }

  /** An edge survives filtering when both of its endpoints do and its weight passes. */
  predicate EdgeKept<N, E>(nodes: seq<N>, keepNode: N -> bool, keepEdge: E -> bool, e: Edge<E>)
  {
    e.source < |nodes| && e.target < |nodes| && keepNode(nodes[e.source]) && keepNode(nodes[e.target]) && keepEdge(e.weight)
  }

  /** The surviving edges, renumbered to the filtered graph's node indices, in their original order. */
  function FilterEdges<N, E>(nodes: seq<N>, keepNode: N -> bool, keepEdge: E -> bool, edges: seq<Edge<E>>): (r: seq<Edge<E>>)
    ensures |r| <= |edges|
  {
    if edges == [] then []
    else
      var e := edges[|edges| - 1];
      FilterEdges(nodes, keepNode, keepEdge, edges[..|edges| - 1]) +
        if EdgeKept(nodes, keepNode, keepEdge, e)
        then [Edge(KeptIndex(nodes, keepNode, e.source), KeptIndex(nodes, keepNode, e.target), e.weight)]
        else []
  }

  /**
   * `filter_map` with closures that return the weight unchanged or `None`:
   * nodes are filtered first, then every edge whose endpoints both remain is
   * kept when its own filter passes.
   */
  function FilterGraph<N, E>(g: Graph<N, E>, keepNode: N -> bool, keepEdge: E -> bool): Graph<N, E>
  {
    Graph(Filter(g.nodes, keepNode), FilterEdges(g.nodes, keepNode, keepEdge, g.edges))
  }

  /** Kept nodes are renumbered below the filtered node count, and keep their weight. */
  lemma KeptIndexPlace<N>(nodes: seq<N>, keepNode: N -> bool, i: nat)
    requires i < |nodes| && keepNode(nodes[i])
    ensures KeptIndex(nodes, keepNode, i) < |Filter(nodes, keepNode)|
    ensures Filter(nodes, keepNode)[KeptIndex(nodes, keepNode, i)] == nodes[i]
  {
    FilterPlace(nodes, keepNode, i);
  }

  /**
   * Each edge of the filtered graph comes from a surviving edge of the input
   * with the same weight, and joins the same node weights; in particular the
   * filtered graph is again a valid graph.
   */
  lemma {:induction false} FilterEdgesOrigin<N, E>(nodes: seq<N>, keepNode: N -> bool, keepEdge: E -> bool, edges: seq<Edge<E>>)
    ensures forall e :: e in FilterEdges(nodes, keepNode, keepEdge, edges) ==>
      && e.source < |Filter(nodes, keepNode)| && e.target < |Filter(nodes, keepNode)|
      && exists k :: 0 <= k < |edges| && EdgeKept(nodes, keepNode, keepEdge, edges[k])
           && e.weight == edges[k].weight
           && Filter(nodes, keepNode)[e.source] == nodes[edges[k].source]
           && Filter(nodes, keepNode)[e.target] == nodes[edges[k].target]
  {
    if edges != [] {
      var n := |edges| - 1;
      var last := edges[n];
      FilterEdgesOrigin(nodes, keepNode, keepEdge, edges[..n]);
      assert forall k :: 0 <= k < n ==> edges[..n][k] == edges[k];
      if EdgeKept(nodes, keepNode, keepEdge, last) {
        KeptIndexPlace(nodes, keepNode, last.source);
        KeptIndexPlace(nodes, keepNode, last.target);
      }
    }
  }

  /** Every surviving edge of the input is in the filtered graph, renumbered. */
  lemma {:induction false} FilterEdgesComplete<N, E>(nodes: seq<N>, keepNode: N -> bool, keepEdge: E -> bool, edges: seq<Edge<E>>)
    ensures forall k :: 0 <= k < |edges| && EdgeKept(nodes, keepNode, keepEdge, edges[k]) ==>
      Edge(KeptIndex(nodes, keepNode, edges[k].source), KeptIndex(nodes, keepNode, edges[k].target), edges[k].weight)
        in FilterEdges(nodes, keepNode, keepEdge, edges)
  {
    if edges != [] {
      var n := |edges| - 1;
      FilterEdgesComplete(nodes, keepNode, keepEdge, edges[..n]);
      assert forall k :: 0 <= k < n ==> edges[..n][k] == edges[k];
    }
  }

  /** The filtered graph is valid, whatever the input. */
  lemma FilterValid<N, E>(g: Graph<N, E>, keepNode: N -> bool, keepEdge: E -> bool)
    ensures Valid(FilterGraph(g, keepNode, keepEdge))
  {
    var r := FilterGraph(g, keepNode, keepEdge);
    FilterEdgesOrigin(g.nodes, keepNode, keepEdge, g.edges);
    forall k | 0 <= k < |r.edges|
      ensures r.edges[k].source < |r.nodes| && r.edges[k].target < |r.nodes|
    {
      assert r.edges[k] in r.edges;
    }
  }

  /** The weights of the edges from `a` to `b`, in edge order. */
  function EdgesConnecting<N, E>(g: Graph<N, E>, a: nat, b: nat): seq<E>
  {
    EdgesBetween(g.edges, a, b)
  }

  /** The weights of the edges of `edges` from `a` to `b`. */
  function EdgesBetween<E>(edges: seq<Edge<E>>, a: nat, b: nat): (r: seq<E>)
    ensures |r| <= |edges|
  {
    if edges == [] then []
    else
      var e := edges[|edges| - 1];
      EdgesBetween(edges[..|edges| - 1], a, b) + if e.source == a && e.target == b then [e.weight] else []
  }

  /**
   * The connecting weights are exactly those of the edges from `a` to `b`:
   * there are some iff the nodes are adjacent, and each one belongs to such an edge.
   */
  lemma {:induction false} EdgesConnectingSpec<N, E>(g: Graph<N, E>, a: nat, b: nat)
    ensures |EdgesConnecting(g, a, b)| > 0 <==> Adjacent(g, a, b)
    ensures forall w :: w in EdgesConnecting(g, a, b) ==> Edge(a, b, w) in g.edges
  {
    EdgesBetweenSpec(g.edges, a, b);
  }

  lemma {:induction false} EdgesBetweenSpec<E>(edges: seq<Edge<E>>, a: nat, b: nat)
    ensures |EdgesBetween(edges, a, b)| > 0 <==> exists k :: 0 <= k < |edges| && edges[k].source == a && edges[k].target == b
    ensures forall w :: w in EdgesBetween(edges, a, b) ==> Edge(a, b, w) in edges
  {
    if edges != [] {
      var n := |edges| - 1;
      EdgesBetweenSpec(edges[..n], a, b);
      assert forall k :: 0 <= k < n ==> edges[..n][k] == edges[k];
      if edges[n].source == a && edges[n].target == b {
        assert edges[n] == Edge(a, b, edges[n].weight);
      }
    }
  }

  /**
   * `w` is the weight of the one and only edge from `a` to `b`: some edge
   * `Edge(a, b, w)` exists and no other edge index joins `a` to `b`.
   */
  ghost predicate OnlyEdge<E>(edges: seq<Edge<E>>, a: nat, b: nat, w: E)
  {
    exists k :: 0 <= k < |edges| && edges[k] == Edge(a, b, w) &&
      forall j :: 0 <= j < |edges| && edges[j].source == a && edges[j].target == b ==> j == k
  }

  /**
   * `edges_connecting(a, b).exactly_one()` succeeds exactly when a single
   * edge joins `a` to `b`, and then yields that edge's weight.
   */
  lemma EdgesBetweenOne<E>(edges: seq<Edge<E>>, a: nat, b: nat)
    ensures |EdgesBetween(edges, a, b)| == 1 ==> OnlyEdge(edges, a, b, EdgesBetween(edges, a, b)[0])
    ensures forall w :: OnlyEdge(edges, a, b, w) ==> EdgesBetween(edges, a, b) == [w]
  {
    if |EdgesBetween(edges, a, b)| == 1 {
      SingleIsOnly(edges, a, b);
    }
    forall w | OnlyEdge(edges, a, b, w)
      ensures EdgesBetween(edges, a, b) == [w]
    {
      OnlyIsSingle(edges, a, b, w);
    }
  }

  lemma {:induction false} SingleIsOnly<E>(edges: seq<Edge<E>>, a: nat, b: nat)
    requires |EdgesBetween(edges, a, b)| == 1
    ensures OnlyEdge(edges, a, b, EdgesBetween(edges, a, b)[0])
  {
    var n := |edges| - 1;
    var prefix := edges[..n];
    var w := EdgesBetween(edges, a, b)[0];
    assert forall j :: 0 <= j < n ==> prefix[j] == edges[j];
    if edges[n].source == a && edges[n].target == b {
      EdgesBetweenSpec(prefix, a, b);
      assert EdgesBetween(prefix, a, b) == [];
      assert edges[n] == Edge(a, b, w);
      assert forall j :: 0 <= j < |edges| && edges[j].source == a && edges[j].target == b ==> j == n;
    } else {
      SingleIsOnly(prefix, a, b);
      var k :| 0 <= k < |prefix| && prefix[k] == Edge(a, b, w) &&
        forall j :: 0 <= j < |prefix| && prefix[j].source == a && prefix[j].target == b ==> j == k;
      assert edges[k] == Edge(a, b, w);
      assert forall j :: 0 <= j < |edges| && edges[j].source == a && edges[j].target == b ==> j == k;
    }
  }

  lemma {:induction false} OnlyIsSingle<E>(edges: seq<Edge<E>>, a: nat, b: nat, w: E)
    requires OnlyEdge(edges, a, b, w)
    ensures EdgesBetween(edges, a, b) == [w]
  {
    var n := |edges| - 1;
    var prefix := edges[..n];
    assert forall j :: 0 <= j < n ==> prefix[j] == edges[j];
    var k :| 0 <= k < |edges| && edges[k] == Edge(a, b, w) &&
      forall j :: 0 <= j < |edges| && edges[j].source == a && edges[j].target == b ==> j == k;
    if k == n {
      EdgesBetweenSpec(prefix, a, b);
      assert EdgesBetween(prefix, a, b) == [];
    } else {
      assert prefix[k] == Edge(a, b, w);
      assert OnlyEdge(prefix, a, b, w);
      OnlyIsSingle(prefix, a, b, w);
    }
  }

  /** `Iterator::find` over the nodes: the index of the first node satisfying `p`. */
  function FindNode<N>(nodes: seq<N>, p: N -> bool): (r: Option<nat>)
    ensures r.None? <==> forall i :: 0 <= i < |nodes| ==> !p(nodes[i])
    ensures r.Some? ==> r.value < |nodes| && p(nodes[r.value]) && forall i :: 0 <= i < r.value ==> !p(nodes[i])
  {
    if nodes == [] then None
    else if p(nodes[0]) then Some(0)
    else
      match FindNode(nodes[1..], p)
      case None => None
      case Some(i) => Some(i + 1)
  }
}
