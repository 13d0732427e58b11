/**
 * The graph the planner searches, built from the static systems and the
 * normalised Tripwire wormholes (src/graph.rs): one node per system, a pair
 * of opposite gate edges per listed neighbour, and a pair of opposite
 * wormhole edges per wormhole whose two ends are known systems.
 */
module GraphBuilder {
  import opened Wrappers
  import opened Ints
  import opened FeedRules
  import opened Seqs
  import opened Digraph
  import opened EveSde
  import T = Tripwire

  /** What an edge records about a wormhole, seen from its source side. */
  datatype WormholeAttributes = WormholeAttributes(
    signature: Option<string>,
    otherSignature: Option<string>,
    wormholeType: Option<string>,
    lifetime: int,
    life: WormholeLife,
    mass: WormholeMass,
    jumpMass: Option<u32>)

  /** The weight of an edge: a wormhole with its attributes, or a stargate. */
  datatype Connection = Wormhole(attrs: WormholeAttributes) | Gate

  /** The same link travelled the other way: endpoints exchanged, and a wormhole's two signatures exchanged. */
  function Reverse(e: Edge<Connection>): (r: Edge<Connection>)
    ensures r.source == e.target && r.target == e.source
    ensures r.weight.Gate? <==> e.weight.Gate?
  {
    Edge(e.target, e.source,
      match e.weight
      case Gate => Gate
      case Wormhole(a) => Wormhole(a.(signature := a.otherSignature, otherSignature := a.signature)))
  }

  /** Reversing twice gives the edge back. */
  lemma ReverseInvolution(e: Edge<Connection>)
    ensures Reverse(Reverse(e)) == e
  {
  }

  /** The ids of the systems. */
  function Ids(sde: seq<System>): set<u32>
  {
    set i | 0 <= i < |sde| :: sde[i].id
  }

  /** Every listed neighbour is the id of some system (the `unwrap` at src/graph.rs:39 relies on it). */
  predicate NeighboursKnown(sde: seq<System>)
  {
    forall i, j :: 0 <= i < |sde| && 0 <= j < |sde[i].neighbours| ==> sde[i].neighbours[j] in Ids(sde)
  }

  /**
   * `node_index` after inserting the first `k` systems: it holds their ids,
   * each mapped to one of the first `k` positions.
   */
  function NodeIndex(sde: seq<System>, k: nat): (r: map<u32, nat>)
    requires k <= |sde|
    ensures forall i :: 0 <= i < k ==> sde[i].id in r
    ensures forall id :: id in r ==> r[id] < k
  {
    if k == 0 then map[] else NodeIndex(sde, k - 1)[sde[k - 1].id := k - 1]
  }

  /**
   * Each id maps to a system carrying it, and to the last such system: a later
   * insert replaces an earlier one.
   */
  lemma {:induction false} NodeIndexLastWins(sde: seq<System>, k: nat)
    requires k <= |sde|
    ensures forall id :: id in NodeIndex(sde, k) ==>
      && sde[NodeIndex(sde, k)[id]].id == id
      && forall j :: NodeIndex(sde, k)[id] < j < k ==> sde[j].id != id
  {
    if k > 0 {
      NodeIndexLastWins(sde, k - 1);
      var prev, r := NodeIndex(sde, k - 1), NodeIndex(sde, k);
      forall id | id in r
        ensures sde[r[id]].id == id && forall j :: r[id] < j < k ==> sde[j].id != id
      {
        if id != sde[k - 1].id {
          assert id in prev && r[id] == prev[id];
        }
      }
    }
  }

  /** The complete index holds exactly the systems' ids, so it resolves every neighbour. */
  lemma NodeIndexKnown(sde: seq<System>)
    ensures forall id :: id in NodeIndex(sde, |sde|) <==> id in Ids(sde)
    ensures NeighboursKnown(sde) ==> Resolves(sde, NodeIndex(sde, |sde|))
  {
    var r := NodeIndex(sde, |sde|);
    NodeIndexLastWins(sde, |sde|);
    forall id | id in r
      ensures id in Ids(sde)
    {
      assert sde[r[id]].id == id;
    }
  }

  /** The ids an index can resolve: every system id, and every neighbour id. */
  predicate Resolves(sde: seq<System>, index: map<u32, nat>)
  {
    && (forall i :: 0 <= i < |sde| ==> sde[i].id in index)
    && (forall i, j :: 0 <= i < |sde| && 0 <= j < |sde[i].neighbours| ==> sde[i].neighbours[j] in index)
  }

  /** The gate pair for one neighbour: out towards it and back. */
  function GatePair(index1: nat, index2: nat): seq<Edge<Connection>>
  {
    [Edge(index1, index2, Gate), Edge(index2, index1, Gate)]
  }

  /** The gate edges added for the first `j` neighbours of a system at node `index1`. */
  function NeighbourEdges(index1: nat, neighbours: seq<u32>, index: map<u32, nat>, j: nat): (r: seq<Edge<Connection>>)
    requires j <= |neighbours|
    requires forall l :: 0 <= l < |neighbours| ==> neighbours[l] in index
    ensures |r| == 2 * j
  {
    if j == 0 then [] else NeighbourEdges(index1, neighbours, index, j - 1) + GatePair(index1, index[neighbours[j - 1]])
  }

  /** The gate edges added for the first `k` systems. */
  function GateEdges(sde: seq<System>, index: map<u32, nat>, k: nat): seq<Edge<Connection>>
    requires k <= |sde|
    requires Resolves(sde, index)
  {
    if k == 0 then []
    else
      var s := sde[k - 1];
      GateEdges(sde, index, k - 1) + NeighbourEdges(index[s.id], s.neighbours, index, |s.neighbours|)
  }

  /** A wormhole gets edges when it leads to a specific system and both of its systems are in the index. */
  predicate Accepted(index: map<u32, nat>, w: T.TripwireWormhole)
  {
    w.toSystem.SpecificSystem? && w.fromSystem in index && w.toSystem.id in index
  }

  /** Accepted, as the filter over wormholes. */
  function AcceptedBy(index: map<u32, nat>): T.TripwireWormhole -> bool
  {
    w => Accepted(index, w)
  }

  /** The attributes of a wormhole seen from its `from` side; the jump capacity is never filled in. */
  function Attributes(w: T.TripwireWormhole): WormholeAttributes
  {
    WormholeAttributes(w.fromSignature, w.toSignature, w.wormholeType, w.lifetime, w.life, w.mass, None)
  }

  /** The edge from an accepted wormhole's `from` system to its `to` system. */
  function ForwardEdge(index: map<u32, nat>, w: T.TripwireWormhole): Edge<Connection>
    requires Accepted(index, w)
  {
    Edge(index[w.fromSystem], index[w.toSystem.id], Wormhole(Attributes(w)))
  }

  /** The edges added for the first `k` wormholes. */
  function WormholeEdges(tw: seq<T.TripwireWormhole>, index: map<u32, nat>, k: nat): seq<Edge<Connection>>
    requires k <= |tw|
  {
    if k == 0 then []
    else
      var w := tw[k - 1];
      WormholeEdges(tw, index, k - 1) + if Accepted(index, w) then [ForwardEdge(index, w), Reverse(ForwardEdge(index, w))] else []
  }

  /** The graph `get_graph_data` returns, as a function of its inputs. */
  function BuiltGraph(sde: seq<System>, tw: seq<T.TripwireWormhole>): Graph<System, Connection>
    requires NeighboursKnown(sde)
  {
    var index := NodeIndex(sde, |sde|);
    NodeIndexKnown(sde);
    Graph(sde, GateEdges(sde, index, |sde|) + WormholeEdges(tw, index, |tw|))
  }

  /** The inner loop over one system's neighbours: a gate pair from `index1` for each of them. */
  method AddGates(edges: seq<Edge<Connection>>, index1: nat, neighbours: seq<u32>, nodeIndex: map<u32, nat>)
    returns (edges': seq<Edge<Connection>>)
    requires forall l :: 0 <= l < |neighbours| ==> neighbours[l] in nodeIndex
    ensures edges' == edges + NeighbourEdges(index1, neighbours, nodeIndex, |neighbours|)
  {
    edges' := edges;
    for j := 0 to |neighbours|
      invariant edges' == edges + NeighbourEdges(index1, neighbours, nodeIndex, j)
    {
      var index2 := nodeIndex[neighbours[j]];
      edges' := edges' + [Edge(index1, index2, Gate), Edge(index2, index1, Gate)];
    }
  }

  /** The first loop: one node per system, in order, each id indexed to its node. */
  method AddNodes(sde: seq<System>) returns (nodes: seq<System>, nodeIndex: map<u32, nat>)
    ensures nodes == sde && nodeIndex == NodeIndex(sde, |sde|)
  {
    nodes, nodeIndex := [], map[];
    for i := 0 to |sde|
      invariant nodes == sde[..i]
      invariant nodeIndex == NodeIndex(sde, i)
    {
      nodeIndex := nodeIndex[sde[i].id := |nodes|];
      nodes := nodes + [sde[i]];
    }
  }

  /** The last loop: a pair of edges per wormhole from a known system to a known system. */
  method AddWormholes(edges: seq<Edge<Connection>>, tripwireData: seq<T.TripwireWormhole>, nodeIndex: map<u32, nat>)
    returns (edges': seq<Edge<Connection>>)
    ensures edges' == edges + WormholeEdges(tripwireData, nodeIndex, |tripwireData|)
  {
    edges' := edges;
    for k := 0 to |tripwireData|
      invariant edges' == edges + WormholeEdges(tripwireData, nodeIndex, k)
    {
      var wormhole := tripwireData[k];
      var jumpMass: Option<u32> := None;
      if !wormhole.toSystem.SpecificSystem? {
        continue;
      }
      var toSystem := wormhole.toSystem.id;
      if wormhole.fromSystem !in nodeIndex || toSystem !in nodeIndex {
        continue;
      }
      var fromIndex, toIndex := nodeIndex[wormhole.fromSystem], nodeIndex[toSystem];
      ghost var forward := ForwardEdge(nodeIndex, wormhole);
      assert WormholeEdges(tripwireData, nodeIndex, k + 1) ==
        WormholeEdges(tripwireData, nodeIndex, k) + [forward, Reverse(forward)];
      edges' := edges' + [Edge(fromIndex, toIndex, Wormhole(WormholeAttributes(
        wormhole.fromSignature, wormhole.toSignature, wormhole.wormholeType,
        wormhole.lifetime, wormhole.life, wormhole.mass, jumpMass)))];
      edges' := edges' + [Edge(toIndex, fromIndex, Wormhole(WormholeAttributes(
        wormhole.toSignature, wormhole.fromSignature, wormhole.wormholeType,
        wormhole.lifetime, wormhole.life, wormhole.mass, jumpMass)))];
    }
  }

  /**
   * `get_graph_data`: add the nodes and fill the index, add the gate pairs,
   * then the wormhole pairs, skipping wormholes to a class or to an unknown
   * system. It always succeeds.
   */
  method GetGraphData(sde: seq<System>, tripwireData: seq<T.TripwireWormhole>) returns (r: Result<Graph<System, Connection>, string>)
    requires NeighboursKnown(sde)
    ensures r == Ok(BuiltGraph(sde, tripwireData))
  {
    var nodes, nodeIndex := AddNodes(sde);
    NodeIndexKnown(sde);
    var edges: seq<Edge<Connection>> := [];
    for i := 0 to |sde|
      invariant edges == GateEdges(sde, nodeIndex, i)
    {
      var index1 := nodeIndex[sde[i].id];
      edges := AddGates(edges, index1, sde[i].neighbours, nodeIndex);
    }
    edges := AddWormholes(edges, tripwireData, nodeIndex);
    r := Ok(Graph(nodes, edges));
  }

  // ---------------------------------------------------------------------------
  // Properties of the built graph.

  /** Edges come in pairs: each odd-numbered edge is the reverse of the one before it. */
  predicate Paired(es: seq<Edge<Connection>>)
  {
    |es| % 2 == 0 && forall k :: 0 <= k < |es| / 2 ==> es[2 * k + 1] == Reverse(es[2 * k])
  }

  lemma PairedConcat(a: seq<Edge<Connection>>, b: seq<Edge<Connection>>)
    requires Paired(a) && Paired(b)
    ensures Paired(a + b)
  {
    var c := a + b;
    forall k | 0 <= k < |c| / 2
      ensures c[2 * k + 1] == Reverse(c[2 * k])
    {
      if k < |a| / 2 {
        assert c[2 * k] == a[2 * k] && c[2 * k + 1] == a[2 * k + 1];
      } else {
        var m := k - |a| / 2;
        assert 2 * k == |a| + 2 * m;
        assert c[2 * k] == b[2 * m] && c[2 * k + 1] == b[2 * m + 1];
      }
    }
  }

  lemma {:induction false} NeighbourEdgesPaired(index1: nat, neighbours: seq<u32>, index: map<u32, nat>, j: nat)
    requires j <= |neighbours|
    requires forall l :: 0 <= l < |neighbours| ==> neighbours[l] in index
    ensures Paired(NeighbourEdges(index1, neighbours, index, j))
  {
    if j > 0 {
      NeighbourEdgesPaired(index1, neighbours, index, j - 1);
      PairedConcat(NeighbourEdges(index1, neighbours, index, j - 1), GatePair(index1, index[neighbours[j - 1]]));
    }
  }

  lemma {:induction false} GateEdgesPaired(sde: seq<System>, index: map<u32, nat>, k: nat)
    requires k <= |sde| && Resolves(sde, index)
    ensures Paired(GateEdges(sde, index, k))
  {
    if k > 0 {
      var s := sde[k - 1];
      GateEdgesPaired(sde, index, k - 1);
      NeighbourEdgesPaired(index[s.id], s.neighbours, index, |s.neighbours|);
      PairedConcat(GateEdges(sde, index, k - 1), NeighbourEdges(index[s.id], s.neighbours, index, |s.neighbours|));
    }
  }

  lemma {:induction false} WormholeEdgesPaired(tw: seq<T.TripwireWormhole>, index: map<u32, nat>, k: nat)
    requires k <= |tw|
    ensures Paired(WormholeEdges(tw, index, k))
  {
    if k > 0 {
      var w := tw[k - 1];
      WormholeEdgesPaired(tw, index, k - 1);
      if Accepted(index, w) {
        PairedConcat(WormholeEdges(tw, index, k - 1), [ForwardEdge(index, w), Reverse(ForwardEdge(index, w))]);
      }
    }
  }

  /** Every link of the built graph is there in both directions: its edges pair up into a link and its reverse. */
  lemma BuiltPaired(sde: seq<System>, tw: seq<T.TripwireWormhole>)
    requires NeighboursKnown(sde)
    ensures Paired(BuiltGraph(sde, tw).edges)
  {
    var index := NodeIndex(sde, |sde|);
    NodeIndexKnown(sde);
    GateEdgesPaired(sde, index, |sde|);
    WormholeEdgesPaired(tw, index, |tw|);
    PairedConcat(GateEdges(sde, index, |sde|), WormholeEdges(tw, index, |tw|));
  }

  /** The number of neighbour entries of the first `k` systems. */
  function NeighbourTotal(sde: seq<System>, k: nat): nat
    requires k <= |sde|
  {
    if k == 0 then 0 else NeighbourTotal(sde, k - 1) + |sde[k - 1].neighbours|
  }

  lemma {:induction false} GateEdgesCount(sde: seq<System>, index: map<u32, nat>, k: nat)
    requires k <= |sde| && Resolves(sde, index)
    ensures |GateEdges(sde, index, k)| == 2 * NeighbourTotal(sde, k)
  {
    if k > 0 {
      GateEdgesCount(sde, index, k - 1);
    }
  }

  lemma {:induction false} WormholeEdgesCount(tw: seq<T.TripwireWormhole>, index: map<u32, nat>, k: nat)
    requires k <= |tw|
    ensures |WormholeEdges(tw, index, k)| == 2 * |Filter(tw[..k], AcceptedBy(index))|
  {
    if k > 0 {
      WormholeEdgesCount(tw, index, k - 1);
      assert tw[..k][..k - 1] == tw[..k - 1];
    }
  }

  /**
   * The wormhole edges are, pair by pair, the forward and reverse edges of
   * the accepted wormholes in feed order: pair `m` belongs to the m-th one.
   */
  lemma {:induction false} WormholeEdgesAt(tw: seq<T.TripwireWormhole>, index: map<u32, nat>, k: nat, m: nat)
    requires k <= |tw| && m < |Filter(tw[..k], AcceptedBy(index))|
    ensures 2 * m + 1 < |WormholeEdges(tw, index, k)|
    ensures WormholeEdges(tw, index, k)[2 * m] == ForwardEdge(index, Filter(tw[..k], AcceptedBy(index))[m])
    ensures WormholeEdges(tw, index, k)[2 * m + 1] == Reverse(ForwardEdge(index, Filter(tw[..k], AcceptedBy(index))[m]))
  {
    assert tw[..k][..k - 1] == tw[..k - 1];
    var w := tw[k - 1];
    var f, f' := Filter(tw[..k - 1], AcceptedBy(index)), Filter(tw[..k], AcceptedBy(index));
    var e, e' := WormholeEdges(tw, index, k - 1), WormholeEdges(tw, index, k);
    WormholeEdgesCount(tw, index, k - 1);
    if Accepted(index, w) {
      assert f' == f + [w];
      assert e' == e + [ForwardEdge(index, w), Reverse(ForwardEdge(index, w))];
      if m < |f| {
        WormholeEdgesAt(tw, index, k - 1, m);
        assert f'[m] == f[m];
        assert e'[2 * m] == e[2 * m] && e'[2 * m + 1] == e[2 * m + 1];
      } else {
        assert f'[m] == w && 2 * m == |e|;
      }
    } else {
      assert f' == f && e' == e;
      WormholeEdgesAt(tw, index, k - 1, m);
    }
  }

  /**
   * The edge count is twice the number of neighbour entries plus twice the
   * number of accepted wormholes; wormholes to a class or to a system the
   * static data lacks add nothing.
   */
  lemma BuiltEdgeCount(sde: seq<System>, tw: seq<T.TripwireWormhole>)
    requires NeighboursKnown(sde)
    ensures |BuiltGraph(sde, tw).edges| ==
      2 * NeighbourTotal(sde, |sde|) + 2 * |Filter(tw, AcceptedBy(NodeIndex(sde, |sde|)))|
  {
    var index := NodeIndex(sde, |sde|);
    NodeIndexKnown(sde);
    GateEdgesCount(sde, index, |sde|);
    WormholeEdgesCount(tw, index, |tw|);
    assert tw[..|tw|] == tw;
  }

  /**
   * An accepted wormhole's two edges: from `from` to `to` carrying its
   * attributes with no jump capacity, and back with the two signatures
   * exchanged and everything else the same.
   */
  lemma WormholePair(index: map<u32, nat>, w: T.TripwireWormhole)
    requires Accepted(index, w)
    ensures ForwardEdge(index, w) == Edge(index[w.fromSystem], index[w.toSystem.id], Wormhole(
      WormholeAttributes(w.fromSignature, w.toSignature, w.wormholeType, w.lifetime, w.life, w.mass, None)))
    ensures Reverse(ForwardEdge(index, w)) == Edge(index[w.toSystem.id], index[w.fromSystem], Wormhole(
      WormholeAttributes(w.toSignature, w.fromSignature, w.wormholeType, w.lifetime, w.life, w.mass, None)))
  {
  }

  /**
   * The wormhole part of the edge list, after the gate edges, holds for the
   * m-th accepted wormhole (one of the feed's wormholes, leading to a specific
   * system) its forward edge and then the reverse one.
   */
  lemma BuiltWormholes(sde: seq<System>, tw: seq<T.TripwireWormhole>, m: nat)
    requires NeighboursKnown(sde)
    requires m < |Filter(tw, AcceptedBy(NodeIndex(sde, |sde|)))|
    ensures
      var index := NodeIndex(sde, |sde|);
      var w := Filter(tw, AcceptedBy(index))[m];
      var g := BuiltGraph(sde, tw);
      var base := 2 * NeighbourTotal(sde, |sde|);
      && w in tw && Accepted(index, w)
      && base + 2 * m + 1 < |g.edges|
      && g.edges[base + 2 * m] == ForwardEdge(index, w)
      && g.edges[base + 2 * m + 1] == Reverse(ForwardEdge(index, w))
  {
    var index := NodeIndex(sde, |sde|);
    NodeIndexKnown(sde);
    var gates, holes := GateEdges(sde, index, |sde|), WormholeEdges(tw, index, |tw|);
    GateEdgesCount(sde, index, |sde|);
    assert tw[..|tw|] == tw;
    WormholeEdgesAt(tw, index, |tw|, m);
    var base := 2 * NeighbourTotal(sde, |sde|);
    assert |gates| == base;
    var g := BuiltGraph(sde, tw);
    assert g.edges == gates + holes;
    AppendedAt(gates, holes, 2 * m);
    AppendedAt(gates, holes, 2 * m + 1);
  }

  lemma AppendedAt<X>(a: seq<X>, b: seq<X>, k: nat)
    requires k < |b|
    ensures |a| + k < |a + b| && (a + b)[|a| + k] == b[k]
  {
  }

  /** Every gate edge is one of the pair for some system and one of its listed neighbours. */
  predicate FromNeighbour(sde: seq<System>, index: map<u32, nat>, k: nat, e: Edge<Connection>)
    requires k <= |sde| && Resolves(sde, index)
  {
    exists i, j :: 0 <= i < k && 0 <= j < |sde[i].neighbours| &&
      (e == Edge(index[sde[i].id], index[sde[i].neighbours[j]], Gate) ||
       e == Edge(index[sde[i].neighbours[j]], index[sde[i].id], Gate))
  }

  lemma {:induction false} NeighbourEdgesSpec(index1: nat, neighbours: seq<u32>, index: map<u32, nat>, j: nat)
    requires j <= |neighbours|
    requires forall l :: 0 <= l < |neighbours| ==> neighbours[l] in index
    ensures forall e :: e in NeighbourEdges(index1, neighbours, index, j) ==>
      exists l :: 0 <= l < j && (e == Edge(index1, index[neighbours[l]], Gate) || e == Edge(index[neighbours[l]], index1, Gate))
    ensures forall l :: 0 <= l < j ==>
      Edge(index1, index[neighbours[l]], Gate) in NeighbourEdges(index1, neighbours, index, j) &&
      Edge(index[neighbours[l]], index1, Gate) in NeighbourEdges(index1, neighbours, index, j)
  {
    if j > 0 {
      NeighbourEdgesSpec(index1, neighbours, index, j - 1);
    }
  }

  /** Each gate edge comes from a neighbour entry. */
  lemma {:induction false} GateEdgesOrigin(sde: seq<System>, index: map<u32, nat>, k: nat)
    requires k <= |sde| && Resolves(sde, index)
    ensures forall e :: e in GateEdges(sde, index, k) ==> FromNeighbour(sde, index, k, e)
  {
    if k > 0 {
      var s := sde[k - 1];
      GateEdgesOrigin(sde, index, k - 1);
      NeighbourEdgesSpec(index[s.id], s.neighbours, index, |s.neighbours|);
      forall e | e in GateEdges(sde, index, k)
        ensures FromNeighbour(sde, index, k, e)
      {
        if e in GateEdges(sde, index, k - 1) {
          var i, j :| 0 <= i < k - 1 && 0 <= j < |sde[i].neighbours| &&
            (e == Edge(index[sde[i].id], index[sde[i].neighbours[j]], Gate) ||
             e == Edge(index[sde[i].neighbours[j]], index[sde[i].id], Gate));
        } else {
          var l :| 0 <= l < |s.neighbours| &&
            (e == Edge(index[s.id], index[s.neighbours[l]], Gate) || e == Edge(index[s.neighbours[l]], index[s.id], Gate));
          assert sde[k - 1].neighbours[l] == s.neighbours[l];
        }
      }
    }
  }

  /** Each neighbour entry gives a gate edge in both directions. */
  lemma {:induction false} GateEdgesComplete(sde: seq<System>, index: map<u32, nat>, k: nat)
    requires k <= |sde| && Resolves(sde, index)
    ensures forall i, j :: 0 <= i < k && 0 <= j < |sde[i].neighbours| ==>
      Edge(index[sde[i].id], index[sde[i].neighbours[j]], Gate) in GateEdges(sde, index, k) &&
      Edge(index[sde[i].neighbours[j]], index[sde[i].id], Gate) in GateEdges(sde, index, k)
  {
    if k > 0 {
      var s := sde[k - 1];
      GateEdgesComplete(sde, index, k - 1);
      NeighbourEdgesSpec(index[s.id], s.neighbours, index, |s.neighbours|);
    }
  }

  /** Every position the index maps to is below `n`. */
  predicate Within(index: map<u32, nat>, n: nat)
  {
    forall id :: id in index ==> index[id] < n
  }

  lemma {:induction false} NeighbourEdgesShape(index1: nat, neighbours: seq<u32>, index: map<u32, nat>, j: nat, n: nat)
    requires j <= |neighbours| && index1 < n && Within(index, n)
    requires forall l :: 0 <= l < |neighbours| ==> neighbours[l] in index
    ensures forall e :: e in NeighbourEdges(index1, neighbours, index, j) ==> e.weight.Gate? && e.source < n && e.target < n
  {
    if j > 0 {
      NeighbourEdgesShape(index1, neighbours, index, j - 1, n);
    }
  }

  /** Gate edges carry `Gate` and join positions the index maps to. */
  lemma {:induction false} GateEdgesShape(sde: seq<System>, index: map<u32, nat>, k: nat, n: nat)
    requires k <= |sde| && Resolves(sde, index) && Within(index, n)
    ensures forall e :: e in GateEdges(sde, index, k) ==> e.weight.Gate? && e.source < n && e.target < n
  {
    if k > 0 {
      var s := sde[k - 1];
      GateEdgesShape(sde, index, k - 1, n);
      NeighbourEdgesShape(index[s.id], s.neighbours, index, |s.neighbours|, n);
    }
  }

  /** Wormhole edges carry a wormhole without jump capacity and join positions the index maps to. */
  lemma {:induction false} WormholeEdgesShape(tw: seq<T.TripwireWormhole>, index: map<u32, nat>, k: nat, n: nat)
    requires k <= |tw| && Within(index, n)
    ensures forall e :: e in WormholeEdges(tw, index, k) ==>
      e.weight.Wormhole? && e.weight.attrs.jumpMass.None? && e.source < n && e.target < n
  {
    if k > 0 {
      WormholeEdgesShape(tw, index, k - 1, n);
    }
  }

  /**
   * The built graph has the systems as its nodes, is a valid graph, and no
   * wormhole edge has a jump capacity (it is always `None`).
   */
  lemma BuiltValid(sde: seq<System>, tw: seq<T.TripwireWormhole>)
    requires NeighboursKnown(sde)
    ensures BuiltGraph(sde, tw).nodes == sde
    ensures Valid(BuiltGraph(sde, tw))
    ensures forall e :: e in BuiltGraph(sde, tw).edges && e.weight.Wormhole? ==> e.weight.attrs.jumpMass.None?
  {
    var index := NodeIndex(sde, |sde|);
    NodeIndexKnown(sde);
    var g := BuiltGraph(sde, tw);
    var gates, holes := GateEdges(sde, index, |sde|), WormholeEdges(tw, index, |tw|);
    GateEdgesShape(sde, index, |sde|, |sde|);
    WormholeEdgesShape(tw, index, |tw|, |sde|);
    assert g.edges == gates + holes;
    forall k | 0 <= k < |g.edges|
      ensures g.edges[k].source < |g.nodes| && g.edges[k].target < |g.nodes|
    {
      assert g.edges[k] in gates || g.edges[k] in holes;
    }
  }

  /**
   * The gate edges of the built graph are exactly the two directions of each
   * listed neighbour link: each neighbour entry gives both, and every gate
   * edge comes from one.
   */
  lemma BuiltGates(sde: seq<System>, tw: seq<T.TripwireWormhole>)
    requires NeighboursKnown(sde)
    ensures
      var index := NodeIndex(sde, |sde|);
      var g := BuiltGraph(sde, tw);
      && (forall i, j :: 0 <= i < |sde| && 0 <= j < |sde[i].neighbours| ==>
            Edge(index[sde[i].id], index[sde[i].neighbours[j]], Gate) in g.edges &&
            Edge(index[sde[i].neighbours[j]], index[sde[i].id], Gate) in g.edges)
      && (forall e :: e in g.edges && e.weight.Gate? ==> FromNeighbour(sde, index, |sde|, e))
  {
    var index := NodeIndex(sde, |sde|);
    NodeIndexKnown(sde);
    var g := BuiltGraph(sde, tw);
    var gates, holes := GateEdges(sde, index, |sde|), WormholeEdges(tw, index, |tw|);
    GateEdgesOrigin(sde, index, |sde|);
    GateEdgesComplete(sde, index, |sde|);
    WormholeEdgesShape(tw, index, |tw|, |sde|);
    assert g.edges == gates + holes;
  }
}
