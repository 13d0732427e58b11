/**
 * The earlier graph builder (src/data_graph.rs), over the static data and the
 * one-shot Tripwire reader's wormholes: one node per static system, one edge
 * per stored gate, and two edges per wormhole carrying its attributes and the
 * jump mass looked up by type.
 *
 * As written, the builder looks up the wormhole's from-system twice, so both
 * wormhole edges are loops on the from-system (src/data_graph.rs:39-40). The
 * model keeps that version (`GraphDataAsWritten`, `GetGraphData`) and a
 * corrected one that joins the two ends (`GraphDataCorrected`,
 * `GetGraphDataCorrected`).
 */
module DataGraph {
  import opened Wrappers
  import opened Ints
  import opened Text
  import opened FeedRules
  import opened Seqs
  import opened Digraph
  import DS = DataStatic
  import DD = DataDynamic

  /** What a wormhole edge records, seen from its source side. */
  datatype Wormhole = Wormhole(
    signature: Option<string>,
    otherSignature: Option<string>,
    wormholeType: Option<string>,
    lifetime: int,
    life: WormholeLife,
    mass: WormholeMass,
    jumpMass: Option<u32>)

  /** An edge weight: `None` for a stargate, the wormhole otherwise. */
  type Weight = Option<Wormhole>

  type SystemGraph = Graph<DS.System, Weight>

  // ---------------------------------------------------------------- nodes

  /** `node_index` after the first `k` systems are added: a later system with the same id replaces an earlier one. */
  function NodeIndex(systems: seq<DS.System>, k: nat): (r: map<u32, nat>)
    requires k <= |systems|
    ensures forall i :: 0 <= i < k ==> systems[i].id in r
    ensures forall id :: id in r ==> r[id] < k
  {
    if k == 0 then map[] else NodeIndex(systems, k - 1)[systems[k - 1].id := k - 1]
  }

  /** Some static system carries the id. */
  ghost predicate Known(systems: seq<DS.System>, id: u32)
  {
    exists i :: 0 <= i < |systems| && systems[i].id == id
  }

  /** The index holds exactly the systems' ids, each mapped to the last system that carries it. */
  lemma {:induction false} NodeIndexSpec(systems: seq<DS.System>, k: nat)
    requires k <= |systems|
    ensures forall id :: id in NodeIndex(systems, k) ==>
      && systems[NodeIndex(systems, k)[id]].id == id
      && forall j :: NodeIndex(systems, k)[id] < j < k ==> systems[j].id != id
  {
    if k > 0 {
      NodeIndexSpec(systems, k - 1);
      var prev, r := NodeIndex(systems, k - 1), NodeIndex(systems, k);
      forall id | id in r
        ensures systems[r[id]].id == id && forall j :: r[id] < j < k ==> systems[j].id != id
      {
        if id != systems[k - 1].id {
          assert id in prev && r[id] == prev[id];
        }
      }
    }
  }

  /** An id resolves in the complete index exactly when a static system carries it. */
  lemma NodeIndexKnown(systems: seq<DS.System>)
    ensures forall id :: id in NodeIndex(systems, |systems|) <==> Known(systems, id)
  {
    var r := NodeIndex(systems, |systems|);
    NodeIndexSpec(systems, |systems|);
    forall id | id in r
      ensures Known(systems, id)
    {
      assert systems[r[id]].id == id;
    }
  }

  // ---------------------------------------------------------------- gates

  /** One stored gate: one directed edge with no wormhole, or the error for its first unknown end. */
  function GateEdge(index: map<u32, nat>, gate: DS.Gate): Result<seq<Edge<Weight>>, string>
  {
    if gate.fromSystem !in index then Err("Gate from system " + Decimal(gate.fromSystem) + " missing from static data")
    else if gate.toSystem !in index then Err("Gate to system " + Decimal(gate.toSystem) + " missing from static data")
    else Ok([Edge(index[gate.fromSystem], index[gate.toSystem], None)])
  }

  function GateExpander(index: map<u32, nat>): DS.Gate -> Result<seq<Edge<Weight>>, string>
  {
    (gate: DS.Gate) => GateEdge(index, gate)
  }

  // ---------------------------------------------------------------- wormholes

  /** The jump mass of a wormhole type: none for an unknown type, or for a type missing from the table. */
  function JumpMass(table: map<string, u32>, wormholeType: Option<string>): (r: Option<u32>)
    ensures r.Some? <==> wormholeType.Some? && wormholeType.value in table
    ensures r.Some? ==> r.value == table[wormholeType.value]
  {
    match wormholeType
    case None => None
    case Some(t) => if t in table then Some(table[t]) else None
  }

  /** The attributes on the edge leaving the wormhole's from-side. */
  function Forward(w: DD.TripwireWormhole, table: map<string, u32>): Wormhole
  {
    Wormhole(w.fromSignature, w.toSignature, w.wormholeType, w.lifetime, w.life, w.mass, JumpMass(table, w.wormholeType))
  }

  /** The attributes on the edge back: the same wormhole with its two signatures exchanged. */
  function Backward(w: DD.TripwireWormhole, table: map<string, u32>): Wormhole
  {
    Wormhole(w.toSignature, w.fromSignature, w.wormholeType, w.lifetime, w.life, w.mass, JumpMass(table, w.wormholeType))
  }

  /** Forward and backward attributes differ only in the exchanged signatures. */
  lemma ForwardBackward(w: DD.TripwireWormhole, table: map<string, u32>)
    ensures Backward(w, table) == Forward(w, table).(signature := Forward(w, table).otherSignature, otherSignature := Forward(w, table).signature)
    ensures Forward(w, table).jumpMass == Backward(w, table).jumpMass == JumpMass(table, w.wormholeType)
  {
  }

  function FromMissing(w: DD.TripwireWormhole): string
  {
    "Wormhole from system " + Decimal(w.fromSystem) + " missing from static data"
  }

  /** One wormhole as written: both indices are looked up from the from-system. */
  function PairAsWritten(index: map<u32, nat>, table: map<string, u32>, w: DD.TripwireWormhole): Result<seq<Edge<Weight>>, string>
  {
    if w.fromSystem !in index then Err(FromMissing(w))
    else
      var fromIndex := index[w.fromSystem];
      var toIndex := index[w.fromSystem];
      Ok([Edge(fromIndex, toIndex, Some(Forward(w, table))), Edge(toIndex, fromIndex, Some(Backward(w, table)))])
  }

  function AsWrittenExpander(index: map<u32, nat>, table: map<string, u32>): DD.TripwireWormhole -> Result<seq<Edge<Weight>>, string>
  {
    (w: DD.TripwireWormhole) => PairAsWritten(index, table, w)
  }

  /**
   * One wormhole, corrected: the second index is the destination's when the
   * destination is a specific system, an unknown destination system is an
   * error like an unknown origin, and a destination known only by its class
   * has no node to join.
   */
  function PairCorrected(index: map<u32, nat>, table: map<string, u32>, w: DD.TripwireWormhole): Result<seq<Edge<Weight>>, string>
  {
    if w.fromSystem !in index then Err(FromMissing(w))
    else
      match w.toSystem
      case SpecificSystem(to) =>
        if to !in index then Err("Wormhole to system " + Decimal(to) + " missing from static data")
        else
          var fromIndex := index[w.fromSystem];
          var toIndex := index[to];
          Ok([Edge(fromIndex, toIndex, Some(Forward(w, table))), Edge(toIndex, fromIndex, Some(Backward(w, table)))])
      case _ => Ok([])
  }

  function CorrectedExpander(index: map<u32, nat>, table: map<string, u32>): DD.TripwireWormhole -> Result<seq<Edge<Weight>>, string>
  {
    (w: DD.TripwireWormhole) => PairCorrected(index, table, w)
  }

  // ---------------------------------------------------------------- the graph

  /** The complete node index. */
  function Index(staticData: DS.StaticData): map<u32, nat>
  {
    NodeIndex(staticData.systems, |staticData.systems|)
  }

  /** The gate loop. */
  function GateEdges(staticData: DS.StaticData): Result<seq<Edge<Weight>>, string>
  {
    CollectMany(staticData.gates, GateExpander(Index(staticData)))
  }

  /** The wormhole loop as written. */
  function WormholeEdgesAsWritten(staticData: DS.StaticData, tripwireData: seq<DD.TripwireWormhole>): Result<seq<Edge<Weight>>, string>
  {
    CollectMany(tripwireData, AsWrittenExpander(Index(staticData), staticData.wormholeJumpMass))
  }

  /** The wormhole loop, corrected. */
  function WormholeEdgesCorrected(staticData: DS.StaticData, tripwireData: seq<DD.TripwireWormhole>): Result<seq<Edge<Weight>>, string>
  {
    CollectMany(tripwireData, CorrectedExpander(Index(staticData), staticData.wormholeJumpMass))
  }

  /** `get_graph_data` as written. */
  function GraphDataAsWritten(staticData: DS.StaticData, tripwireData: seq<DD.TripwireWormhole>): Result<SystemGraph, string>
  {
    match GateEdges(staticData)
    case Err(e) => Err(e)
    case Ok(gateEdges) =>
      match WormholeEdgesAsWritten(staticData, tripwireData)
      case Err(e) => Err(e)
      case Ok(wormholeEdges) => Ok(Graph(staticData.systems, gateEdges + wormholeEdges))
  }

  /** `get_graph_data` with the destination looked up. */
  function GraphDataCorrected(staticData: DS.StaticData, tripwireData: seq<DD.TripwireWormhole>): Result<SystemGraph, string>
  {
    match GateEdges(staticData)
    case Err(e) => Err(e)
    case Ok(gateEdges) =>
      match WormholeEdgesCorrected(staticData, tripwireData)
      case Err(e) => Err(e)
      case Ok(wormholeEdges) => Ok(Graph(staticData.systems, gateEdges + wormholeEdges))
  }

  /** Every gate joins two static systems. */
  ghost predicate GatesKnown(staticData: DS.StaticData)
  {
    forall k :: 0 <= k < |staticData.gates| ==>
      Known(staticData.systems, staticData.gates[k].fromSystem) && Known(staticData.systems, staticData.gates[k].toSystem)
  }

  /** The gate loop succeeds exactly when every gate joins two static systems. */
  lemma GateEdgesOutcome(staticData: DS.StaticData)
    ensures GateEdges(staticData).Ok? <==> GatesKnown(staticData)
  {
    NodeIndexKnown(staticData.systems);
    CollectManyOutcome(staticData.gates, GateExpander(Index(staticData)));
  }

  /** A successful gate loop gives one edge per gate, in gate order, between the nodes of the ids the gate names. */
  lemma GateEdgesAt(staticData: DS.StaticData)
    requires GateEdges(staticData).Ok?
    ensures |GateEdges(staticData).value| == |staticData.gates|
    ensures forall k :: 0 <= k < |staticData.gates| ==>
      && staticData.gates[k].fromSystem in Index(staticData) && staticData.gates[k].toSystem in Index(staticData)
      && GateEdges(staticData).value[k] == Edge(Index(staticData)[staticData.gates[k].fromSystem], Index(staticData)[staticData.gates[k].toSystem], None)
  {
    var expand := GateExpander(Index(staticData));
    CollectManyOutcome(staticData.gates, expand);
    CollectManyUniform(staticData.gates, expand, 1);
    forall k | 0 <= k < |staticData.gates|
      ensures GateEdges(staticData).value[k] == expand(staticData.gates[k]).value[0]
    {
      assert GateEdges(staticData).value[1 * k + 0] == expand(staticData.gates[k]).value[0];
    }
  }

  /** Each node index of the complete index names a system with that id. */
  lemma IndexNames(staticData: DS.StaticData, id: u32)
    requires id in Index(staticData)
    ensures Index(staticData)[id] < |staticData.systems| && staticData.systems[Index(staticData)[id]].id == id
  {
    NodeIndexSpec(staticData.systems, |staticData.systems|);
  }

  /** Each gate edge of a successful build joins the nodes of the systems its gate names and carries no wormhole. */
  lemma GateEdgesShape(staticData: DS.StaticData, k: nat)
    requires GateEdges(staticData).Ok? && k < |staticData.gates|
    ensures k < |GateEdges(staticData).value|
    ensures var e := GateEdges(staticData).value[k];
      && e.weight.None? && e.source < |staticData.systems| && e.target < |staticData.systems|
      && staticData.systems[e.source].id == staticData.gates[k].fromSystem
      && staticData.systems[e.target].id == staticData.gates[k].toSystem
  {
    GateEdgesAt(staticData);
    IndexNames(staticData, staticData.gates[k].fromSystem);
    IndexNames(staticData, staticData.gates[k].toSystem);
  }

  /** Both endpoints of every wormhole are known systems; the destination only when `corrected` and it is a specific system. */
  ghost predicate WormholesKnown(staticData: DS.StaticData, tripwireData: seq<DD.TripwireWormhole>, corrected: bool)
  {
    forall m :: 0 <= m < |tripwireData| ==>
      && Known(staticData.systems, tripwireData[m].fromSystem)
      && (corrected && tripwireData[m].toSystem.SpecificSystem? ==> Known(staticData.systems, tripwireData[m].toSystem.id))
  }

  /**
   * As written, the build succeeds exactly when every gate and every
   * wormhole's from-system is known; the destination is never looked at.
   */
  lemma AsWrittenOutcome(staticData: DS.StaticData, tripwireData: seq<DD.TripwireWormhole>)
    ensures GraphDataAsWritten(staticData, tripwireData).Ok? <==>
      GatesKnown(staticData) && WormholesKnown(staticData, tripwireData, false)
  {
    GateEdgesOutcome(staticData);
    NodeIndexKnown(staticData.systems);
    CollectManyOutcome(tripwireData, AsWrittenExpander(Index(staticData), staticData.wormholeJumpMass));
  }

  /** As written, wormhole `m`'s two edges both go from the from-system's node to itself. */
  lemma AsWrittenPairs(staticData: DS.StaticData, tripwireData: seq<DD.TripwireWormhole>)
    requires WormholeEdgesAsWritten(staticData, tripwireData).Ok?
    ensures |WormholeEdgesAsWritten(staticData, tripwireData).value| == 2 * |tripwireData|
    ensures forall m :: 0 <= m < |tripwireData| ==>
      && tripwireData[m].fromSystem in Index(staticData)
      && var node := Index(staticData)[tripwireData[m].fromSystem];
      && WormholeEdgesAsWritten(staticData, tripwireData).value[2 * m] == Edge(node, node, Some(Forward(tripwireData[m], staticData.wormholeJumpMass)))
      && WormholeEdgesAsWritten(staticData, tripwireData).value[2 * m + 1] == Edge(node, node, Some(Backward(tripwireData[m], staticData.wormholeJumpMass)))
  {
    var expand := AsWrittenExpander(Index(staticData), staticData.wormholeJumpMass);
    CollectManyOutcome(tripwireData, expand);
    CollectManyUniform(tripwireData, expand, 2);
    forall m | 0 <= m < |tripwireData|
      ensures WormholeEdgesAsWritten(staticData, tripwireData).value[2 * m] == expand(tripwireData[m]).value[0]
      ensures WormholeEdgesAsWritten(staticData, tripwireData).value[2 * m + 1] == expand(tripwireData[m]).value[1]
    {
      assert WormholeEdgesAsWritten(staticData, tripwireData).value[2 * m + 0] == expand(tripwireData[m]).value[0];
    }
  }

  /**
   * A successful build as written: one node per static system, one edge per
   * gate and then two per wormhole, each of those a loop on the node of the
   * wormhole's from-system.
   */
  lemma AsWrittenShape(staticData: DS.StaticData, tripwireData: seq<DD.TripwireWormhole>, m: nat)
    requires GraphDataAsWritten(staticData, tripwireData).Ok? && m < |tripwireData|
    ensures GraphDataAsWritten(staticData, tripwireData).value.nodes == staticData.systems
    ensures |GraphDataAsWritten(staticData, tripwireData).value.edges| == |staticData.gates| + 2 * |tripwireData|
    ensures var edges := GraphDataAsWritten(staticData, tripwireData).value.edges;
      var k := |staticData.gates| + 2 * m;
      && edges[k].source == edges[k].target == edges[k + 1].source == edges[k + 1].target
      && edges[k].source < |staticData.systems|
      && staticData.systems[edges[k].source].id == tripwireData[m].fromSystem
      && edges[k].weight == Some(Forward(tripwireData[m], staticData.wormholeJumpMass))
      && edges[k + 1].weight == Some(Backward(tripwireData[m], staticData.wormholeJumpMass))
  {
    GateEdgesAt(staticData);
    AsWrittenPairs(staticData, tripwireData);
    IndexNames(staticData, tripwireData[m].fromSystem);
    var gateEdges := GateEdges(staticData).value;
    var wormholeEdges := WormholeEdgesAsWritten(staticData, tripwireData).value;
    var edges := GraphDataAsWritten(staticData, tripwireData).value.edges;
    assert edges == gateEdges + wormholeEdges;
    assert edges[|gateEdges| + 2 * m] == wormholeEdges[2 * m];
    assert edges[|gateEdges| + 2 * m + 1] == wormholeEdges[2 * m + 1];
  }

  /**
   * A concrete case of the defect: two systems and a wormhole from the first
   * to the second. The build succeeds, yet no edge touches the second system,
   * so the wormhole cannot be travelled.
   */
  lemma AsWrittenLosesDestination()
    ensures
      var a := DS.System(31000001, "J100001", -1.0 as real, Some(1));
      var b := DS.System(31000002, "J100002", -1.0 as real, Some(2));
      var w := DD.TripwireWormhole(31000001, DD.SpecificSystem(31000002), Some("ABC"), Some("DEF"), None, 0, WormholeLife.Stable, WormholeMass.Stable);
      var r := GraphDataAsWritten(DS.StaticData([a, b], [], map[]), [w]);
      && r.Ok? && |r.value.edges| == 2
      && forall k :: 0 <= k < |r.value.edges| ==> r.value.edges[k].source != 1 && r.value.edges[k].target != 1
  {
    var a := DS.System(31000001, "J100001", -1.0 as real, Some(1));
    var b := DS.System(31000002, "J100002", -1.0 as real, Some(2));
    var w := DD.TripwireWormhole(31000001, DD.SpecificSystem(31000002), Some("ABC"), Some("DEF"), None, 0, WormholeLife.Stable, WormholeMass.Stable);
    var sd := DS.StaticData([a, b], [], map[]);
    assert NodeIndex([a, b], 1) == map[31000001 := 0];
    assert Index(sd) == map[31000001 := 0, 31000002 := 1];
    var expand := AsWrittenExpander(Index(sd), map[]);
    assert [w][..0] == [];
    assert CollectMany([w][..0], expand) == Ok([]);
    var pair := PairAsWritten(Index(sd), map[], w).value;
    assert pair == [Edge(0, 0, Some(Forward(w, map[]))), Edge(0, 0, Some(Backward(w, map[])))];
    assert expand([w][0]) == Ok(pair);
    assert [] + pair == pair;
    assert WormholeEdgesAsWritten(sd, [w]) == Ok(pair);
  }

  /** The corrected build succeeds exactly when every gate, origin and specific destination is known. */
  lemma CorrectedOutcome(staticData: DS.StaticData, tripwireData: seq<DD.TripwireWormhole>)
    ensures GraphDataCorrected(staticData, tripwireData).Ok? <==>
      GatesKnown(staticData) && WormholesKnown(staticData, tripwireData, true)
  {
    GateEdgesOutcome(staticData);
    NodeIndexKnown(staticData.systems);
    CollectManyOutcome(tripwireData, CorrectedExpander(Index(staticData), staticData.wormholeJumpMass));
  }

  /** The wormhole edge `e` is `w` travelled one way or the other between the nodes of its two systems. */
  ghost predicate Joins(systems: seq<DS.System>, table: map<string, u32>, w: DD.TripwireWormhole, e: Edge<Weight>)
  {
    && w.toSystem.SpecificSystem?
    && e.source < |systems| && e.target < |systems|
    && ((systems[e.source].id == w.fromSystem && systems[e.target].id == w.toSystem.id && e.weight == Some(Forward(w, table)))
     || (systems[e.source].id == w.toSystem.id && systems[e.target].id == w.fromSystem && e.weight == Some(Backward(w, table))))
  }

  /** Each edge the corrected loop adds for a wormhole joins its two systems. */
  lemma PairJoins(staticData: DS.StaticData, w: DD.TripwireWormhole, e: Edge<Weight>)
    requires PairCorrected(Index(staticData), staticData.wormholeJumpMass, w).Ok?
    requires e in PairCorrected(Index(staticData), staticData.wormholeJumpMass, w).value
    ensures Joins(staticData.systems, staticData.wormholeJumpMass, w, e)
  {
    IndexNames(staticData, w.fromSystem);
    IndexNames(staticData, w.toSystem.id);
  }

  /**
   * In a successful corrected build every wormhole edge joins the systems of
   * one wormhole with a specific destination, in one direction or the other.
   */
  lemma CorrectedJoins(staticData: DS.StaticData, tripwireData: seq<DD.TripwireWormhole>)
    requires GraphDataCorrected(staticData, tripwireData).Ok?
    ensures GraphDataCorrected(staticData, tripwireData).value.nodes == staticData.systems
    ensures forall k :: |staticData.gates| <= k < |GraphDataCorrected(staticData, tripwireData).value.edges| ==>
      exists m :: 0 <= m < |tripwireData|
        && Joins(staticData.systems, staticData.wormholeJumpMass, tripwireData[m], GraphDataCorrected(staticData, tripwireData).value.edges[k])
  {
    var expand := CorrectedExpander(Index(staticData), staticData.wormholeJumpMass);
    GateEdgesAt(staticData);
    var gateEdges := GateEdges(staticData).value;
    var wormholeEdges := WormholeEdgesCorrected(staticData, tripwireData).value;
    CollectManyOrigin(tripwireData, expand);
    var edges := GraphDataCorrected(staticData, tripwireData).value.edges;
    assert edges == gateEdges + wormholeEdges;
    forall k | |gateEdges| <= k < |edges|
      ensures exists m :: 0 <= m < |tripwireData| && Joins(staticData.systems, staticData.wormholeJumpMass, tripwireData[m], edges[k])
    {
      var e := edges[k];
      assert e == wormholeEdges[k - |gateEdges|];
      assert e in wormholeEdges;
      var m :| 0 <= m < |tripwireData| && expand(tripwireData[m]).Ok? && e in expand(tripwireData[m]).value;
      PairJoins(staticData, tripwireData[m], e);
    }
  }

  /** Each wormhole with a specific destination gives the corrected graph an edge out of its origin into its destination. */
  lemma CorrectedReaches(staticData: DS.StaticData, tripwireData: seq<DD.TripwireWormhole>, m: nat)
    requires GraphDataCorrected(staticData, tripwireData).Ok?
    requires m < |tripwireData| && tripwireData[m].toSystem.SpecificSystem?
    ensures exists k :: (0 <= k < |GraphDataCorrected(staticData, tripwireData).value.edges|
      && var e := GraphDataCorrected(staticData, tripwireData).value.edges[k];
      && e.source < |staticData.systems| && e.target < |staticData.systems|
      && staticData.systems[e.source].id == tripwireData[m].fromSystem
      && staticData.systems[e.target].id == tripwireData[m].toSystem.id)
  {
    var expand := CorrectedExpander(Index(staticData), staticData.wormholeJumpMass);
    var gateEdges := GateEdges(staticData).value;
    var wormholeEdges := WormholeEdgesCorrected(staticData, tripwireData).value;
    CollectManyKeeps(tripwireData, expand, m);
    var pair := expand(tripwireData[m]).value;
    assert pair[0] in wormholeEdges;
    IndexNames(staticData, tripwireData[m].fromSystem);
    IndexNames(staticData, tripwireData[m].toSystem.id);
    var j :| 0 <= j < |wormholeEdges| && wormholeEdges[j] == pair[0];
    var edges := GraphDataCorrected(staticData, tripwireData).value.edges;
    assert edges == gateEdges + wormholeEdges;
    assert edges[|gateEdges| + j] == pair[0];
  }

  // ---------------------------------------------------------------- the build, step by step

  /** The node loop: adds each system and records its node. */
  method AddNodes(systems: seq<DS.System>) returns (graph: SystemGraph, nodeIndex: map<u32, nat>)
    ensures graph == Graph(systems, []) && nodeIndex == NodeIndex(systems, |systems|)
  {
    graph, nodeIndex := Graph([], []), map[];
    for i := 0 to |systems|
      invariant graph == Graph(systems[..i], []) && nodeIndex == NodeIndex(systems, i)
    {
      nodeIndex := nodeIndex[systems[i].id := |graph.nodes|];
      graph := graph.(nodes := graph.nodes + [systems[i]]);
    }
  }

  /** The gate loop: one edge per gate, or the first unknown end. */
  method AddGates(graph: SystemGraph, gates: seq<DS.Gate>, nodeIndex: map<u32, nat>) returns (r: Result<SystemGraph, string>)
    ensures CollectMany(gates, GateExpander(nodeIndex)).Err? ==> r == Err(CollectMany(gates, GateExpander(nodeIndex)).error)
    ensures CollectMany(gates, GateExpander(nodeIndex)).Ok? ==>
      r == Ok(graph.(edges := graph.edges + CollectMany(gates, GateExpander(nodeIndex)).value))
  {
    var g := graph;
    ghost var added: seq<Edge<Weight>> := [];
    for k := 0 to |gates|
      invariant CollectMany(gates[..k], GateExpander(nodeIndex)) == Ok(added)
      invariant g == graph.(edges := graph.edges + added)
    {
      var gate := gates[k];
      CollectManyStep(gates, GateExpander(nodeIndex), k, added);
      if gate.fromSystem !in nodeIndex {
        CollectManyFailurePersists(gates, GateExpander(nodeIndex), k + 1);
        return Err("Gate from system " + Decimal(gate.fromSystem) + " missing from static data");
      }
      if gate.toSystem !in nodeIndex {
        CollectManyFailurePersists(gates, GateExpander(nodeIndex), k + 1);
        return Err("Gate to system " + Decimal(gate.toSystem) + " missing from static data");
      }
      var e := Edge(nodeIndex[gate.fromSystem], nodeIndex[gate.toSystem], None);
      added := added + [e];
      g := g.(edges := g.edges + [e]);
    }
    assert gates[..|gates|] == gates;
    return Ok(g);
  }

  /** The wormhole loop as written: two loops on the from-system's node per wormhole. */
  method AddWormholesAsWritten(graph: SystemGraph, tripwireData: seq<DD.TripwireWormhole>, nodeIndex: map<u32, nat>, table: map<string, u32>)
    returns (r: Result<SystemGraph, string>)
    ensures CollectMany(tripwireData, AsWrittenExpander(nodeIndex, table)).Err? ==>
      r == Err(CollectMany(tripwireData, AsWrittenExpander(nodeIndex, table)).error)
    ensures CollectMany(tripwireData, AsWrittenExpander(nodeIndex, table)).Ok? ==>
      r == Ok(graph.(edges := graph.edges + CollectMany(tripwireData, AsWrittenExpander(nodeIndex, table)).value))
  {
    var g := graph;
    ghost var added: seq<Edge<Weight>> := [];
    for m := 0 to |tripwireData|
      invariant CollectMany(tripwireData[..m], AsWrittenExpander(nodeIndex, table)) == Ok(added)
      invariant g == graph.(edges := graph.edges + added)
    {
      var w := tripwireData[m];
      CollectManyStep(tripwireData, AsWrittenExpander(nodeIndex, table), m, added);
      var jumpMass := match w.wormholeType { case None => None case Some(v) => if v in table then Some(table[v]) else None };
      if w.fromSystem !in nodeIndex {
        CollectManyFailurePersists(tripwireData, AsWrittenExpander(nodeIndex, table), m + 1);
        return Err("Wormhole from system " + Decimal(w.fromSystem) + " missing from static data");
      }
      var fromIndex := nodeIndex[w.fromSystem];
      var toIndex := nodeIndex[w.fromSystem];
      var forward := Edge(fromIndex, toIndex, Some(Wormhole(w.fromSignature, w.toSignature, w.wormholeType, w.lifetime, w.life, w.mass, jumpMass)));
      var backward := Edge(toIndex, fromIndex, Some(Wormhole(w.toSignature, w.fromSignature, w.wormholeType, w.lifetime, w.life, w.mass, jumpMass)));
      added := added + [forward, backward];
      g := g.(edges := g.edges + [forward, backward]);
    }
    assert tripwireData[..|tripwireData|] == tripwireData;
    return Ok(g);
  }

  /** The wormhole loop, corrected: each pair joins the origin to a specific destination. */
  method AddWormholesCorrected(graph: SystemGraph, tripwireData: seq<DD.TripwireWormhole>, nodeIndex: map<u32, nat>, table: map<string, u32>)
    returns (r: Result<SystemGraph, string>)
    ensures CollectMany(tripwireData, CorrectedExpander(nodeIndex, table)).Err? ==>
      r == Err(CollectMany(tripwireData, CorrectedExpander(nodeIndex, table)).error)
    ensures CollectMany(tripwireData, CorrectedExpander(nodeIndex, table)).Ok? ==>
      r == Ok(graph.(edges := graph.edges + CollectMany(tripwireData, CorrectedExpander(nodeIndex, table)).value))
  {
    var g := graph;
    ghost var added: seq<Edge<Weight>> := [];
    for m := 0 to |tripwireData|
      invariant CollectMany(tripwireData[..m], CorrectedExpander(nodeIndex, table)) == Ok(added)
      invariant g == graph.(edges := graph.edges + added)
    {
      var w := tripwireData[m];
      CollectManyStep(tripwireData, CorrectedExpander(nodeIndex, table), m, added);
      var jumpMass := match w.wormholeType { case None => None case Some(v) => if v in table then Some(table[v]) else None };
      if w.fromSystem !in nodeIndex {
        CollectManyFailurePersists(tripwireData, CorrectedExpander(nodeIndex, table), m + 1);
        return Err("Wormhole from system " + Decimal(w.fromSystem) + " missing from static data");
      }
      if !w.toSystem.SpecificSystem? {
        assert added + [] == added;
        continue;
      }
      if w.toSystem.id !in nodeIndex {
        CollectManyFailurePersists(tripwireData, CorrectedExpander(nodeIndex, table), m + 1);
        return Err("Wormhole to system " + Decimal(w.toSystem.id) + " missing from static data");
      }
      var fromIndex := nodeIndex[w.fromSystem];
      var toIndex := nodeIndex[w.toSystem.id];
      var forward := Edge(fromIndex, toIndex, Some(Wormhole(w.fromSignature, w.toSignature, w.wormholeType, w.lifetime, w.life, w.mass, jumpMass)));
      var backward := Edge(toIndex, fromIndex, Some(Wormhole(w.toSignature, w.fromSignature, w.wormholeType, w.lifetime, w.life, w.mass, jumpMass)));
      added := added + [forward, backward];
      g := g.(edges := g.edges + [forward, backward]);
    }
    assert tripwireData[..|tripwireData|] == tripwireData;
    return Ok(g);
  }

  /** `get_graph_data` as written. */
  method GetGraphData(staticData: DS.StaticData, tripwireData: seq<DD.TripwireWormhole>) returns (r: Result<SystemGraph, string>)
    ensures r == GraphDataAsWritten(staticData, tripwireData)
  {
    var graph, nodeIndex := AddNodes(staticData.systems);
    var withGates := AddGates(graph, staticData.gates, nodeIndex);
    if withGates.Err? {
      return withGates;
    }
    assert withGates.value == Graph(staticData.systems, GateEdges(staticData).value);
    r := AddWormholesAsWritten(withGates.value, tripwireData, nodeIndex, staticData.wormholeJumpMass);
  }

  /** `get_graph_data` with the destination looked up. */
  method GetGraphDataCorrected(staticData: DS.StaticData, tripwireData: seq<DD.TripwireWormhole>) returns (r: Result<SystemGraph, string>)
    ensures r == GraphDataCorrected(staticData, tripwireData)
  {
    var graph, nodeIndex := AddNodes(staticData.systems);
    var withGates := AddGates(graph, staticData.gates, nodeIndex);
    if withGates.Err? {
      return withGates;
    }
    assert withGates.value == Graph(staticData.systems, GateEdges(staticData).value);
    r := AddWormholesCorrected(withGates.value, tripwireData, nodeIndex, staticData.wormholeJumpMass);
  }
}
