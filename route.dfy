/**
 * The route computation of the planner's main view: the system-name search
 * box filter, the choice of the error a missing input produces, and the
 * derivation of a route from the graph and the user's selections (filter the
 * graph, find both endpoints, search a minimum-hop path, rebuild it as pairs
 * of a system and the connection that leads into it).
 */
module Route {
  import opened Wrappers
  import opened Text
  import opened Seqs
  import opened Digraph
  import opened Errors
  import opened FeedRules
  import ShortestPath
  import opened EveSde
  import opened GraphBuilder

  /** The search box keeps a system when its lowercased name starts with the lowercased query. */
  predicate NameMatches(search: string, system: System)
  {
    StartsWith(Lower(system.name), Lower(search))
  }

  function SearchMatcher(search: string): System -> bool
  {
    (system: System) => NameMatches(search, system)
  }

  /** `system_search_filter`: the first 20 systems whose name matches the query. */
  function SystemSearchFilter(search: string, systems: seq<System>): (r: seq<System>)
    ensures |r| <= 20
    ensures forall i :: 0 <= i < |r| ==> r[i] in systems && NameMatches(search, r[i])
  {
    Take(Filter(systems, SearchMatcher(search)), 20)
  }

  /**
   * The matches are listed in input order, cut off at 20: the result is the
   * start of the list of all matching systems, and when it is shorter than 20
   * it holds every matching system.
   */
  lemma SearchFilterOrder(search: string, systems: seq<System>)
    ensures var all := Filter(systems, SearchMatcher(search));
      SystemSearchFilter(search, systems) == all[..|SystemSearchFilter(search, systems)|]
    ensures |SystemSearchFilter(search, systems)| < 20 ==>
      forall j :: 0 <= j < |systems| && NameMatches(search, systems[j]) ==> systems[j] in SystemSearchFilter(search, systems)
  {
    var p := SearchMatcher(search);
    if |SystemSearchFilter(search, systems)| < 20 {
      forall j | 0 <= j < |systems| && NameMatches(search, systems[j])
        ensures systems[j] in SystemSearchFilter(search, systems)
      {
        assert p(systems[j]);
        FilterPlace(systems, p, j);
      }
    }
  }

  /**
   * The graph memo: the static data must be loaded before the wormhole data
   * is looked at; data still loading is a Loading error and a load that
   * failed is a Critical error carrying the loader's message.
   */
  function GraphInputs<A, B>(sde: Option<Result<A, string>>, tripwire: Option<Result<B, string>>): (r: Result<(A, B), ErrorStatus>)
    ensures sde.None? ==> r == Err(LoadingError("Loading static data"))
    ensures sde.Some? && sde.value.Err? ==> r == Err(CriticalError(sde.value.error))
    ensures sde.Some? && sde.value.Ok? && tripwire.None? ==> r == Err(LoadingError("Loading wormhole data"))
    ensures sde.Some? && sde.value.Ok? && tripwire.Some? && tripwire.value.Err? ==> r == Err(CriticalError(tripwire.value.error))
    ensures r.Ok? <==> sde.Some? && sde.value.Ok? && tripwire.Some? && tripwire.value.Ok?
    ensures r.Ok? ==> r.value == (sde.value.value, tripwire.value.value)
  {
    match sde
    case None => Err(LoadingError("Loading static data"))
    case Some(Err(e)) => Err(CriticalError(e))
    case Some(Ok(systems)) =>
      match tripwire
      case None => Err(LoadingError("Loading wormhole data"))
      case Some(Err(e)) => Err(CriticalError(e))
      case Some(Ok(wormholes)) => Ok((systems, wormholes))
  }

  /** The four check boxes of the route form. */
  datatype Toggles = Toggles(excludeLowsec: bool, excludeNullsec: bool, excludeVoc: bool, excludeEol: bool)

  /** The system is on the avoid list (compared by id). */
  predicate Avoided(avoid: seq<System>, system: System)
  {
    exists i :: 0 <= i < |avoid| && avoid[i].id == system.id
  }

  /** The node filter of the route derivation. */
  predicate KeepSystem(avoid: seq<System>, t: Toggles, system: System)
  {
    if Avoided(avoid, system) then false
    else if t.excludeLowsec && system.spaceClass == Lowsec then false
    else if t.excludeNullsec && system.spaceClass == Nullsec then false
    else true
  }

  /** The edge filter: stargates always pass, wormholes can be dropped for their mass or life. */
  predicate KeepConnection(t: Toggles, c: Connection)
  {
    match c
    case Gate => true
    case Wormhole(w) =>
      if t.excludeVoc && w.mass == VOC then false
      else if t.excludeEol && w.life == EOL then false
      else true
  }

  function SystemFilter(avoid: seq<System>, t: Toggles): System -> bool
  {
    (system: System) => KeepSystem(avoid, t, system)
  }

  function ConnectionFilter(t: Toggles): Connection -> bool
  {
    (c: Connection) => KeepConnection(t, c)
  }

  /** The graph the route is searched in. */
  function Filtered(g: Graph<System, Connection>, avoid: seq<System>, t: Toggles): Graph<System, Connection>
  {
    FilterGraph(g, SystemFilter(avoid, t), ConnectionFilter(t))
  }

  /**
   * The filtered graph keeps, in their order, exactly the systems that are not
   * avoided and not of an excluded security class.
   */
  lemma FilteredNodes(g: Graph<System, Connection>, avoid: seq<System>, t: Toggles)
    ensures forall s :: s in Filtered(g, avoid, t).nodes <==>
      s in g.nodes && !Avoided(avoid, s) && !(t.excludeLowsec && s.spaceClass == Lowsec) && !(t.excludeNullsec && s.spaceClass == Nullsec)
  {
    var keep := SystemFilter(avoid, t);
    forall s | s in g.nodes && keep(s)
      ensures s in Filtered(g, avoid, t).nodes
    {
      var j :| 0 <= j < |g.nodes| && g.nodes[j] == s;
      FilterPlace(g.nodes, keep, j);
    }
  }

  /**
   * The filtered graph adds nothing: each of its edges is an edge of the
   * input between two kept systems, with the same weight, and that weight is
   * a stargate or a wormhole not dropped by the VOC and EOL check boxes.
   */
  lemma FilteredEdgesOrigin(g: Graph<System, Connection>, avoid: seq<System>, t: Toggles)
    ensures Valid(Filtered(g, avoid, t))
    ensures var f := Filtered(g, avoid, t);
      forall e :: e in f.edges ==>
        && (e.weight.Gate? || (!(t.excludeVoc && e.weight.attrs.mass == VOC) && !(t.excludeEol && e.weight.attrs.life == EOL)))
        && exists k :: 0 <= k < |g.edges| && g.edges[k].weight == e.weight
             && g.edges[k].source < |g.nodes| && g.edges[k].target < |g.nodes|
             && f.nodes[e.source] == g.nodes[g.edges[k].source]
             && f.nodes[e.target] == g.nodes[g.edges[k].target]
             && KeepSystem(avoid, t, g.nodes[g.edges[k].source]) && KeepSystem(avoid, t, g.nodes[g.edges[k].target])
  {
    FilterValid(g, SystemFilter(avoid, t), ConnectionFilter(t));
    FilterEdgesOrigin(g.nodes, SystemFilter(avoid, t), ConnectionFilter(t), g.edges);
  }

  /**
   * Edges whose endpoints both survive are kept, renumbered: every stargate,
   * and every wormhole the check boxes do not drop.
   */
  lemma FilteredEdgesComplete(g: Graph<System, Connection>, avoid: seq<System>, t: Toggles, k: nat)
    requires k < |g.edges| && g.edges[k].source < |g.nodes| && g.edges[k].target < |g.nodes|
    requires KeepSystem(avoid, t, g.nodes[g.edges[k].source]) && KeepSystem(avoid, t, g.nodes[g.edges[k].target])
    requires g.edges[k].weight.Gate? || (!(t.excludeVoc && g.edges[k].weight.attrs.mass == VOC) && !(t.excludeEol && g.edges[k].weight.attrs.life == EOL))
    ensures var keep := SystemFilter(avoid, t);
      Edge(KeptIndex(g.nodes, keep, g.edges[k].source), KeptIndex(g.nodes, keep, g.edges[k].target), g.edges[k].weight)
        in Filtered(g, avoid, t).edges
  {
    var keep := SystemFilter(avoid, t);
    var keepEdge := ConnectionFilter(t);
    assert keepEdge(g.edges[k].weight);
    assert EdgeKept(g.nodes, keep, keepEdge, g.edges[k]);
    FilterEdgesComplete(g.nodes, keep, keepEdge, g.edges);
  }

  /** The node predicate that finds a selected system in the graph. */
  function HasId(id: Ints.u32): System -> bool
  {
    (system: System) => system.id == id
  }

  /** The filtered graph and the indices of both endpoints in it. */
  datatype Prepared = Prepared(filtered: Graph<System, Connection>, fromNode: nat, toNode: nat)

  /** Some node of `nodes` is the system with id `id`. */
  predicate Present(nodes: seq<System>, id: Ints.u32)
  {
    exists i :: 0 <= i < |nodes| && nodes[i].id == id
  }

  /**
   * Everything the route derivation does before the search: take the graph
   * (its error first), the from- and then the to-selection, filter the graph,
   * then find the first node of each selected system in it.
   */
  function Prepare(graph: Result<Graph<System, Connection>, ErrorStatus>, from: Option<System>, to: Option<System>,
                   avoid: seq<System>, t: Toggles): (r: Result<Prepared, ErrorStatus>)
    ensures graph.Err? ==> r == Err(graph.error)
    ensures graph.Ok? && from.None? ==> r == Err(InputError("From system not selected"))
    ensures graph.Ok? && from.Some? && to.None? ==> r == Err(InputError("To system not selected"))
    ensures r.Ok? ==> graph.Ok? && from.Some? && to.Some? && r.value.filtered == Filtered(graph.value, avoid, t)
    ensures r.Ok? ==> r.value.fromNode < |r.value.filtered.nodes| && r.value.filtered.nodes[r.value.fromNode].id == from.value.id
    ensures r.Ok? ==> r.value.toNode < |r.value.filtered.nodes| && r.value.filtered.nodes[r.value.toNode].id == to.value.id
    ensures r.Ok? ==> forall i :: 0 <= i < r.value.fromNode ==> r.value.filtered.nodes[i].id != from.value.id
    ensures r.Ok? ==> forall i :: 0 <= i < r.value.toNode ==> r.value.filtered.nodes[i].id != to.value.id
  {
    if graph.Err? then Err(graph.error)
    else if from.None? then Err(InputError("From system not selected"))
    else if to.None? then Err(InputError("To system not selected"))
    else
      Locate(Filtered(graph.value, avoid, t), from.value.id, to.value.id)
  }

  /** The endpoint lookups in the filtered graph `f`: the from-system first, then the to-system. */
  function Locate(f: Graph<System, Connection>, from: Ints.u32, to: Ints.u32): (r: Result<Prepared, ErrorStatus>)
    ensures r.Ok? ==> r.value.filtered == f
    ensures r.Ok? ==> r.value.fromNode < |f.nodes| && f.nodes[r.value.fromNode].id == from
    ensures r.Ok? ==> r.value.toNode < |f.nodes| && f.nodes[r.value.toNode].id == to
    ensures r.Ok? ==> forall i :: 0 <= i < r.value.fromNode ==> f.nodes[i].id != from
    ensures r.Ok? ==> forall i :: 0 <= i < r.value.toNode ==> f.nodes[i].id != to
  {
    match FindNode(f.nodes, HasId(from))
    case None => Err(RoutingError("From system not in graph. It was probably removed by the filtering rules."))
    case Some(s) =>
      match FindNode(f.nodes, HasId(to))
      case None => Err(RoutingError("To system not in graph. It was probably removed by the filtering rules."))
      case Some(d) => Ok(Prepared(f, s, d))
  }

  /** `FindNode` finds a system exactly when one with its id is present. */
  lemma FindPresent(nodes: seq<System>, id: Ints.u32)
    ensures FindNode(nodes, HasId(id)).None? <==> !Present(nodes, id)
  {
    var a := FindNode(nodes, HasId(id));
    if a.Some? { assert nodes[a.value].id == id; }
    if Present(nodes, id) {
      var i :| 0 <= i < |nodes| && nodes[i].id == id;
      assert HasId(id)(nodes[i]);
    }
  }

  /**
   * With a graph and both selections, a from-system that the filters removed
   * is reported before a removed to-system, and when both remain the
   * preparation succeeds.
   */
  lemma PrepareRoutingErrors(g: Graph<System, Connection>, from: System, to: System, avoid: seq<System>, t: Toggles)
    ensures var nodes := Filtered(g, avoid, t).nodes;
      && (!Present(nodes, from.id) ==>
            Prepare(Ok(g), Some(from), Some(to), avoid, t) == Err(RoutingError("From system not in graph. It was probably removed by the filtering rules.")))
      && (Present(nodes, from.id) && !Present(nodes, to.id) ==>
            Prepare(Ok(g), Some(from), Some(to), avoid, t) == Err(RoutingError("To system not in graph. It was probably removed by the filtering rules.")))
      && (Present(nodes, from.id) && Present(nodes, to.id) <==> Prepare(Ok(g), Some(from), Some(to), avoid, t).Ok?)
  {
    var f := Filtered(g, avoid, t);
    assert Prepare(Ok(g), Some(from), Some(to), avoid, t) == Locate(f, from.id, to.id);
    LocateErrors(f, from.id, to.id);
  }

  lemma LocateErrors(f: Graph<System, Connection>, from: Ints.u32, to: Ints.u32)
    ensures !Present(f.nodes, from) ==>
      Locate(f, from, to) == Err(RoutingError("From system not in graph. It was probably removed by the filtering rules."))
    ensures Present(f.nodes, from) && !Present(f.nodes, to) ==>
      Locate(f, from, to) == Err(RoutingError("To system not in graph. It was probably removed by the filtering rules."))
    ensures Present(f.nodes, from) && Present(f.nodes, to) <==> Locate(f, from, to).Ok?
  {
    FindPresent(f.nodes, from);
    FindPresent(f.nodes, to);
  }

  /** A single hop of the rebuilt route: the system reached and the connection taken. */
  type Hop = (System, Connection)

  /** The first `k` hops of the path `p`, rebuilt, stopping at the first pair not joined by exactly one edge. */
  function Hops(g: Graph<System, Connection>, p: seq<nat>, k: nat): Result<seq<Hop>, ErrorStatus>
    requires k < |p| && forall i :: 0 <= i < |p| ==> p[i] < |g.nodes|
  {
    if k == 0 then Ok([])
    else
      match Hops(g, p, k - 1)
      case Err(e) => Err(e)
      case Ok(done) =>
        var c := EdgesConnecting(g, p[k - 1], p[k]);
        if |c| == 1 then Ok(done + [(g.nodes[p[k]], c[0])])
        else Err(CriticalError("Cannot find edge connecting nodes in graph"))
  }

  /** The `tuple_windows` reconstruction of a node path. */
  function Reconstruct(g: Graph<System, Connection>, p: seq<nat>): Result<seq<Hop>, ErrorStatus>
    requires forall i :: 0 <= i < |p| ==> p[i] < |g.nodes|
  {
    if p == [] then Ok([]) else Hops(g, p, |p| - 1)
  }

  /** Nodes `a` and `b` are joined by exactly one edge. */
  ghost predicate JoinedOnce(g: Graph<System, Connection>, a: nat, b: nat)
  {
    exists w :: OnlyEdge(g.edges, a, b, w)
  }

  lemma {:induction false} HopsOutcome(g: Graph<System, Connection>, p: seq<nat>, k: nat)
    requires k < |p| && forall i :: 0 <= i < |p| ==> p[i] < |g.nodes|
    ensures Hops(g, p, k).Ok? <==> forall i :: 0 <= i < k ==> JoinedOnce(g, p[i], p[i + 1])
    ensures Hops(g, p, k).Err? ==> Hops(g, p, k).error == CriticalError("Cannot find edge connecting nodes in graph")
  {
    if k > 0 {
      HopsOutcome(g, p, k - 1);
      EdgesBetweenOne(g.edges, p[k - 1], p[k]);
    }
  }

  lemma {:induction false} HopsContent(g: Graph<System, Connection>, p: seq<nat>, k: nat)
    requires k < |p| && forall i :: 0 <= i < |p| ==> p[i] < |g.nodes|
    ensures Hops(g, p, k).Ok? ==> |Hops(g, p, k).value| == k
    ensures Hops(g, p, k).Ok? ==> forall i :: 0 <= i < k ==>
      Hops(g, p, k).value[i].0 == g.nodes[p[i + 1]] && OnlyEdge(g.edges, p[i], p[i + 1], Hops(g, p, k).value[i].1)
  {
    if k > 0 && Hops(g, p, k).Ok? {
      HopsContent(g, p, k - 1);
      var a, b := p[k - 1], p[k];
      var prev := Hops(g, p, k - 1).value;
      var c := EdgesConnecting(g, a, b);
      EdgesBetweenOne(g.edges, a, b);
      var all := Hops(g, p, k).value;
      assert all == prev + [(g.nodes[b], c[0])];
      forall i | 0 <= i < k
        ensures all[i].0 == g.nodes[p[i + 1]] && OnlyEdge(g.edges, p[i], p[i + 1], all[i].1)
      {
        if i < k - 1 {
          assert all[i] == prev[i];
        }
      }
    }
  }

  /**
   * The first `k` hops are rebuilt exactly when each of the first `k`
   * consecutive pairs is joined by one edge; entry `i` is then the system at
   * path position `i + 1` with that edge.
   */
  lemma HopsSpec(g: Graph<System, Connection>, p: seq<nat>, k: nat)
    requires k < |p| && forall i :: 0 <= i < |p| ==> p[i] < |g.nodes|
    ensures Hops(g, p, k).Ok? <==> forall i :: 0 <= i < k ==> JoinedOnce(g, p[i], p[i + 1])
    ensures Hops(g, p, k).Err? ==> Hops(g, p, k).error == CriticalError("Cannot find edge connecting nodes in graph")
    ensures Hops(g, p, k).Ok? ==> |Hops(g, p, k).value| == k
    ensures Hops(g, p, k).Ok? ==> forall i :: 0 <= i < k ==>
      Hops(g, p, k).value[i].0 == g.nodes[p[i + 1]] && OnlyEdge(g.edges, p[i], p[i + 1], Hops(g, p, k).value[i].1)
  {
    HopsOutcome(g, p, k);
    HopsContent(g, p, k);
  }

  /**
   * The rebuilt route has one entry per hop of the path; entry `i` is the
   * system at path position `i + 1` with the one edge joining positions `i`
   * and `i + 1`. When some consecutive pair is joined by no edge or by
   * several, the result is the Critical reconstruction error.
   */
  lemma ReconstructSpec(g: Graph<System, Connection>, p: seq<nat>)
    requires forall i :: 0 <= i < |p| ==> p[i] < |g.nodes|
    ensures Reconstruct(g, p).Ok? <==> forall i :: 0 <= i < |p| - 1 ==> JoinedOnce(g, p[i], p[i + 1])
    ensures Reconstruct(g, p).Err? ==> Reconstruct(g, p).error == CriticalError("Cannot find edge connecting nodes in graph")
    ensures Reconstruct(g, p).Ok? ==> |Reconstruct(g, p).value| == if p == [] then 0 else |p| - 1
    ensures Reconstruct(g, p).Ok? ==> forall i :: 0 <= i < |p| - 1 ==>
      Reconstruct(g, p).value[i].0 == g.nodes[p[i + 1]] && OnlyEdge(g.edges, p[i], p[i + 1], Reconstruct(g, p).value[i].1)
  {
    if p != [] {
      HopsSpec(g, p, |p| - 1);
    }
  }

  /** There is some path from `s` to `d`. */
  ghost predicate Reachable(g: Graph<System, Connection>, s: nat, d: nat)
  {
    exists p :: IsPath(g, p, s, d)
  }

  /** `p` is a path from `s` to `d` with the fewest hops, through nodes of `g`. */
  ghost predicate MinimalPath(g: Graph<System, Connection>, p: seq<nat>, s: nat, d: nat)
  {
    && IsPath(g, p, s, d)
    && (forall q :: IsPath(g, q, s, d) ==> |p| <= |q|)
    && (forall i :: 0 <= i < |p| ==> p[i] < |g.nodes|)
  }

  /**
   * The route derivation. Errors before the search are those of `Prepare`;
   * an unreachable destination is the Routing "No path" error; otherwise the
   * route is the reconstruction of a minimum-hop path between the endpoints.
   */
  method ComputeRoute(graph: Result<Graph<System, Connection>, ErrorStatus>, from: Option<System>, to: Option<System>,
                      avoid: seq<System>, t: Toggles) returns (r: Result<seq<Hop>, ErrorStatus>)
    ensures Prepare(graph, from, to, avoid, t).Err? ==> r == Err(Prepare(graph, from, to, avoid, t).error)
    ensures Prepare(graph, from, to, avoid, t).Ok? ==> var pr := Prepare(graph, from, to, avoid, t).value;
      (r == Err(RoutingError("No path between the systems")) <==> !Reachable(pr.filtered, pr.fromNode, pr.toNode))
    ensures Prepare(graph, from, to, avoid, t).Ok? ==> var pr := Prepare(graph, from, to, avoid, t).value;
      Reachable(pr.filtered, pr.fromNode, pr.toNode) ==>
        exists p :: MinimalPath(pr.filtered, p, pr.fromNode, pr.toNode) && r == Reconstruct(pr.filtered, p)
  {
    var prepared := Prepare(graph, from, to, avoid, t);
    if prepared.Err? {
      return Err(prepared.error);
    }
    var pr := prepared.value;
    FilterValid(graph.value, SystemFilter(avoid, t), ConnectionFilter(t));
    var path := ShortestPath.Search(pr.filtered, pr.fromNode, pr.toNode);
    if path.None? {
      return Err(RoutingError("No path between the systems"));
    }
    var p := path.value;
    assert IsPath(pr.filtered, p, pr.fromNode, pr.toNode);
    assert MinimalPath(pr.filtered, p, pr.fromNode, pr.toNode);
    ReconstructSpec(pr.filtered, p);
    r := Reconstruct(pr.filtered, p);
  }

  /**
   * A successful route with at least one hop ends at the selected destination
   * system, and its length is the fewest hops any path needs.
   */
  lemma RouteEnds(pr: Prepared, p: seq<nat>, to: System)
    requires MinimalPath(pr.filtered, p, pr.fromNode, pr.toNode)
    requires pr.toNode < |pr.filtered.nodes| && pr.filtered.nodes[pr.toNode].id == to.id
    requires Reconstruct(pr.filtered, p).Ok? && |p| >= 2
    ensures |Reconstruct(pr.filtered, p).value| == |p| - 1 && Reconstruct(pr.filtered, p).value[|p| - 2].0.id == to.id
    ensures forall q :: IsPath(pr.filtered, q, pr.fromNode, pr.toNode) ==> |Reconstruct(pr.filtered, p).value| <= |q| - 1
  {
    ReconstructSpec(pr.filtered, p);
  }
}
