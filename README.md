# Journey planner core, modelled in Dafny

A model of the route-planning core of a journey planner for the EVE Online
star map. The planner joins two sources into one graph:

- the static topology: solar systems and the stargates between them, taken
  from the game's static data export;
- the wormholes that players map in Tripwire, read from its `refresh.php`
  feed.

It then finds the route with the fewest jumps between two chosen systems,
after the user's filters. The model covers:

- the route derivation of `src/main.rs`:
  - the system-name search box;
  - the node and edge filters (avoided systems, lowsec, nullsec, end-of-life
    and verge-of-collapse wormholes);
  - the endpoint lookup, a breadth-first shortest-path search and the
    reconstruction of the route as (system, connection) hops;
  - the order in which Loading, Input, Routing and Critical errors are
    chosen.
- both revisions of graph construction:
  - `src/graph.rs`: one-sided neighbour lists and wormholes become pairs
    of directed edges;
  - `src/data_graph.rs`: already-directed gates and jump-mass lookup.
- both revisions of the Tripwire feed reader:
  - `src/tripwire.rs`, the incremental reader with its as-of marker and
    no-change reply;
  - `src/data_dynamic.rs`, the one-shot reader.
- the static data rules:
  - the `combine.js` reader of `src/data_static.rs`;
  - the wormhole capacity table of `src/attr.rs`;
  - the `Class` byte codes and `System` tuple of
    `tools/eve_sde/src/lib.rs`;
  - the static-data extractor of `tools/eve_sde_cli/src/main.rs`: path
    selection, stargate pairing and the class fallback chain.
- the previous/next navigation and the default search filter of the
  selection box (`src/customselect.rs`);
- the error constructors (`src/error.rs`).

There is one module per source file:

| module | source file |
|---|---|
| `Route` | `src/main.rs` |
| `GraphBuilder` | `src/graph.rs` |
| `DataGraph` | `src/data_graph.rs` |
| `Tripwire` | `src/tripwire.rs` |
| `DataDynamic` | `src/data_dynamic.rs` |
| `DataStatic` | `src/data_static.rs` |
| `Attr` | `src/attr.rs` |
| `EveSde` | `tools/eve_sde/src/lib.rs` |
| `SdeExtractor` | `tools/eve_sde_cli/src/main.rs` |
| `CustomSelect` | `src/customselect.rs` |
| `Errors` | `src/error.rs` |

Rules that the two feed readers share (life, mass, signature and type
normalisation) live in `FeedRules`. Support modules stand for library
behaviour:

- `Wrappers`: Option and Result.
- `Ints`: fixed-width integer ranges.
- `Text`: ASCII case mapping, prefix and substring tests, UTF-8 byte
  length, Rust's unsigned parse and decimal formatting, string order.
- `Json`: a serde_json value. An object is a member list standing for the entries of serde_json's `Map` in its iteration order; `Json.Canonical` states the shape of the default `BTreeMap` (distinct keys, ascending).
- `Seqs`: `filter`, `take` and `filter_map`, the max of the defined
  values, and loops that collect or fail on the first error.
- `Digraph`: petgraph's `Graph` as sequences of nodes and edges, with
  `filter_map`, `edges_connecting` and `find`.
- `ShortestPath`: the BFS that stands for `astar` with unit cost and a zero
  heuristic.

Where the source mutates state in loops (building the graph, reading the
feed, reading `combine.js`, pairing stargates), the model is a method with
a loop. The method is proved equal to a recursive specification function,
and the source's promises are then proved as lemmas about that function.

The snapshot mixes revisions:

- `src/main.rs` calls `get_graph` and `get_tripwire()` with no arguments.
- `src/main.rs` compares classes with `SystemClass::Lowsec`, while the
  crate declares `Class`.

Each file is modelled as written, and the glue between them is not. The
route derivation takes its graph as a `Graph<System, Connection>` of the
`src/graph.rs` revision. Its lowsec and nullsec tests compare the system's
`Class`.

## Model

| member | source | states |
|---|---|---|
| Route.SystemSearchFilter | src/main.rs:37-47 | at most 20 systems, each one of the inputs whose lowercased name starts with the lowercased search |
| Route.SearchFilterOrder | src/main.rs:37-47 | the result is the first matches in input order; when fewer than 20 come back, every matching system is among them |
| Route.GraphInputs | src/main.rs:68-73 | static data not yet loaded is Loading "Loading static data"; a failed load is Critical with its message; then the same for the wormhole data ("Loading wormhole data"); Ok exactly when both have loaded |
| Route.FilteredNodes | src/main.rs:93-97 | a system survives the node filter iff it is in the graph, not avoided, not excluded as lowsec, not excluded as nullsec |
| Route.FilteredEdgesOrigin | src/main.rs:93-104 | the filtered graph is well formed; each of its edges is a gate or a wormhole the VOC/EOL toggles allow, and comes from an input edge with the same payload whose two endpoints were kept |
| Route.FilteredEdgesComplete | src/main.rs:93-104 | an input edge whose endpoints are kept and whose connection passes the toggles is in the filtered graph, renumbered |
| Route.Prepare | src/main.rs:84-112 | a graph error first, then Input "From system not selected", then Input "To system not selected"; on success the filtered graph and the first nodes carrying the chosen ids |
| Route.Locate | src/main.rs:106-112 | a found endpoint is the first node of the filtered graph with the chosen id |
| Route.LocateErrors | src/main.rs:106-112 | a missing from-system is the Routing "From system not in graph" error, checked before the to-system's; success iff both ids are present |
| Route.PrepareRoutingErrors | src/main.rs:93-112 | with a graph and both selections, the routing errors for systems removed by the filters, from-system first; Ok iff both survive the filter |
| Route.HopsOutcome | src/main.rs:123-127 | the first k hops are rebuilt iff each of the first k consecutive path pairs is joined by exactly one edge; otherwise the Critical error |
| Route.HopsContent | src/main.rs:123-127 | rebuilt hops number k; hop i is the node at position i+1 with the only edge from position i to i+1 |
| Route.HopsSpec | src/main.rs:123-127 | the success condition, the Critical error and the contents of the rebuilt hops together |
| Route.ReconstructSpec | src/main.rs:123-127 | the route has one entry per hop (path length - 1); entry i pairs node i+1 with the unique edge joining nodes i and i+1; zero or several edges give "Cannot find edge connecting nodes in graph" |
| Route.ComputeRoute | src/main.rs:83-130 | errors before the search are those of Prepare; an unreachable destination gives Routing "No path between the systems", and nothing else does; otherwise the result is the reconstruction of a minimum-hop path |
| Route.RouteEnds | src/main.rs:115-127 | a rebuilt minimal route ends at the destination and has no more hops than any path has edges |
| ShortestPath.Search | src/main.rs:115-121 | a found path joins source to target, through nodes of the graph, with no more nodes than any other such path; no path is returned only when none exists |
| ShortestPath.Explore | src/main.rs:115-121 | the BFS visits only graph nodes, records each visited node's level and predecessor, and leaves the target unvisited only when it is unreachable |
| ShortestPath.WalkBack | src/main.rs:115-121 | following predecessors from the target gives a path from the source with the fewest nodes |
| ShortestPath.SearchStep | src/main.rs:115-121 | one BFS layer keeps the level and predecessor invariants and grows the visited set by exactly the new layer |
| ShortestPath.Expand | src/main.rs:115-121 | one layer's expansion: the new layer is the unvisited successors of the frontier, each with a predecessor in the frontier |
| ShortestPath.Unreachable | src/main.rs:115-121 | when a layer is empty and the target has not been reached, no path reaches it |
| ShortestPath.Shortest | src/main.rs:115-121 | a target outside the ball of radius len-1 has no path shorter than len nodes |
| ShortestPath.PathInBall | src/main.rs:115-121 | the end of a path of n nodes lies within the ball of radius n |
| Digraph.FilterEdgesOrigin | src/main.rs:93-104 | every filtered edge is renumbered from an input edge that passed both filters, with the same weight |
| Digraph.FilterEdgesComplete | src/main.rs:93-104 | every input edge that passes both filters appears after filtering, renumbered |
| Digraph.FilterValid | src/main.rs:93-104 | filtering keeps edge endpoints within the kept nodes |
| Digraph.EdgesConnectingSpec | src/main.rs:124 | some edge joins a to b iff the connecting list is non-empty; each listed weight is that of an edge from a to b |
| Digraph.EdgesBetweenOne | src/main.rs:124 | `exactly_one` succeeds iff there is a single edge from a to b, and it yields that edge's weight |
| Digraph.FindNode | src/main.rs:106-112 | `find` gives None iff no node matches, and otherwise the first match |
| GraphBuilder.AddNodes | src/graph.rs:32-34 | one node per system, in input order, with the id index built by successive inserts |
| GraphBuilder.NodeIndexKnown | src/graph.rs:32-39 | the index holds exactly the system ids; when every neighbour is a known system, every listed neighbour resolves |
| GraphBuilder.NodeIndexLastWins | src/graph.rs:32-34 | an indexed id maps to the last system with that id |
| GraphBuilder.AddGates | src/graph.rs:38-42 | the inner loop appends a pair of gate edges per listed neighbour |
| GraphBuilder.NeighbourEdgesSpec | src/graph.rs:38-42 | the gate edges of one system are exactly the two directions of each of its neighbour links |
| GraphBuilder.GateEdgesOrigin | src/graph.rs:36-43 | every gate edge is one direction of a listed neighbour link |
| GraphBuilder.GateEdgesComplete | src/graph.rs:36-43 | both directions of every listed neighbour link are gate edges |
| GraphBuilder.AddWormholes | src/graph.rs:45-83 | the wormhole loop appends a forward and a reverse edge for each accepted wormhole, skipping the rest |
| GraphBuilder.WormholePair | src/graph.rs:58-82 | the two wormhole edges join from and to in both directions with the signatures swapped and every other attribute equal; jump mass None |
| GraphBuilder.Reverse | src/graph.rs:58-82 | reversal swaps the endpoints and keeps the connection kind |
| GraphBuilder.ReverseInvolution | src/graph.rs:58-82 | reversing twice returns the original edge |
| GraphBuilder.BuiltWormholes | src/graph.rs:45-83 | the m-th accepted wormhole, one of the feed's leading to a specific known system, contributes its forward edge then its reverse edge at positions base+2m and base+2m+1 |
| GraphBuilder.WormholeEdgesCount | src/graph.rs:45-83 | two edges per accepted wormhole and none for a wormhole to a class or to an unknown system |
| GraphBuilder.GateEdgesCount | src/graph.rs:36-43 | two gate edges per listed neighbour |
| GraphBuilder.BuiltEdgeCount | src/graph.rs:26-86 | edge count = 2 x total neighbours + 2 x accepted wormholes |
| GraphBuilder.BuiltPaired | src/graph.rs:36-83 | the edges come in pairs, each the reverse of the other |
| GraphBuilder.BuiltValid | src/graph.rs:26-86 | the nodes are the systems, every edge joins two nodes, and every wormhole edge has no jump mass |
| GraphBuilder.BuiltGates | src/graph.rs:36-43 | the gate edges are exactly both directions of the listed neighbour links |
| GraphBuilder.GetGraphData | src/graph.rs:26-86 | with every neighbour a known system, the build always succeeds with the graph above |
| DataGraph.NodeIndexSpec | src/data_graph.rs:23-25 | an indexed id maps to the last system with that id |
| DataGraph.NodeIndexKnown | src/data_graph.rs:23-25 | the index holds exactly the static system ids |
| DataGraph.AddNodes | src/data_graph.rs:23-25 | one node per static system, index built by successive inserts |
| DataGraph.JumpMass | src/data_graph.rs:37 | the table value for the wormhole's type, None when it has no type or the type is not in the table |
| DataGraph.ForwardBackward | src/data_graph.rs:42-66 | the two wormhole edges carry swapped signatures and otherwise equal attributes, jump mass from the table |
| DataGraph.AddGates | src/data_graph.rs:27-34 | one edge per gate, or the first "Gate from/to system ... missing" error |
| DataGraph.GateEdgesOutcome | src/data_graph.rs:27-34 | the gates give edges iff both ends of every gate are known systems |
| DataGraph.GateEdgesAt | src/data_graph.rs:27-34 | gate k becomes edge k, from its from-system to its to-system, with no payload |
| DataGraph.GateEdgesShape | src/data_graph.rs:27-34 | gate edge k joins the nodes of gate k's two systems with payload None |
| DataGraph.AddWormholesAsWritten | src/data_graph.rs:36-67 | the wormhole loop as written: two edges per wormhole or the first missing from-system error |
| DataGraph.AsWrittenOutcome | src/data_graph.rs:27-40 | the build as written succeeds iff all gate systems and all wormhole from-systems are known |
| DataGraph.AsWrittenPairs | src/data_graph.rs:39-66 | as written, both edges of wormhole m are loops on its from-system's node |
| DataGraph.AsWrittenShape | src/data_graph.rs:27-67 | as written: nodes are the systems, edge count = gates + 2 x wormholes, each wormhole's two edges a self-loop on its from-system |
| DataGraph.AsWrittenLosesDestination | src/data_graph.rs:39-40 | a concrete two-system build where the wormhole's destination gets no edge |
| DataGraph.AddWormholesCorrected | src/data_graph.rs:36-67 | the corrected loop: the to-index is looked up from the destination system |
| DataGraph.CorrectedOutcome | src/data_graph.rs:27-40 | the corrected build succeeds iff gate systems, from-systems and specific destinations are known |
| DataGraph.PairJoins | src/data_graph.rs:36-66 | each of the corrected pair's edges joins the wormhole's two systems |
| DataGraph.CorrectedJoins | src/data_graph.rs:36-67 | every corrected wormhole edge joins the from-system and the destination of some wormhole |
| DataGraph.CorrectedReaches | src/data_graph.rs:36-67 | every wormhole to a specific system gives an edge from its from-system to that system |
| DataGraph.GetGraphData | src/data_graph.rs:19-70 | the build as written, equal to its specification function |
| DataGraph.GetGraphDataCorrected | src/data_graph.rs:19-70 | the corrected build, equal to its specification function |
| FeedRules.LifeOf | src/tripwire.rs:145-156 | "stable" under 20h is Stable, "stable" from 20h or "critical" is EOL, any other value or none is an error |
| FeedRules.MassOf | src/tripwire.rs:158-164 | "stable", "destab", "critical" give Stable, Destab, VOC; anything else or nothing is an error |
| FeedRules.NormaliseSignature | src/tripwire.rs:136-137 | "???" or a non-string is None; any other signature is uppercased |
| FeedRules.NormaliseType | src/tripwire.rs:139 | "????", "" or a non-string is None; otherwise unchanged |
| FeedRules.GateSignatureAnyCase | src/tripwire.rs:136-173 | any mixed-case "gat" signature becomes "GAT", so the gate rule catches it |
| FeedRules.SystemIdOf | src/tripwire.rs:129-134 | a system id is read only from a string field holding an unsigned literal; any other string gives none |
| FeedRules.SystemIdOfDecimal | src/tripwire.rs:129-134 | the decimal string of any u32 id reads back as that id |
| Tripwire.SystemOrClassFrom | src/tripwire.rs:49-67 | None is Unknown; 0 to 10 are Nullsec, Lowsec, Highsec, Class1-6, Class13, Pochven in order; 11 and up is SpecificSystem with that id |
| Tripwire.SystemOrClassFromInjective | src/tripwire.rs:49-67 | the code can be recovered from the result, so distinct codes give distinct results |
| Tripwire.RefreshEqEquivalence | src/tripwire.rs:76-80 | refresh equality is an equivalence that looks only at count and time and ignores the wormholes |
| Tripwire.RequestMarker | src/tripwire.rs:83-84 | the request sends the previous count and time, or 0 and the minimum time |
| Tripwire.ClassifyRecord | src/tripwire.rs:125-175 | a missing initialID or secondaryID fails the refresh with its message; an unreadable from-system skips the record |
| Tripwire.ClassifyStatus | src/tripwire.rs:141-175 | a bad lifeTime format fails; the record fails iff its lifeTime, life or mass is bad, even when it is too old; once those are good it is kept iff it passes the drop rules (age at most 24h, a signature, no gate); a kept record carries the systems, signatures and classified status |
| Tripwire.DayOldKept | src/tripwire.rs:167 | a record exactly 24h old is kept and one a nanosecond older is dropped |
| Tripwire.KeptRecord | src/tripwire.rs:125-175 | a kept record links the two signatures, has a lifeTime, and is classified by the life, mass and drop rules |
| Tripwire.KeptFacts | src/tripwire.rs:143-173 | a kept record is at most 24h old, has a signature, is no gate, and is EOL from 20h |
| Tripwire.RefreshOutput | src/tripwire.rs:125-178 | every wormhole in a successful refresh passes the age, signature and gate rules |
| Tripwire.NoChangeReply | src/tripwire.rs:106-112 | without a signatures object: an error with no previous result, else no wormholes and the previous marker |
| Tripwire.RefreshMarker | src/tripwire.rs:114-119 | the count is the number of signatures; the time is the largest parseable modifiedTime, or the minimum time when none parses |
| Tripwire.GetTripwire | src/tripwire.rs:82-179 | the refresh loop equals its specification function |
| Tripwire.NormaliseWormholes | src/tripwire.rs:123-176 | the wormhole loop equals its specification function |
| DataDynamic.SystemOrClassFrom | src/data_dynamic.rs:48-66 | the same code mapping with code 10 standing for Trig |
| DataDynamic.ClassifyRecord | src/data_dynamic.rs:89-139 | a missing initialID or secondaryID fails with its message; an unreadable from-system skips the record |
| DataDynamic.ClassifyStatus | src/data_dynamic.rs:105-139 | a bad lifeTime format fails; the record fails iff its lifeTime, life or mass is bad; once those are good it is kept iff it passes the drop rules; a kept record carries the systems, signatures, type, life and mass |
| DataDynamic.DayOldKept | src/data_dynamic.rs:131 | a record exactly 24h old is kept and one a nanosecond older is dropped |
| DataDynamic.KeptFacts | src/data_dynamic.rs:93-139 | a kept record is at most 24h old, has a signature, is no gate, is EOL from 20h, and comes from its from-system |
| DataDynamic.ReadOutcome | src/data_dynamic.rs:87-140 | a missing wormholes object is "Wormholes not present in refresh.php"; otherwise the read succeeds iff no record fails, and a failure is that of some record |
| DataDynamic.ReadOutput | src/data_dynamic.rs:89-142 | the output holds exactly the records the rules keep; every output wormhole is at most 24h old, has a signature, is no gate and is EOL from 20h |
| DataDynamic.GetTripwire | src/data_dynamic.rs:68-143 | the read loop equals its specification function |
| DataStatic.SystemEqEquivalence | src/data_static.rs:13-19 | system equality is an equivalence, true iff the ids are equal |
| DataStatic.CompareSpec | src/data_static.rs:21-31 | comparison looks only at names: equal names are Equal, otherwise the lexicographic order; Less and Greater are converse |
| DataStatic.CompareTransitive | src/data_static.rs:21-31 | the name order is transitive |
| DataStatic.OrderIgnoresId | src/data_static.rs:13-31 | two systems differing only in id compare Equal yet are not equal |
| DataStatic.SystemVerdictSpec | src/data_static.rs:66-86 | a system entry fails iff it describes no system; otherwise it is kept unless its name is blacklisted |
| DataStatic.SystemErrors | src/data_static.rs:67-73 | a non-integer key, a missing name and a missing security give their messages, in that order |
| DataStatic.KeptDescribed | src/data_static.rs:80-85 | a kept system is described by its entry and its name is not blacklisted ("No System Name", 5-byte "V-" and "AD" names) |
| DataStatic.SystemsOutcome | src/data_static.rs:66-86 | the systems loop succeeds iff every entry describes a system |
| DataStatic.SystemsKept | src/data_static.rs:66-86 | the kept systems are exactly those described by some entry and not blacklisted |
| DataStatic.SystemOffset | src/data_static.rs:89-93 | the id offset adds 30000000 |
| DataStatic.EntryGatesSpec | src/data_static.rs:88-96 | a map entry succeeds iff its key and targets parse; it then gives one gate per target |
| DataStatic.GatesOutcome | src/data_static.rs:88-97 | the gate loop succeeds iff every map entry is well formed |
| DataStatic.GatesCount | src/data_static.rs:88-97 | one gate per (from, to) pair |
| DataStatic.GatesOrigin | src/data_static.rs:88-97 | every gate is one listed in the map, with both ids offset |
| DataStatic.JumpTableSpec | src/data_static.rs:99-104 | the table loads iff every jump is present and its millions fit in u32; its keys are the listed types; each value is the last listing's jump / 1000000 |
| DataStatic.WithSizeClassesSpec | src/data_static.rs:106-108 | SML=5, MED=62 and LRG=375 are added, overriding earlier values; other entries are unchanged |
| DataStatic.StaticDataSpec | src/data_static.rs:59-110 | a successful load has all three sections, only described and unblacklisted systems, one gate per map pair and the three size classes |
| DataStatic.MissingSections | src/data_static.rs:62-64 | missing sections are reported as systems, then map, then wormholes |
| DataStatic.ReadSystems | src/data_static.rs:66-86 | the systems loop equals its specification function |
| DataStatic.ReadTargets | src/data_static.rs:92-96 | the inner gate loop equals its specification function |
| DataStatic.ReadGates | src/data_static.rs:88-97 | the gate loop equals its specification function |
| DataStatic.ReadJumpMasses | src/data_static.rs:99-104 | the jump-mass loop equals its specification function |
| DataStatic.GetStaticData | src/data_static.rs:46-111 | the whole read equals its specification function |
| Attr.EntriesAscending | src/attr.rs:6-101 | 96 inserts with strictly ascending keys |
| Attr.EntriesWellFormed | src/attr.rs:6-101 | every inserted key is one upper-case letter and three digits, every value one of the seven capacities |
| Attr.AscendingDistinct | src/attr.rs:6-101 | ascending keys are pairwise distinct |
| Attr.InsertAllKeys | src/attr.rs:4-103 | a key is in the table iff it was inserted |
| Attr.InsertAllLast | src/attr.rs:4-103 | a key maps to the value of its last insert |
| Attr.InsertAllDistinct | src/attr.rs:4-103 | with distinct keys the table has one entry per insert, holding that insert's value |
| Attr.TableContents | src/attr.rs:4-103 | the table has 96 entries, each insert's value under its key |
| Attr.TableWellFormed | src/attr.rs:6-101 | every key is a type code and every value is in {5, 62, 375, 450, 1000, 2000, 62000} |
| Attr.TableSamples | src/attr.rs:4-103 | A009 is 5, J377 is 62000, R081 is 450, and GATE has no entry |
| EveSde.ClassCode | tools/eve_sde/src/lib.rs:5-26 | every class's byte is one of the 18 discriminants |
| EveSde.ClassTryFrom | tools/eve_sde/src/lib.rs:5-26 | `try_from` succeeds exactly on the 18 discriminants and gives back the byte |
| EveSde.ClassRoundTrip | tools/eve_sde/src/lib.rs:5-26 | `try_from(c as u8) == Ok(c)` for every class |
| EveSde.ClassCodesDistinct | tools/eve_sde/src/lib.rs:5-26 | distinct classes have distinct discriminants |
| EveSde.FromTuple | tools/eve_sde/src/lib.rs:28-35 | a tuple record decodes iff its class byte is a discriminant |
| EveSde.TupleRoundTrip | tools/eve_sde/src/lib.rs:28-35 | encoding then decoding gives the system back; decoding then encoding gives the tuple back |
| SdeExtractor.RegionsSpec | tools/eve_sde_cli/src/main.rs:80-90 | the region roots are exactly the directories of `region.staticdata` files outside the five excluded prefixes |
| SdeExtractor.ConstellationsSpec | tools/eve_sde_cli/src/main.rs:92-97 | a region's constellations are exactly the `constellation.staticdata` directories under it |
| SdeExtractor.SystemsSpec | tools/eve_sde_cli/src/main.rs:99-105 | a constellation's systems are exactly the `solarsystem.staticdata` files under it |
| SdeExtractor.ResolveClass | tools/eve_sde_cli/src/main.rs:163-169 | the class is the first present of system, constellation, region and Zarzakh-by-name; "No class for system" iff none; "Unexpected class" for a byte that is no discriminant |
| SdeExtractor.LinkGates | tools/eve_sde_cli/src/main.rs:149-161 | the stargate loop gives the pairing fold's pending map and neighbour list |
| SdeExtractor.FoldConcat | tools/eve_sde_cli/src/main.rs:125-176 | pairing over two runs of stargates is pairing over the first, then over the second |
| SdeExtractor.Ends | tools/eve_sde_cli/src/main.rs:151 | one gate end per stargate of the system |
| SdeExtractor.PairedSymmetric | tools/eve_sde_cli/src/main.rs:149-161 | a complete network (every gate has a partner) is symmetric: distinct gate ids, and a gate a stargate leads to leads back from another system |
| SdeExtractor.StepMatched | tools/eve_sde_cli/src/main.rs:152-159 | in a symmetric network, possibly with unmatched gates: when the partner is pending, the pending invariant holds after its removal and the earlier partner's system is pushed |
| SdeExtractor.StepUnmatched | tools/eve_sde_cli/src/main.rs:152-155 | in a symmetric network: when the partner is not pending, it comes later or not at all, nothing is pushed, and the invariant holds after inserting the gate |
| SdeExtractor.StepKeeps | tools/eve_sde_cli/src/main.rs:152-159 | in a symmetric network one pairing step keeps the pending invariant |
| SdeExtractor.PendingAfter | tools/eve_sde_cli/src/main.rs:149-161 | in a symmetric network, after any prefix of the stargates the pending map holds exactly the gates whose partner is unseen, each mapped to its own system |
| SdeExtractor.PairedPushes | tools/eve_sde_cli/src/main.rs:149-161 | in a symmetric network each link gives one neighbour entry, on the later system only |
| SdeExtractor.LeftoverExactly | tools/eve_sde_cli/src/main.rs:149-180 | in a symmetric network the map left after all stargates holds exactly the gates whose partner never appeared, each mapped to its system |
| SdeExtractor.PairedLeavesNothing | tools/eve_sde_cli/src/main.rs:178-180 | in a paired network nothing is left pending |
| SdeExtractor.ExtractOutcome | tools/eve_sde_cli/src/main.rs:143-169 | extraction succeeds iff every system has a name and a resolvable class |
| SdeExtractor.ExtractPending | tools/eve_sde_cli/src/main.rs:178-180 | the gates reported at the end are those the pairing fold leaves pending |
| SdeExtractor.ExtractSystems | tools/eve_sde_cli/src/main.rs:137-173 | one system per record, with its id, name, security, resolved class and the neighbours pairing gives it |
| SdeExtractor.ExtractPairsAll | tools/eve_sde_cli/src/main.rs:178-180 | in a complete network no gate is reported unmatched |
| SdeExtractor.ExtractLeftover | tools/eve_sde_cli/src/main.rs:178-180 | after a successful loop over a symmetric network, the reported gates are exactly those whose partner never appeared, with their systems |
| SdeExtractor.AllNeighboursEarlier | tools/eve_sde_cli/src/main.rs:149-161 | each neighbour written for a system is the id of a record visited before it |
| SdeExtractor.ExtractOneSided | tools/eve_sde/src/lib.rs:34 | over a symmetric network of distinct systems, no link is listed on both of its sides |
| SdeExtractor.Extract | tools/eve_sde_cli/src/main.rs:122-176 | the nested loop equals its specification function |
| CustomSelect.Position | src/customselect.rs:316 | `position`: None iff absent, otherwise the first occurrence |
| CustomSelect.SelectPreviousSpec | src/customselect.rs:315-325 | None iff the list is empty, else an option from the list; p >= 1 gives option p-1; the top, no selection or an unlisted one gives the last |
| CustomSelect.SelectNextSpec | src/customselect.rs:333-343 | None iff the list is empty, else an option from the list; p+1 < len gives option p+1; the bottom, no selection or an unlisted one gives the first |
| CustomSelect.NextThenPrevious | src/customselect.rs:315-343 | on a list without repeats, down then up returns to the start |
| CustomSelect.PreviousThenNext | src/customselect.rs:315-343 | on a list without repeats, up then down returns to the start |
| CustomSelect.DefaultFilterSpec | src/customselect.rs:51-60 | keeps exactly the options whose lowercased text contains the lowercased search, in input order |
| Errors.LoadingError | src/error.rs:12-14 | category Loading, description kept |
| Errors.InputError | src/error.rs:16-18 | category Input, description kept |
| Errors.RoutingError | src/error.rs:20-22 | category Routing, description kept |
| Errors.CriticalError | src/error.rs:24-26 | category Critical, description kept |
| Text.Lower | src/main.rs:38-43 | same length, each character lowercased |
| Text.Upper | src/tripwire.rs:136 | same length, each character uppercased |
| Text.ContainsIffOccurs | src/customselect.rs:57 | `contains` holds iff the needle occurs at some index |
| Text.Utf8Len | src/data_static.rs:82 | a name's byte length is at least its character count |
| Text.ParseUnsigned | src/data_static.rs:67 | Rust's unsigned parse: an optional '+', then digits, below the type's limit |
| Text.DecimalValue | src/data_static.rs:69 | decimal formatting reads back as the number |
| Text.ParseDecimal | src/data_static.rs:67-69 | parsing a formatted number gives it back when it fits |
| Text.StrLessTransitive | src/data_static.rs:27-31 | the string order is transitive |
| Text.StrLessTotal | src/data_static.rs:27-31 | distinct strings are ordered one way or the other |
| Text.StrLessIrreflexive | src/data_static.rs:27-31 | no string is below itself |
| Json.Lookup | src/tripwire.rs:106-141 | indexing an object finds a member with that key, or Null when there is none |
| Json.CanonicalLookup | src/tripwire.rs:106-141 | in a canonical object (the default `Map`: distinct keys, ascending), indexing by a member's key yields that member's value |
| Json.AsU64 | src/data_static.rs:100 | `as_u64` succeeds exactly on integers in u64 range |
| Ints.WrappingAddU32 | src/data_static.rs:89-93 | addition modulo 2^32 |
| Seqs.Take | src/main.rs:45 | the first n elements, or all of them |
| Seqs.FilterPrefix | src/main.rs:39-46 | filtering a prefix gives a prefix of the filtered sequence |
| Seqs.FilterPlace | src/customselect.rs:53-59 | a satisfying element lands after the satisfying elements before it |
| Seqs.FilterOrigin | src/customselect.rs:53-59 | every filtered element is a satisfying input element, at its place |
| Seqs.MaxDefinedSpec | src/tripwire.rs:114-117 | `filter_map(..).max()` is None iff nothing is defined, else the largest defined value |
| Seqs.FilterMapSpec | tools/eve_sde_cli/src/main.rs:80-105 | `filter_map` keeps exactly the present results |
| Seqs.CollectOutcome | src/tripwire.rs:125-176 | a push-or-skip-or-fail loop succeeds iff no record fails; otherwise it fails with the first failing record's message |
| Seqs.CollectKept | src/tripwire.rs:125-176 | the loop's output holds exactly the kept items |
| Seqs.CollectEvery | src/data_static.rs:92-96 | when no record is skipped, one item per record in order |
| Seqs.CollectManyOutcome | src/data_static.rs:88-97 | a nested push loop succeeds iff every record does, else fails with the first error |
| Seqs.CollectManyUniform | src/data_graph.rs:36-67 | when every record gives m items, record i's items stand at positions m*i to m*i+m-1 |
| Seqs.CollectManyOrigin | src/data_static.rs:88-97 | every collected item comes from some record |
| Seqs.CollectManyKeeps | src/data_static.rs:88-97 | every record's items are collected |

## Left out

- HTTP, browser and file I/O are not modelled: `get_sde`, the reqwest and web_sys exchanges, the form encoding of the Tripwire request, zip archive reading and output writing in the extractor. Readers take the decoded JSON value, or the extractor's file list and parsed records.
- JSON and YAML byte parsing is not modelled. YAML records are given already parsed.
- Json: a JSON object is a member list standing for serde_json's `Map` in its iteration order. With default features that is a `BTreeMap`: keys ascending, one entry per key, the last duplicate in the text winning. The readers accept any member list; `Json.Canonical` names the shape a parsed reply has, and `Json.CanonicalLookup` shows that indexing then agrees with the map. On a non-canonical list, the "first failing record" of the reader loops and the signature count of `src/tripwire.rs:119` follow the list, which has no counterpart in the source.
- The clock and date strings are parameters. `now` is an integer time, and `parseTime` stands for the date parser.
- Floating point is not modelled. Security parsing in `src/data_static.rs` is a given `parseF32`. The extractor's `(security * 10.0).round() as i8` is taken as the record's `i8`.
- The default `search_text_provider` (the `{:?}` debug rendering) and the `{:?}` rendering of a gate-map value in an error message are given functions.
- Text.Lower and Text.Upper map ASCII letters only. Unicode case mapping is not modelled.
- The avoid list is compared by system id (`Route.Avoided`). The `System` type of `tools/eve_sde/src/lib.rs` derives no equality, and id is its identity everywhere else.
- The extractor's three nested loops are flattened into one sequence of per-system records. Each record carries its system's, constellation's and region's class bytes. The extractor panics, and the model returns an error.
- The extractor visits a system's stargates in the order given. HashMap iteration order is not modelled.
- EveSde.NeighboursOneSided, the "neighbours are not repeated on both sides" comment, is proved of the extractor's output (`SdeExtractor.ExtractOneSided`) only for symmetric networks of distinct system ids. A network where a gate's destination leads elsewhere is not covered.
- A path that equals a directory itself (the directory and not a file in it) is treated as not matching the file-name tests.
- `astar` with unit cost and a zero heuristic is modelled as breadth-first search. Any path with the fewest hops is accepted; which one petgraph would pick is not modelled.
- ShortestPath.Search: the predecessor map and visited set are Dafny maps and sets, not petgraph's binary heap.
- DataStatic.SystemOffset: its contract states only the case where `30000000 + id` fits in u32; the body wraps, as `Ints.WrappingAddU32` does.
- Ints.WrappingAddU32 models the release-build wrap-around of `30000000 + id`. A debug build would panic instead.
- The `create_memo` and `Signal` glue of `src/main.rs` is not modelled, nor the sort of the system list for display. The snapshot's `get_graph` and `get_tripwire()` calls do not match the functions present.
- The Leptos view code, the select component's event handling and focus effects, `src/signals.rs` (timer refresh), `src/nevereq.rs` and the commented-out `src/eve_scout.rs` are not modelled.

## Findings

| source | as written | input that shows it | evidently intended | confidence | as-written member | corrected member |
|---|---|---|---|---|---|---|
| src/data_graph.rs:40 | `to_index` is looked up from `wormhole.from_system`, so both wormhole edges are loops on the from-system | systems 31000001 and 31000002, one wormhole from 31000001 to `SpecificSystem(31000002)`: both edges join node 0 to itself and node 1 gets none | look up `to_index` from the destination system, as `src/graph.rs:48-53` does | not executed | DataGraph.AsWrittenShape, DataGraph.AsWrittenLosesDestination | DataGraph.CorrectedJoins, DataGraph.CorrectedReaches |
