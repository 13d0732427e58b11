/**
 * The route search of src/main.rs:115-121: `astar` with unit edge cost and a
 * zero heuristic is a minimum-hop search. It is modelled as a breadth-first
 * search that expands one distance layer at a time, keeping a visited set, the
 * current layer and a predecessor map, and then walks the predecessors back
 * from the destination.
 */
module ShortestPath {
  import opened Wrappers
  import opened Digraph

  /** The targets of the edges among the first `j` that leave a node of `s`. */
  ghost function SuccessorsUpTo<N, E>(g: Graph<N, E>, s: set<nat>, j: nat): set<nat>
    requires j <= |g.edges|
  {
    if j == 0 then {}
    else SuccessorsUpTo(g, s, j - 1) + if g.edges[j - 1].source in s then {g.edges[j - 1].target} else {}
  }

  /** The targets of all edges that leave a node of `s`. */
  ghost function Successors<N, E>(g: Graph<N, E>, s: set<nat>): set<nat>
  {
    SuccessorsUpTo(g, s, |g.edges|)
  }

  /** The nodes that a walk of at most `n` nodes from `source` can reach. */
  ghost function Ball<N, E>(g: Graph<N, E>, source: nat, n: nat): set<nat>
  {
    if n == 0 then {} else {source} + Successors(g, Ball(g, source, n - 1))
  }

  /** A set of node indices of a graph with `n` nodes has at most `n` elements. */
  lemma {:induction false} IndexSetSize(s: set<nat>, n: nat)
    requires forall v :: v in s ==> v < n
    ensures |s| <= n
  {
    if n > 0 {
      IndexSetSize(s - {n - 1}, n - 1);
    }
  }

  /** A successor is the target of an edge leaving the set, and every such target is a successor. */
  lemma {:induction false} SuccessorsUpToSpec<N, E>(g: Graph<N, E>, s: set<nat>, j: nat)
    requires j <= |g.edges|
    ensures forall v :: v in SuccessorsUpTo(g, s, j) <==>
      exists k :: 0 <= k < j && g.edges[k].source in s && g.edges[k].target == v
  {
    if j > 0 {
      SuccessorsUpToSpec(g, s, j - 1);
    }
  }

  lemma SuccessorsUnion<N, E>(g: Graph<N, E>, a: set<nat>, b: set<nat>)
    ensures Successors(g, a + b) == Successors(g, a) + Successors(g, b)
  {
    SuccessorsUpToSpec(g, a + b, |g.edges|);
    SuccessorsUpToSpec(g, a, |g.edges|);
    SuccessorsUpToSpec(g, b, |g.edges|);
  }

  lemma SuccessorsMonotone<N, E>(g: Graph<N, E>, a: set<nat>, b: set<nat>)
    requires a <= b
    ensures Successors(g, a) <= Successors(g, b)
  {
    SuccessorsUpToSpec(g, a, |g.edges|);
    SuccessorsUpToSpec(g, b, |g.edges|);
  }

  /** A longer walk reaches at least as far. */
  lemma {:induction false} BallGrows<N, E>(g: Graph<N, E>, source: nat, n: nat)
    ensures Ball(g, source, n) <= Ball(g, source, n + 1)
  {
    if n > 0 {
      BallGrows(g, source, n - 1);
      SuccessorsMonotone(g, Ball(g, source, n - 1), Ball(g, source, n));
    }
  }

  lemma {:induction false} BallMonotone<N, E>(g: Graph<N, E>, source: nat, m: nat, n: nat)
    requires m <= n
    ensures Ball(g, source, m) <= Ball(g, source, n)
    decreases n - m
  {
    if m < n {
      BallGrows(g, source, m);
      BallMonotone(g, source, m + 1, n);
    }
  }

  /** The next layer only needs the successors of the newest layer. */
  lemma BallStep<N, E>(g: Graph<N, E>, source: nat, n: nat)
    ensures Ball(g, source, n + 2) == Ball(g, source, n + 1) + Successors(g, Ball(g, source, n + 1) - Ball(g, source, n))
  {
    var inner, outer := Ball(g, source, n), Ball(g, source, n + 1);
    BallGrows(g, source, n);
    assert outer == inner + (outer - inner);
    SuccessorsUnion(g, inner, outer - inner);
  }

  /** Once a layer adds nothing, no longer walk reaches further. */
  lemma {:induction false} BallStable<N, E>(g: Graph<N, E>, source: nat, n: nat, m: nat)
    requires n >= 1 && Ball(g, source, n + 1) == Ball(g, source, n)
    requires n <= m
    ensures Ball(g, source, m) == Ball(g, source, n)
    decreases m - n
  {
    if n < m {
      BallStable(g, source, n, m - 1);
      assert Ball(g, source, m) == {source} + Successors(g, Ball(g, source, m - 1));
    }
  }

  /** The end of a walk of `|p|` nodes is in the ball of that size. */
  lemma {:induction false} PathInBall<N, E>(g: Graph<N, E>, p: seq<nat>, source: nat, v: nat)
    requires IsPath(g, p, source, v)
    ensures v in Ball(g, source, |p|)
  {
    if |p| > 1 {
      var q := p[..|p| - 1];
      var u := q[|q| - 1];
      forall i | 0 <= i < |q| - 1
        ensures Adjacent(g, q[i], q[i + 1])
      {
        assert q[i] == p[i] && q[i + 1] == p[i + 1];
      }
      PathInBall(g, q, source, u);
      assert Adjacent(g, p[|p| - 2], p[|p| - 1]);
      SuccessorsUpToSpec(g, Ball(g, source, |q|), |g.edges|);
    }
  }

  /** Every visited node carries a level: no walk with fewer nodes reaches it. */
  ghost predicate Levels<N, E>(g: Graph<N, E>, source: nat, visited: set<nat>, level: map<nat, nat>, n: nat)
  {
    forall v :: v in visited ==> v in level && 1 <= level[v] <= n && v !in Ball(g, source, level[v] - 1)
  }

  /** Every visited node but the source was reached along an edge from a visited node one level lower. */
  ghost predicate Preds<N, E>(g: Graph<N, E>, source: nat, visited: set<nat>, pred: map<nat, nat>, level: map<nat, nat>)
  {
    forall v :: v in visited && v != source ==>
      && v in pred && pred[v] in visited && v in level && pred[v] in level
      && level[pred[v]] + 1 == level[v] && Adjacent(g, pred[v], v)
  }

  /** What one layer's scan produces: the unseen successors of the layer, with a predecessor and a level each. */
  ghost predicate Expanded<N, E>(g: Graph<N, E>, frontier: set<nat>, visited: set<nat>, next: set<nat>,
                                 pred: map<nat, nat>, level: map<nat, nat>, pred': map<nat, nat>, level': map<nat, nat>, n: nat)
  {
    && next == Successors(g, frontier) - visited
    && (forall v :: v in next ==> v < |g.nodes|)
    && (forall v :: v in next ==>
          && v in pred' && pred'[v] in frontier && Adjacent(g, pred'[v], v)
          && v in level' && level'[v] == n + 1)
    && (forall v :: v !in next ==> (v in pred' <==> v in pred) && (v in pred ==> pred'[v] == pred[v]))
    && (forall v :: v !in next ==> (v in level' <==> v in level) && (v in level ==> level'[v] == level[v]))
  }

  /**
   * One layer: scan the edges for those leaving the current layer and record,
   * for each target not yet seen, the node it was first reached from.
   */
  method Expand<N, E>(g: Graph<N, E>, frontier: set<nat>, visited: set<nat>, pred: map<nat, nat>, ghost level: map<nat, nat>, ghost n: nat)
    returns (next: set<nat>, pred': map<nat, nat>, ghost level': map<nat, nat>)
    requires Valid(g)
    ensures Expanded(g, frontier, visited, next, pred, level, pred', level', n)
  {
    next, pred', level' := {}, pred, level;
    var j := 0;
    while j < |g.edges|
      invariant 0 <= j <= |g.edges|
      invariant next == SuccessorsUpTo(g, frontier, j) - visited
      invariant forall v :: v in next ==> v < |g.nodes|
      invariant forall v :: v in next ==>
        && v in pred' && pred'[v] in frontier && Adjacent(g, pred'[v], v)
        && v in level' && level'[v] == n + 1
      invariant forall v :: v !in next ==> (v in pred' <==> v in pred) && (v in pred ==> pred'[v] == pred[v])
      invariant forall v :: v !in next ==> (v in level' <==> v in level) && (v in level ==> level'[v] == level[v])
    {
      var e := g.edges[j];
      if e.source in frontier && e.target !in visited && e.target !in next {
        next := next + {e.target};
        pred' := pred'[e.target := e.source];
        level' := level'[e.target := n + 1];
      }
      j := j + 1;
    }
  }

  /** The new layer is what the next ball adds. */
  lemma BallNext<N, E>(g: Graph<N, E>, source: nat, visited: set<nat>, frontier: set<nat>, next: set<nat>, n: nat)
    requires n >= 1
    requires visited == Ball(g, source, n) && frontier == Ball(g, source, n) - Ball(g, source, n - 1)
    requires next == Successors(g, frontier) - visited
    ensures visited + next == Ball(g, source, n + 1)
    ensures next == Ball(g, source, n + 1) - Ball(g, source, n)
  {
    BallStep(g, source, n - 1);
  }

  /** A node already visited keeps its level, and so its level facts. */
  lemma LevelCarried<N, E>(g: Graph<N, E>, source: nat, visited: set<nat>, level: map<nat, nat>, level': map<nat, nat>, n: nat, v: nat)
    requires Levels(g, source, visited, level, n) && v in visited
    requires v in level' && v in level && level'[v] == level[v]
    ensures 1 <= level'[v] <= n + 1 && v !in Ball(g, source, level'[v] - 1)
  {
  }

  /** The new layer's nodes get level `n + 1`; the older levels are unchanged. */
  lemma LevelsStep<N, E>(g: Graph<N, E>, source: nat, visited: set<nat>, next: set<nat>,
                         level: map<nat, nat>, level': map<nat, nat>, n: nat)
    requires Levels(g, source, visited, level, n)
    requires forall v :: v in next ==> v !in Ball(g, source, n)
    requires forall v :: v in next ==> v in level' && level'[v] == n + 1
    requires forall v :: v !in next ==> (v in level' <==> v in level) && (v in level ==> level'[v] == level[v])
    ensures Levels(g, source, visited + next, level', n + 1)
  {
    forall v | v in visited + next
      ensures v in level' && 1 <= level'[v] <= n + 1 && v !in Ball(g, source, level'[v] - 1)
    {
      if v in next {
        LevelNew(g, source, level', n, v);
      } else {
        LevelCarried(g, source, visited, level, level', n, v);
      }
    }
  }

  lemma LevelNew<N, E>(g: Graph<N, E>, source: nat, level': map<nat, nat>, n: nat, v: nat)
    requires v !in Ball(g, source, n) && v in level' && level'[v] == n + 1
    ensures 1 <= level'[v] <= n + 1 && v !in Ball(g, source, level'[v] - 1)
  {
  }

  /** The new layer's predecessors are in the layer before it. */
  lemma PredsStep<N, E>(g: Graph<N, E>, source: nat, visited: set<nat>, frontier: set<nat>, next: set<nat>,
                        pred: map<nat, nat>, level: map<nat, nat>, pred': map<nat, nat>, level': map<nat, nat>, n: nat)
    requires Preds(g, source, visited, pred, level)
    requires source in visited && frontier <= visited && next !! visited
    requires forall v :: v in visited ==> v in level
    requires forall v :: v in frontier ==> level[v] == n
    requires forall v :: v in next ==>
      && v in pred' && pred'[v] in frontier && Adjacent(g, pred'[v], v)
      && v in level' && level'[v] == n + 1
    requires forall v :: v !in next ==> (v in pred' <==> v in pred) && (v in pred ==> pred'[v] == pred[v])
    requires forall v :: v !in next ==> (v in level' <==> v in level) && (v in level ==> level'[v] == level[v])
    ensures Preds(g, source, visited + next, pred', level')
  {
    forall v | v in visited + next && v != source
      ensures v in pred' && pred'[v] in visited + next && v in level' && pred'[v] in level'
      ensures level'[pred'[v]] + 1 == level'[v] && Adjacent(g, pred'[v], v)
    {
      if v in next {
        var u := pred'[v];
        assert u in visited && u !in next;
        assert level'[u] == level[u];
      } else {
        var u := pred[v];
        assert u in visited && u !in next;
        assert pred'[v] == u && level'[u] == level[u] && level'[v] == level[v];
      }
    }
  }

  /** When a layer comes out empty before the target is seen, no path reaches it. */
  lemma Unreachable<N, E>(g: Graph<N, E>, source: nat, target: nat, n: nat)
    requires n >= 1
    requires Ball(g, source, n) - Ball(g, source, n - 1) == {}
    requires target !in Ball(g, source, n)
    ensures forall p :: !IsPath(g, p, source, target)
  {
    BallStep(g, source, n - 1);
    SuccessorsUpToSpec(g, {}, |g.edges|);
    assert Ball(g, source, n + 1) == Ball(g, source, n);
    forall p | IsPath(g, p, source, target)
      ensures false
    {
      PathInBall(g, p, source, target);
      if |p| <= n {
        BallMonotone(g, source, |p|, n);
      } else {
        BallStable(g, source, n, |p|);
      }
    }
  }

  /** A path with as many nodes as the target's level is as short as any. */
  lemma Shortest<N, E>(g: Graph<N, E>, source: nat, target: nat, len: nat)
    requires len >= 1 && target !in Ball(g, source, len - 1)
    ensures forall q :: IsPath(g, q, source, target) ==> len <= |q|
  {
    forall q | IsPath(g, q, source, target)
      ensures len <= |q|
    {
      PathInBall(g, q, source, target);
      if |q| < len {
        BallMonotone(g, source, |q|, len - 1);
      }
    }
  }

  /** The loop invariant of the search after `n` layers. */
  ghost predicate Searching<N, E>(g: Graph<N, E>, source: nat, visited: set<nat>, frontier: set<nat>,
                                  pred: map<nat, nat>, level: map<nat, nat>, n: nat)
  {
    && 1 <= n
    && visited == Ball(g, source, n)
    && frontier == Ball(g, source, n) - Ball(g, source, n - 1)
    && (forall v :: v in visited ==> v < |g.nodes|)
    && source in visited
    && Levels(g, source, visited, level, n)
    && Preds(g, source, visited, pred, level)
    && (forall v :: v in frontier ==> v in level && level[v] == n)
  }

  /** Adding a scanned layer keeps the invariant, and the visited set grows by exactly the layer. */
  lemma SearchStep<N, E>(g: Graph<N, E>, source: nat, visited: set<nat>, frontier: set<nat>, next: set<nat>,
                         pred: map<nat, nat>, level: map<nat, nat>, pred': map<nat, nat>, level': map<nat, nat>, n: nat)
    requires Searching(g, source, visited, frontier, pred, level, n)
    requires Expanded(g, frontier, visited, next, pred, level, pred', level', n)
    ensures Searching(g, source, visited + next, next, pred', level', n + 1)
    ensures |visited + next| == |visited| + |next| <= |g.nodes|
  {
    BallNext(g, source, visited, frontier, next, n);
    LevelsStep(g, source, visited, next, level, level', n);
    PredsStep(g, source, visited, frontier, next, pred, level, pred', level', n);
    IndexSetSize(visited + next, |g.nodes|);
    assert |visited + next| == |visited| + |next|;
  }

  /**
   * The search proper: visit layer after layer until the target is seen or a
   * layer comes out empty, recording levels and predecessors.
   */
  method Explore<N, E>(g: Graph<N, E>, source: nat, target: nat)
    returns (visited: set<nat>, pred: map<nat, nat>, ghost level: map<nat, nat>, ghost n: nat)
    requires Valid(g) && source < |g.nodes|
    ensures source in visited && forall v :: v in visited ==> v < |g.nodes|
    ensures Levels(g, source, visited, level, n)
    ensures Preds(g, source, visited, pred, level)
    ensures target !in visited ==> forall p :: !IsPath(g, p, source, target)
  {
    visited := {source};
    var frontier: set<nat> := {source};
    pred := map[];
    level := map[source := 1];
    n := 1;
    SuccessorsUpToSpec(g, {}, |g.edges|);
    assert Ball(g, source, 1) == {source} + Successors(g, {});
    while frontier != {} && target !in visited
      invariant Searching(g, source, visited, frontier, pred, level, n)
      invariant |visited| <= |g.nodes|
      decreases |g.nodes| - |visited|, |frontier|
    {
      var next, pred', level' := Expand(g, frontier, visited, pred, level, n);
      SearchStep(g, source, visited, frontier, next, pred, level, pred', level', n);
      visited, frontier, pred, level, n := visited + next, next, pred', level', n + 1;
    }
    if target !in visited {
      Unreachable(g, source, target, n);
    }
  }

  /** Follow the predecessors back from a visited target to the source. */
  method WalkBack<N, E>(g: Graph<N, E>, source: nat, target: nat, visited: set<nat>, pred: map<nat, nat>, ghost level: map<nat, nat>, ghost n: nat)
    returns (p: seq<nat>)
    requires source in visited && target in visited
    requires Levels(g, source, visited, level, n)
    requires Preds(g, source, visited, pred, level)
    ensures IsPath(g, p, source, target)
    ensures forall q :: IsPath(g, q, source, target) ==> |p| <= |q|
    ensures forall i :: 0 <= i < |p| ==> p[i] in visited
  {
    var cur := target;
    p := [target];
    while cur != source
      invariant cur in visited
      invariant |p| >= 1 && p[0] == cur && p[|p| - 1] == target
      invariant forall i :: 0 <= i < |p| ==> p[i] in visited
      invariant forall i :: 0 <= i < |p| - 1 ==> Adjacent(g, p[i], p[i + 1])
      invariant |p| + level[cur] == level[target] + 1
      decreases level[cur]
    {
      var u := pred[cur];
      p := [u] + p;
      cur := u;
    }
    assert level[source] == 1;
    Shortest(g, source, target, |p|);
  }

  /**
   * A minimum-hop path from `source` to `target`, or None when there is no
   * path at all.
   */
  method Search<N, E>(g: Graph<N, E>, source: nat, target: nat) returns (path: Option<seq<nat>>)
    requires Valid(g) && source < |g.nodes| && target < |g.nodes|
    ensures path.Some? ==> IsPath(g, path.value, source, target)
    ensures path.Some? ==> forall p :: IsPath(g, p, source, target) ==> |path.value| <= |p|
    ensures path.Some? ==> forall i :: 0 <= i < |path.value| ==> path.value[i] < |g.nodes|
    ensures path.None? ==> forall p :: !IsPath(g, p, source, target)
  {
    var visited, pred, level, n := Explore(g, source, target);
    if target !in visited {
      return None;
    }
    var p := WalkBack(g, source, target, visited, pred, level, n);
    path := Some(p);
  }
}
