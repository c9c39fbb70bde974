/**
 * Undirected, depth-bounded expansion of a node set, the induced subgraph, and the weakly
 * connected components that `get_statistics` reports.
 */
module KgReach {
  import opened KgGraph

  /** `y` is joined to `x` by an edge in either direction. */
  predicate Adjacent<N(==,!new)>(g: Graph<N>, x: N, y: N) {
    (x, y) in g.edges || (y, x) in g.edges
  }

  /**
   * One round of `get_subgraph_by_entities`: every edge with one end in `s` adds its other end.
   * All edges are tested against the set as it was before the round.
   */
  function Expand<N(==,!new)>(es: seq<Edge<N>>, s: set<N>): set<N> {
    s + Across(es, s)
  }

  /** The far ends of the edges in `es` that have one end in `s`, edge by edge. */
  function Across<N(==,!new)>(es: seq<Edge<N>>, s: set<N>): set<N> {
    if es == [] then {} else Across(es[..|es| - 1], s) + FarEnds(es[|es| - 1], s)
  }

  function FarEnds<N(==,!new)>(e: Edge<N>, s: set<N>): set<N> {
    (if e.0 in s then {e.1} else {}) + (if e.1 in s then {e.0} else {})
  }

  /** A node is a far end exactly when some edge joins it to a member of `s`. */
  lemma {:induction false} AcrossMembers<N(!new)>(es: seq<Edge<N>>, s: set<N>, y: N)
    ensures y in Across(es, s) <==> exists x :: x in s && ((x, y) in es || (y, x) in es)
  {
    if es != [] {
      var init, last := es[..|es| - 1], es[|es| - 1];
      assert es == init + [last];
      AcrossMembers(init, s, y);
      if y in FarEnds(last, s) {
        var x := if last.0 in s && last.1 == y then last.0 else last.1;
        assert x in s && ((x, y) == last || (y, x) == last);
      }
      if exists x :: x in s && ((x, y) in es || (y, x) in es) {
        var x :| x in s && ((x, y) in es || (y, x) in es);
        if (x, y) !in init && (y, x) !in init {
          assert y in FarEnds(last, s);
        }
      }
    }
  }

  lemma {:induction false} AcrossMono<N(!new)>(es: seq<Edge<N>>, a: set<N>, b: set<N>)
    requires a <= b
    ensures Across(es, a) <= Across(es, b)
  {
    if es != [] {
      AcrossMono(es[..|es| - 1], a, b);
    }
  }

  /** `max_depth` rounds from `s`; a non-positive depth does no rounds. */
  function Reach<N(==,!new)>(g: Graph<N>, s: set<N>, depth: int): set<N>
    decreases depth
  {
    if depth <= 0 then s else Expand(g.edges, Reach(g, s, depth - 1))
  }

  /** A round adds exactly the nodes adjacent to the set. */
  lemma ExpandMembers<N(!new)>(g: Graph<N>, s: set<N>, y: N)
    ensures y in Expand(g.edges, s) <==> y in s || exists x :: x in s && Adjacent(g, x, y)
  {
    AcrossMembers(g.edges, s, y);
  }

  lemma ExpandMono<N(!new)>(es: seq<Edge<N>>, a: set<N>, b: set<N>)
    requires a <= b
    ensures Expand(es, a) <= Expand(es, b)
  {
    AcrossMono(es, a, b);
  }

  /** The seeds are always kept. */
  lemma {:induction false} ReachSeeds<N(!new)>(g: Graph<N>, s: set<N>, depth: int)
    ensures s <= Reach(g, s, depth)
    decreases depth
  {
    if depth > 0 {
      ReachSeeds(g, s, depth - 1);
    }
  }

  /** More rounds never lose a node. */
  lemma {:induction false} ReachGrows<N(!new)>(g: Graph<N>, s: set<N>, d: int, d': int)
    requires d <= d'
    ensures Reach(g, s, d) <= Reach(g, s, d')
    decreases d' - d
  {
    if d < d' {
      ReachGrows(g, s, d, d' - 1);
      if d' > 0 {
        assert Reach(g, s, d' - 1) <= Expand(g.edges, Reach(g, s, d' - 1));
      }
    }
  }

  /** A bigger seed set reaches at least as much. */
  lemma {:induction false} ReachMono<N(!new)>(g: Graph<N>, a: set<N>, b: set<N>, d: int)
    requires a <= b
    ensures Reach(g, a, d) <= Reach(g, b, d)
    decreases d
  {
    if d > 0 {
      ReachMono(g, a, b, d - 1);
      ExpandMono(g.edges, Reach(g, a, d - 1), Reach(g, b, d - 1));
    }
  }

  /** Expanding first and then doing `d` rounds is doing `d + 1` rounds. */
  lemma {:induction false} ReachShift<N(!new)>(g: Graph<N>, s: set<N>, d: nat)
    ensures Reach(g, s, d + 1) == Reach(g, Expand(g.edges, s), d)
  {
    if d > 0 {
      ReachShift(g, s, d - 1);
      assert Reach(g, s, d + 1) == Expand(g.edges, Reach(g, s, d));
      assert Reach(g, Expand(g.edges, s), d) == Expand(g.edges, Reach(g, Expand(g.edges, s), d - 1));
    } else {
      assert Reach(g, s, 1) == Expand(g.edges, Reach(g, s, 0));
    }
  }

  /** A node reached from a set is reached from one of its members. */
  lemma {:induction false} ReachFromOne<N(!new)>(g: Graph<N>, s: set<N>, d: nat, y: N)
    requires y in Reach(g, s, d)
    ensures exists x :: x in s && y in Reach(g, {x}, d)
  {
    if d > 0 {
      var prev := Reach(g, s, d - 1);
      ExpandMembers(g, prev, y);
      var z: N;
      if y in prev {
        z := y;
      } else {
        z :| z in prev && Adjacent(g, z, y);
      }
      ReachFromOne(g, s, d - 1, z);
      var x :| x in s && z in Reach(g, {x}, d - 1);
      ExpandMembers(g, Reach(g, {x}, d - 1), y);
    }
  }

  /** Depth-bounded reachability is symmetric: edges are followed in both directions. */
  lemma {:induction false} ReachSymmetric<N(!new)>(g: Graph<N>, x: N, y: N, d: nat)
    requires y in Reach(g, {x}, d)
    ensures x in Reach(g, {y}, d)
  {
    if d > 0 {
      ReachShift(g, {x}, d - 1);
      ReachFromOne(g, Expand(g.edges, {x}), d - 1, y);
      var z :| z in Expand(g.edges, {x}) && y in Reach(g, {z}, d - 1);
      ReachSymmetric(g, z, y, d - 1);
      ExpandBack(g, x, z, Reach(g, {y}, d - 1));
    }
  }

  /** If `z` is `x` or a neighbour of it, a set holding `z` expands to one holding `x`. */
  lemma ExpandBack<N(!new)>(g: Graph<N>, x: N, z: N, back: set<N>)
    requires z in Expand(g.edges, {x}) && z in back
    ensures x in Expand(g.edges, back)
  {
    ExpandMembers(g, {x}, z);
    ExpandMembers(g, back, x);
    if z != x {
      assert Adjacent(g, z, x);
    }
  }

  /** The nodes of the graph, as a set. */
  function NodeSet<N(==,!new)>(g: Graph<N>): set<N> {
    set x | x in g.nodes
  }

  /**
   * Seeds that are not nodes never gain neighbours: the result is what the seeds in the graph
   * reach, plus the absent seeds themselves (which the induced subgraph then drops).
   */
  lemma {:induction false} ReachAbsentSeeds<N(!new)>(g: Graph<N>, s: set<N>, d: int)
    requires WellFormed(g)
    ensures Reach(g, s, d) == Reach(g, s * NodeSet(g), d) + (s - NodeSet(g))
    decreases d
  {
    if d > 0 {
      var inside, absent := Reach(g, s * NodeSet(g), d - 1), s - NodeSet(g);
      ReachAbsentSeeds(g, s, d - 1);
      assert Reach(g, s, d) == Expand(g.edges, inside + absent);
      ExpandAbsent(g, inside, absent);
      assert Reach(g, s * NodeSet(g), d) == Expand(g.edges, inside);
    }
  }

  /** One round from seeds some of which are not nodes: those seeds are carried along unchanged. */
  lemma ExpandAbsent<N(!new)>(g: Graph<N>, inside: set<N>, absent: set<N>)
    requires WellFormed(g) && absent !! NodeSet(g)
    ensures Expand(g.edges, inside + absent) == Expand(g.edges, inside) + absent
  {
    var lhs := Expand(g.edges, inside + absent);
    var rhs := Expand(g.edges, inside) + absent;
    forall y | y in lhs
      ensures y in rhs
    {
      AbsentGainsNothing(g, inside, absent, y);
    }
    ExpandMono(g.edges, inside, inside + absent);
    assert lhs == rhs;
  }

  lemma AbsentGainsNothing<N(!new)>(g: Graph<N>, inside: set<N>, absent: set<N>, y: N)
    requires WellFormed(g) && absent !! NodeSet(g)
    requires y in Expand(g.edges, inside + absent)
    ensures y in Expand(g.edges, inside) || y in absent
  {
    ExpandMembers(g, inside + absent, y);
    ExpandMembers(g, inside, y);
    if y !in inside + absent {
      var x :| x in inside + absent && Adjacent(g, x, y);
      if (x, y) in g.edges {
        assert (x, y).0 in g.nodes;
      } else {
        assert (y, x).1 in g.nodes;
      }
      assert x in NodeSet(g);
    }
  }

  // ------------------------------------------------------------ induced subgraph

  function KeepNodes<N(==,!new)>(ns: seq<N>, s: set<N>): seq<N> {
    if ns == [] then [] else KeepNodes(ns[..|ns| - 1], s) + (if ns[|ns| - 1] in s then [ns[|ns| - 1]] else [])
  }

  function KeepEdges<N(==,!new)>(es: seq<Edge<N>>, s: set<N>): seq<Edge<N>> {
    if es == [] then []
    else KeepEdges(es[..|es| - 1], s) + (if es[|es| - 1].0 in s && es[|es| - 1].1 in s then [es[|es| - 1]] else [])
  }

  /**
   * `graph.subgraph(s)`: the nodes of the graph that are in `s`, in graph order, with every
   * edge between two of them and its attributes.
   */
  function Induced<N(==,!new)>(g: Graph<N>, s: set<N>): Graph<N> {
    Graph(KeepNodes(g.nodes, s), KeepEdges(g.edges, s),
          map e | e in g.labels && e.0 in s && e.1 in s :: g.labels[e],
          map e | e in g.extras && e.0 in s && e.1 in s :: g.extras[e])
  }

  lemma {:induction false} KeepNodesMembers<N(!new)>(ns: seq<N>, s: set<N>)
    ensures forall x :: x in KeepNodes(ns, s) <==> x in ns && x in s
  {
    if ns != [] {
      KeepNodesMembers(ns[..|ns| - 1], s);
      assert ns == ns[..|ns| - 1] + [ns[|ns| - 1]];
    }
  }

  lemma {:induction false} KeepNodesDistinct<N(!new)>(ns: seq<N>, s: set<N>)
    requires Distinct(ns)
    ensures Distinct(KeepNodes(ns, s))
  {
    if ns != [] {
      var p := ns[..|ns| - 1];
      var x := ns[|ns| - 1];
      KeepNodesDistinct(p, s);
      if x in s {
        KeepNodesMembers(p, s);
        DistinctSnoc(KeepNodes(p, s), x);
      } else {
        assert KeepNodes(ns, s) == KeepNodes(p, s);
      }
    }
  }

  lemma {:induction false} KeepEdgesMembers<N(!new)>(es: seq<Edge<N>>, s: set<N>)
    ensures forall e :: e in KeepEdges(es, s) <==> e in es && e.0 in s && e.1 in s
  {
    if es != [] {
      KeepEdgesMembers(es[..|es| - 1], s);
      assert es == es[..|es| - 1] + [es[|es| - 1]];
    }
  }

  lemma {:induction false} KeepEdgesDistinct<N(!new)>(es: seq<Edge<N>>, s: set<N>)
    requires Distinct(es)
    ensures Distinct(KeepEdges(es, s))
  {
    if es != [] {
      var p := es[..|es| - 1];
      var e := es[|es| - 1];
      KeepEdgesDistinct(p, s);
      if e.0 in s && e.1 in s {
        KeepEdgesMembers(p, s);
        DistinctSnoc(KeepEdges(p, s), e);
      } else {
        assert KeepEdges(es, s) == KeepEdges(p, s);
      }
    }
  }

  /** The induced subgraph is a graph whose nodes and edges are those of `g` inside `s`. */
  lemma InducedFacts<N(!new)>(g: Graph<N>, s: set<N>)
    requires WellFormed(g)
    ensures WellFormed(Induced(g, s))
    ensures forall x :: x in Induced(g, s).nodes <==> x in g.nodes && x in s
    ensures forall e :: e in Induced(g, s).edges <==> e in g.edges && e.0 in s && e.1 in s
    ensures forall e :: e in Induced(g, s).edges ==> LabelOf(Induced(g, s), e) == LabelOf(g, e)
  {
    KeepNodesMembers(g.nodes, s);
    KeepNodesDistinct(g.nodes, s);
    KeepEdgesMembers(g.edges, s);
    KeepEdgesDistinct(g.edges, s);
  }

  // ------------------------------------------------------------ weak components

  /**
   * The weakly connected component of `n`: `|g.nodes|` rounds reach every node reachable at
   * all (`ComponentClosed`, `ComponentHoldsReach`).
   */
  function Component<N(==,!new)>(g: Graph<N>, n: N): set<N> {
    Reach(g, {n}, |g.nodes|)
  }

  /** Node `i` is the first, in node order, of its component. */
  predicate FirstOfComponent<N(==,!new)>(g: Graph<N>, i: nat)
    requires i < |g.nodes|
  {
    forall j :: 0 <= j < i ==> g.nodes[j] !in Component(g, g.nodes[i])
  }

  /** The number of components among the first `k` nodes. */
  function CountComponents<N(==,!new)>(g: Graph<N>, k: nat): (c: nat)
    requires k <= |g.nodes|
    ensures c <= k
  {
    if k == 0 then 0 else CountComponents(g, k - 1) + (if FirstOfComponent(g, k - 1) then 1 else 0)
  }

  /** `nx.number_weakly_connected_components`. */
  function Components<N(==,!new)>(g: Graph<N>): nat {
    CountComponents(g, |g.nodes|)
  }

  /** `nx.is_weakly_connected` on a non-empty graph: the first node's component holds every node. */
  predicate WeaklyConnected<N(==,!new)>(g: Graph<N>)
    requires |g.nodes| > 0
  {
    forall x :: x in g.nodes ==> x in Component(g, g.nodes[0])
  }

  /** A non-empty graph has between one component and one per node. */
  lemma ComponentsBounds<N(!new)>(g: Graph<N>)
    requires |g.nodes| > 0
    ensures 1 <= Components(g) <= |g.nodes|
  {
    CountAtLeastOne(g, |g.nodes|);
  }

  lemma {:induction false} CountAtLeastOne<N(!new)>(g: Graph<N>, k: nat)
    requires 0 < k <= |g.nodes|
    ensures CountComponents(g, k) >= 1
  {
    if k > 1 {
      CountAtLeastOne(g, k - 1);
    }
  }

  /** A weakly connected graph has exactly one component. */
  lemma ConnectedOneComponent<N(!new)>(g: Graph<N>)
    requires |g.nodes| > 0 && WeaklyConnected(g)
    ensures Components(g) == 1
  {
    CountOnlyFirst(g, |g.nodes|);
  }

  lemma {:induction false} CountOnlyFirst<N(!new)>(g: Graph<N>, k: nat)
    requires 0 < k <= |g.nodes| && WeaklyConnected(g)
    ensures CountComponents(g, k) == 1
  {
    if k > 1 {
      CountOnlyFirst(g, k - 1);
      var x := g.nodes[k - 1];
      assert x in Component(g, g.nodes[0]);
      ReachSymmetric(g, g.nodes[0], x, |g.nodes|);
      assert !FirstOfComponent(g, k - 1);
    }
  }

  /** Without edges every node is its own component. */
  lemma NoEdgesAllComponents<N(!new)>(g: Graph<N>)
    requires Distinct(g.nodes) && g.edges == []
    ensures Components(g) == |g.nodes|
  {
    CountAllFirst(g, |g.nodes|);
  }

  lemma {:induction false} ReachNoEdges<N(!new)>(g: Graph<N>, s: set<N>, d: int)
    requires g.edges == []
    ensures Reach(g, s, d) == s
    decreases d
  {
    if d > 0 {
      ReachNoEdges(g, s, d - 1);
    }
  }

  lemma {:induction false} CountAllFirst<N(!new)>(g: Graph<N>, k: nat)
    requires k <= |g.nodes| && Distinct(g.nodes) && g.edges == []
    ensures CountComponents(g, k) == k
  {
    if k > 0 {
      CountAllFirst(g, k - 1);
      ReachNoEdges(g, {g.nodes[k - 1]}, |g.nodes|);
      forall j | 0 <= j < k - 1
        ensures g.nodes[j] !in Component(g, g.nodes[k - 1])
      {
        DistinctPairs(g.nodes, j, k - 1);
      }
    }
  }

  /**
   * The closure that makes `Component` the whole weakly connected component: one more round
   * from it adds no node.  Each round either adds a node or has stopped for good, and there
   * are only `|g.nodes|` nodes to add.
   */
  lemma ComponentClosed<N(!new)>(g: Graph<N>, n: N)
    requires WellFormed(g) && n in g.nodes
    ensures Expand(g.edges, Component(g, n)) == Component(g, n)
  {
    var m := |g.nodes|;
    assert Expand(g.edges, Component(g, n)) == Reach(g, {n}, m + 1);
    if k :| 0 <= k < m && Reach(g, {n}, k + 1) == Reach(g, {n}, k) {
      ReachStable(g, {n}, k, m);
      ReachStable(g, {n}, k, m + 1);
    } else {
      ReachBounded(g, {n}, m);
      ReachCount(g, {n}, m);
      assert false;
    }
  }

  /** Every depth reaches no more than the component. */
  lemma {:induction false} ComponentHoldsReach<N(!new)>(g: Graph<N>, n: N, d: int)
    requires WellFormed(g) && n in g.nodes
    ensures Reach(g, {n}, d) <= Component(g, n)
    decreases d
  {
    if d <= |g.nodes| {
      ReachGrows(g, {n}, d, |g.nodes|);
    } else {
      ComponentHoldsReach(g, n, d - 1);
      ExpandMono(g.edges, Reach(g, {n}, d - 1), Component(g, n));
      ComponentClosed(g, n);
    }
  }

  /** Once a round adds nothing, no later round does. */
  lemma {:induction false} ReachStable<N(!new)>(g: Graph<N>, s: set<N>, k: nat, d: nat)
    requires k <= d && Reach(g, s, k + 1) == Reach(g, s, k)
    ensures Reach(g, s, d) == Reach(g, s, k)
    decreases d - k
  {
    if d > k {
      ReachStable(g, s, k, d - 1);
      assert Reach(g, s, d) == Expand(g.edges, Reach(g, s, d - 1));
    }
  }

  /** While every round adds a node, `d` rounds from a non-empty seed set hold more than `d` nodes. */
  lemma {:induction false} ReachCount<N(!new)>(g: Graph<N>, s: set<N>, d: nat)
    requires s != {}
    requires forall k :: 0 <= k < d ==> Reach(g, s, k + 1) != Reach(g, s, k)
    ensures |Reach(g, s, d)| > d
  {
    if d > 0 {
      ReachCount(g, s, d - 1);
      var a, b := Reach(g, s, d - 1), Reach(g, s, d);
      ReachGrows(g, s, d - 1, d);
      assert b == a + (b - a);
      assert b - a != {};
    } else {
      var x :| x in s;
      assert {x} <= s;
    }
  }

  /** Reaching from nodes never holds more nodes than the graph has. */
  lemma ReachBounded<N(!new)>(g: Graph<N>, s: set<N>, d: int)
    requires WellFormed(g) && s <= NodeSet(g)
    ensures |Reach(g, s, d)| <= |g.nodes|
  {
    ReachInNodes(g, s, d);
    NodeSetSize(g.nodes);
    var r := Reach(g, s, d);
    assert NodeSet(g) == r + (NodeSet(g) - r);
  }

  /** Reaching from nodes stays among the nodes. */
  lemma {:induction false} ReachInNodes<N(!new)>(g: Graph<N>, s: set<N>, d: int)
    requires WellFormed(g) && s <= NodeSet(g)
    ensures Reach(g, s, d) <= NodeSet(g)
    decreases d
  {
    if d > 0 {
      ReachInNodes(g, s, d - 1);
      forall y | y in Reach(g, s, d)
        ensures y in NodeSet(g)
      {
        ExpandMembers(g, Reach(g, s, d - 1), y);
      }
    }
  }

  /** A sequence without repeats has as many members as elements. */
  lemma {:induction false} NodeSetSize<N>(ns: seq<N>)
    requires Distinct(ns)
    ensures |set x | x in ns| == |ns|
  {
    if ns != [] {
      var p := ns[..|ns| - 1];
      NodeSetSize(p);
      assert (set x | x in ns) == (set x | x in p) + {ns[|ns| - 1]};
    }
  }

  // ------------------------------------------------------------ statistics

  /** The `get_statistics` dict without `density`. */
  datatype Stats = Stats(nodes: nat, edges: nat, triplesAdded: int, isConnected: bool, components: nat)

  function Statistics<N(==,!new)>(g: Graph<N>, triplesAdded: int): (r: Stats)
    ensures r.nodes == |g.nodes| && r.edges == |g.edges| && r.triplesAdded == triplesAdded
    ensures r.nodes == 0 ==> !r.isConnected && r.components == 0
  {
    if |g.nodes| > 0 then Stats(|g.nodes|, |g.edges|, triplesAdded, WeaklyConnected(g), Components(g))
    else Stats(0, |g.edges|, triplesAdded, false, 0)
  }

  /** On a non-empty graph the component count is at least one, and one when connected. */
  lemma StatisticsComponents<N(!new)>(g: Graph<N>, triplesAdded: int)
    requires |g.nodes| > 0
    ensures 1 <= Statistics(g, triplesAdded).components <= |g.nodes|
    ensures Statistics(g, triplesAdded).isConnected ==> Statistics(g, triplesAdded).components == 1
  {
    ComponentsBounds(g);
    if WeaklyConnected(g) {
      ConnectedOneComponent(g);
    }
  }
}
