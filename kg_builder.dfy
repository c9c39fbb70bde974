/**
 * `KnowledgeGraphBuilder`: the in-memory knowledge graph with its three counters.  Each method
 * is proved against the reference definitions of `KgTriples`, `KgReach`, `KgSearch` and
 * `KgRank`.
 */
module KgBuilder {
  import opened Wrappers
  import opened Json
  import opened KgGraph
  import opened KgTriples
  import opened KgReach
  import opened KgSearch
  import opened KgRank

  /** The exception `add_triples` lets through. */
  datatype AddError =
    /**
     * The `TypeError` of `add_edge(subject, obj, label=..., **extra)`: an extra key naming one of
     * its parameters, or a list or dict as an endpoint.
     */
    EdgeTypeError

  /** A fact of `get_triples_for_context`: `"u label v."`. */
  function Fact(u: string, relation: string, v: string): string {
    u + " " + relation + " " + v + "."
  }

  function Facts(g: Graph<string>, es: seq<Edge<string>>): (r: seq<string>)
    ensures |r| == |es|
  {
    if es == [] then [] else Facts(g, es[..|es| - 1]) + [Fact(es[|es| - 1].0, LabelOf(g, es[|es| - 1]), es[|es| - 1].1)]
  }

  lemma {:induction false} FactsAt(g: Graph<string>, es: seq<Edge<string>>, i: nat)
    requires i < |es|
    ensures Facts(g, es)[i] == Fact(es[i].0, LabelOf(g, es[i]), es[i].1)
    decreases |es|
  {
    if i < |es| - 1 {
      FactsAt(g, es[..|es| - 1], i);
    }
  }

  /** The first `maxEdges` edges, none for a non-positive bound. */
  function FirstEdges<T>(es: seq<T>, maxEdges: int): (r: seq<T>)
    ensures r <= es
    ensures |r| == if maxEdges <= 0 then 0 else if maxEdges < |es| then maxEdges else |es|
  {
    if maxEdges <= 0 then [] else if maxEdges < |es| then es[..maxEdges] else es
  }

  /** The depth-2 subgraph around `entities`. */
  function ContextGraph(g: Graph<string>, entities: set<string>): Graph<string> {
    Induced(g, Reach(g, entities, 2))
  }

  /** `get_triples_for_context(entities, max_edges)`. */
  function ContextLines(g: Graph<string>, entities: set<string>, maxEdges: int): seq<string> {
    var sub := ContextGraph(g, entities);
    Facts(sub, FirstEdges(EdgeOrder(sub), maxEdges))
  }

  /**
   * At most `max_edges` facts, each stating an edge of the graph between two nodes within two
   * undirected steps of some entity, with the edge's label; when the bound allows, every such
   * edge is stated.
   */
  lemma ContextLinesFacts(g: Graph<string>, entities: set<string>, maxEdges: int)
    requires WellFormed(g)
    ensures var lines := ContextLines(g, entities, maxEdges);
      var near := Reach(g, entities, 2);
      |lines| <= (if maxEdges < 0 then 0 else maxEdges)
      && (forall i :: 0 <= i < |lines| ==>
            (exists u, v :: (u, v) in g.edges && u in near && v in near && lines[i] == Fact(u, LabelOf(g, (u, v)), v)))
      && (maxEdges >= |KeepEdges(g.edges, near)| ==> |lines| == |KeepEdges(g.edges, near)|)
  {
    var near := Reach(g, entities, 2);
    var sub := ContextGraph(g, entities);
    InducedFacts(g, near);
    EdgeOrderPerm(sub);
    EdgeOrderMembers(sub);
    var es := FirstEdges(EdgeOrder(sub), maxEdges);
    var lines := ContextLines(g, entities, maxEdges);
    forall i | 0 <= i < |lines|
      ensures exists u, v :: (u, v) in g.edges && u in near && v in near && lines[i] == Fact(u, LabelOf(g, (u, v)), v)
    {
      FactsAt(sub, es, i);
      assert es[i] == EdgeOrder(sub)[i];
      assert es[i] in sub.edges;
      var u, v := es[i].0, es[i].1;
      assert (u, v) in g.edges && u in near && v in near;
    }
  }

  /** One row of `nodes` in `export_to_dict`. */
  datatype NodeRow = NodeRow(id: string, name: string, inDegree: nat, outDegree: nat)

  /** One row of `edges` in `export_to_dict`. */
  datatype EdgeRow = EdgeRow(source: string, target: string, edgeLabel: string, data: Dict)

  datatype Export = Export(nodes: seq<NodeRow>, edges: seq<EdgeRow>, statistics: Stats)

  function NodeRowOf(g: Graph<string>, n: string): NodeRow {
    NodeRow(n, n, InDegree(g, n), OutDegree(g, n))
  }

  function EdgeRowOf(g: Graph<string>, e: Edge<string>): EdgeRow {
    EdgeRow(e.0, e.1, LabelOf(g, e), ExtrasOf(g, e))
  }

  class KnowledgeGraphBuilder {
    var graph: Graph<string>
    var triplesCount: int
    var nodesCount: int
    var edgesCount: int

    /** The graph is a `DiGraph`; the counters are only refreshed by `add_triples` and `clear`. */
    predicate Valid()
      reads this
    {
      WellFormed(graph)
    }

    /** The counters agree with the graph (true except after `add_triples` raised). */
    predicate Counted()
      reads this
    {
      nodesCount == |graph.nodes| && edgesCount == |graph.edges|
    }

    constructor()
      ensures Valid() && Counted()
      ensures graph == Empty() && triplesCount == 0 && nodesCount == 0 && edgesCount == 0
    {
      graph := Empty();
      triplesCount := 0;
      nodesCount := 0;
      edgesCount := 0;
      EmptyWellFormed<string>();
    }

    /**
     * `add_triples`: adds one edge per accepted triple and returns how many were accepted.
     * A `TypeError` leaves the edges added so far, the subject node `add_edge` made before an
     * unhashable object raised, and the counters as they were.
     */
    method AddTriples(triples: seq<Dict>) returns (r: Result<nat, AddError>)
      requires Valid()
      modifies this
      ensures Valid()
      ensures graph == AddAll(old(graph), triples).graph
      ensures AddAll(old(graph), triples).raised ==>
        r == Err(EdgeTypeError) && triplesCount == old(triplesCount)
        && nodesCount == old(nodesCount) && edgesCount == old(edgesCount)
      ensures !AddAll(old(graph), triples).raised ==>
        r == Ok(AddAll(old(graph), triples).added) && Counted()
        && triplesCount == old(triplesCount) + AddAll(old(graph), triples).added
    {
      ghost var g0 := graph;
      var added: nat := 0;
      var i := 0;
      while i < |triples|
        invariant 0 <= i <= |triples|
        invariant AddAll(g0, triples[..i]) == Adding(graph, added, false)
        invariant triplesCount == old(triplesCount) && nodesCount == old(nodesCount) && edgesCount == old(edgesCount)
      {
        var t := triples[i];
        if Raises(t) {
          RaisesAt(g0, triples, i);
          AddAllWellFormed(g0, triples);
          graph := RaisedGraph(graph, t);
          return Err(EdgeTypeError);
        }
        graph, added := AddOne(g0, triples, i, graph, added);
        i := i + 1;
      }
      assert triples[..i] == triples;
      AddAllWellFormed(g0, triples);
      triplesCount := triplesCount + added;
      edgesCount := |graph.edges|;
      nodesCount := |graph.nodes|;
      return Ok(added);
    }

    /** One pass of the `add_triples` loop over a triple that does not raise. */
    static method AddOne(ghost g0: Graph<string>, triples: seq<Dict>, i: nat, graph: Graph<string>, added: nat)
      returns (graph': Graph<string>, added': nat)
      requires i < |triples| && AddAll(g0, triples[..i]) == Adding(graph, added, false) && !Raises(triples[i])
      ensures AddAll(g0, triples[..i + 1]) == Adding(graph', added', false)
    {
      AddAllSnoc(g0, triples, i);
      var t := triples[i];
      graph', added' := graph, added;
      var accepted := Accepted(t);
      if accepted.Some? {
        var (s, p, o) := accepted.value;
        graph' := AddEdge(graph, s, o, p, Extras(t));
        added' := added + 1;
      }
    }

    /** `get_statistics` without `density`. */
    function GetStatistics(): (r: Stats)
      reads this
      ensures r.nodes == |graph.nodes| && r.edges == |graph.edges| && r.triplesAdded == triplesCount
      ensures r.nodes == 0 ==> !r.isConnected && r.components == 0
      ensures r.nodes > 0 ==> 1 <= r.components <= r.nodes && (r.isConnected ==> r.components == 1)
    {
      if |graph.nodes| > 0 then StatisticsComponents(graph, triplesCount); Statistics(graph, triplesCount)
      else Statistics(graph, triplesCount)
    }

    /**
     * `get_subgraph_by_entities`: `max_depth` rounds of expansion over the edges, then the
     * induced subgraph.  The edges are scanned in `edges` order; the set a round builds does
     * not depend on the order.
     */
    method GetSubgraphByEntities(entities: set<string>, maxDepth: int) returns (sub: Graph<string>)
      requires Valid()
      ensures sub == Induced(graph, Reach(graph, entities, maxDepth))
    {
      var relevant := entities;
      var depth := 0;
      while depth < maxDepth
        invariant depth <= maxDepth || depth == 0
        invariant relevant == Reach(graph, entities, depth)
        decreases maxDepth - depth
      {
        var newNodes := ExpandOnce(graph.edges, relevant);
        relevant := relevant + newNodes;
        depth := depth + 1;
      }
      if maxDepth <= 0 {
        assert Reach(graph, entities, maxDepth) == entities;
      }
      sub := Induced(graph, relevant);
    }

    /**
     * `find_related_entities`: the breadth-first search over `current_level` / `next_level`,
     * following successors and then predecessors.
     */
    method FindRelatedEntities(entity: string, maxHops: int) returns (related: seq<Related<string>>)
      requires Valid()
      ensures related == FindRelated(graph, entity, maxHops)
    {
      if entity !in graph.nodes {
        return [];
      }
      related := [];
      var visited := {entity};
      var current := [entity];
      var hop: nat := 0;
      while hop < maxHops
        invariant Rounds(graph, visited, current, related, hop, maxHops) == FindRelated(graph, entity, maxHops)
        decreases maxHops - hop
      {
        var s := SearchLevel(graph, Search(visited, [], related), hop, current);
        visited, related := s.visited, s.found;
        current := s.next;
        if current == [] {
          return;
        }
        hop := hop + 1;
      }
    }

    /** `get_triples_for_context`: facts of the depth-2 subgraph, at most `max_edges` of them. */
    method GetTriplesForContext(entities: set<string>, maxEdges: int) returns (lines: seq<string>)
      requires Valid()
      ensures lines == ContextLines(graph, entities, maxEdges)
    {
      var sub := GetSubgraphByEntities(entities, 2);
      var es := EdgeOrder(sub);
      lines := [];
      var count := 0;
      while count < |es|
        invariant 0 <= count <= |es|
        invariant lines == Facts(sub, es[..count])
        invariant count == 0 || count <= maxEdges
      {
        if count >= maxEdges {
          break;
        }
        assert es[..count + 1][..count] == es[..count];
        lines := lines + [Fact(es[count].0, LabelOf(sub, es[count]), es[count].1)];
        count := count + 1;
      }
      if maxEdges <= 0 {
        assert count == 0;
      } else if maxEdges < |es| {
        assert count == maxEdges;
      } else {
        assert count == |es| && es[..count] == es;
      }
    }

    /** `get_node_with_highest_degree(top_k)`. */
    function GetNodeWithHighestDegree(topK: int): (r: seq<Ranked<string>>)
      reads this
      ensures |r| <= |graph.nodes| && (topK >= 0 ==> |r| <= topK)
      ensures forall i :: 0 <= i < |r| ==>
        (r[i].entity in graph.nodes && r[i].degree == r[i].inDegree + r[i].outDegree == Degree(graph, r[i].entity))
      ensures forall i :: 0 < i < |r| ==> r[i - 1].degree >= r[i].degree
    {
      HighestDegreeFacts(graph, topK);
      HighestDegree(graph, topK)
    }

    /** `export_to_dict`: one row per node in node order and one per edge in `edges()` order. */
    method ExportToDict() returns (e: Export)
      requires Valid()
      ensures |e.nodes| == |graph.nodes| && |e.edges| == |graph.edges|
      ensures forall i :: 0 <= i < |e.nodes| ==> e.nodes[i] == NodeRowOf(graph, graph.nodes[i])
      ensures var es := EdgeOrder(graph);
        |e.edges| == |es| && forall i :: 0 <= i < |e.edges| ==> e.edges[i] == EdgeRowOf(graph, es[i])
      ensures e.statistics == GetStatistics()
    {
      var nodes: seq<NodeRow> := [];
      var i := 0;
      while i < |graph.nodes|
        invariant 0 <= i <= |graph.nodes| && |nodes| == i
        invariant forall k :: 0 <= k < i ==> nodes[k] == NodeRowOf(graph, graph.nodes[k])
      {
        nodes := nodes + [NodeRowOf(graph, graph.nodes[i])];
        i := i + 1;
      }
      var es := EdgeOrder(graph);
      EdgeOrderPerm(graph);
      var edges: seq<EdgeRow> := [];
      var j := 0;
      while j < |es|
        invariant 0 <= j <= |es| && |edges| == j
        invariant forall k :: 0 <= k < j ==> edges[k] == EdgeRowOf(graph, es[k])
      {
        edges := edges + [EdgeRowOf(graph, es[j])];
        j := j + 1;
      }
      e := Export(nodes, edges, GetStatistics());
    }

    /** `clear`: an empty graph and zero counters. */
    method Clear()
      modifies this
      ensures Valid() && Counted()
      ensures graph == Empty() && triplesCount == 0 && nodesCount == 0 && edgesCount == 0
    {
      graph := Empty();
      triplesCount := 0;
      nodesCount := 0;
      edgesCount := 0;
      EmptyWellFormed<string>();
    }
  }

  /** The inner loop of one expansion round: the far ends of the edges touching `relevant`. */
  method ExpandOnce(es: seq<Edge<string>>, relevant: set<string>) returns (newNodes: set<string>)
    ensures relevant + newNodes == Expand(es, relevant)
  {
    newNodes := {};
    var j := 0;
    while j < |es|
      invariant 0 <= j <= |es|
      invariant newNodes == Across(es[..j], relevant)
    {
      var (u, v) := es[j];
      assert es[..j + 1][..j] == es[..j];
      if u in relevant {
        newNodes := newNodes + {v};
      }
      if v in relevant {
        newNodes := newNodes + {u};
      }
      j := j + 1;
    }
    assert es[..j] == es;
  }

  /** The loops over the nodes of a level and over each node's neighbours. */
  method SearchLevel(g: Graph<string>, s0: Search<string>, hop: nat, level: seq<string>) returns (s: Search<string>)
    ensures s == VisitLevel(g, s0, hop, level)
  {
    s := s0;
    var k := 0;
    while k < |level|
      invariant 0 <= k <= |level|
      invariant s == VisitLevel(g, s0, hop, level[..k])
    {
      var node := level[k];
      assert level[..k + 1][..k] == level[..k];
      var nbs := Successors(g, node) + Predecessors(g, node);
      var m := 0;
      ghost var before := s;
      while m < |nbs|
        invariant 0 <= m <= |nbs|
        invariant s == VisitAll(g, before, hop, node, nbs[..m])
      {
        assert nbs[..m + 1][..m] == nbs[..m];
        var nb := nbs[m];
        if nb !in s.visited {
          s := Search(s.visited + {nb}, s.next + [nb], s.found + [Related(nb, hop + 1, node, Relationships(g, node, nb))]);
        }
        m := m + 1;
      }
      assert nbs[..m] == Neighbors(g, node);
      k := k + 1;
    }
    assert level[..k] == level;
  }
}
