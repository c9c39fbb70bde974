/**
 * The directed graph `KnowledgeGraphBuilder` keeps in a networkx `DiGraph`.  Nodes are kept in
 * insertion order, and each edge once, in the order it was first added.  Every edge carries its
 * `label` (the predicate) and its other attributes, a dict in insertion order.
 *
 * networkx keeps successors and predecessors in dicts filled as edges are first added.  So
 * `successors(u)` lists the targets of `u`'s edges in `edges` order, `predecessors(v)` lists
 * the sources of `v`'s edges, and `edges()` walks the nodes in order and, for each, its
 * outgoing edges.
 */
module KgGraph {
  import opened Wrappers
  import opened Json

  type Edge<N> = (N, N)

  datatype Graph<N(==)> = Graph(nodes: seq<N>, edges: seq<Edge<N>>, labels: map<Edge<N>, string>, extras: map<Edge<N>, Dict>)


  /** No element occurs twice (stated on the last element, so that it unfolds one step at a time). */
  predicate Distinct<T(==)>(s: seq<T>) {
    s == [] || (s[|s| - 1] !in s[..|s| - 1] && Distinct(s[..|s| - 1]))
  }

  lemma DistinctSnoc<T>(s: seq<T>, x: T)
    requires Distinct(s) && x !in s
    ensures Distinct(s + [x])
  {
    assert (s + [x])[..|s|] == s;
  }

  /** The pairwise reading of `Distinct`. */
  lemma {:induction false} DistinctPairs<T>(s: seq<T>, i: nat, j: nat)
    requires Distinct(s) && i < j < |s|
    ensures s[i] != s[j]
  {
    var p := s[..|s| - 1];
    if j < |s| - 1 {
      DistinctPairs(p, i, j);
      assert p[i] == s[i] && p[j] == s[j];
    } else {
      assert s[i] == p[i] && p[i] in p;
    }
  }

  /** The shape every `DiGraph` has. */
  predicate WellFormed<N(==,!new)>(g: Graph<N>) {
    Distinct(g.nodes) && Distinct(g.edges)
    && (forall e :: e in g.edges ==> e.0 in g.nodes && e.1 in g.nodes)
    && g.labels.Keys == g.extras.Keys == (set e | e in g.edges)
  }

  /** A fresh `nx.DiGraph()`. */
  function Empty<N(==)>(): Graph<N> {
    Graph([], [], map[], map[])
  }

  lemma EmptyWellFormed<N(!new)>()
    ensures WellFormed(Empty<N>())
  {
  }

  /** A node is added the first time it is seen; later sightings leave the order alone. */
  function AddNode<N(==,!new)>(ns: seq<N>, x: N): (r: seq<N>)
    ensures x in r && (forall y :: y in r <==> y in ns || y == x)
    ensures Distinct(ns) ==> Distinct(r)
  {
    if x in ns then ns else (assert (ns + [x])[..|ns|] == ns; ns + [x])
  }

  /** `dict.update(a)`: existing keys keep their place and take the new value, new keys go last. */
  function Update(d: Dict, a: Dict): Dict
    decreases |a|
  {
    if a == [] then d else Update(Put(d, a[0].0, a[0].1), a[1..])
  }

  /** After `update(a)`, keys `a` does not hold keep their old value. */
  lemma {:induction false} UpdateKeeps(d: Dict, a: Dict, k: string)
    requires !HasKey(a, k)
    ensures Get(Update(d, a), k) == Get(d, k)
    decreases |a|
  {
    if a != [] {
      assert a[0].0 != k;
      assert !HasKey(a[1..], k) by {
        forall i | 0 <= i < |a| - 1 ensures a[1..][i].0 != k {
          assert a[1..][i] == a[i + 1];
        }
      }
      PutOther(d, a[0].0, a[0].1, k);
      UpdateKeeps(Put(d, a[0].0, a[0].1), a[1..], k);
    }
  }

  /** After `update(a)`, keys `a` holds have the value `a` gives them, whatever `d` held. */
  lemma {:induction false} UpdateOverwrites(d: Dict, d': Dict, a: Dict, k: string)
    requires HasKey(a, k)
    ensures Get(Update(d, a), k) == Get(Update(d', a), k)
    decreases |a|
  {
    if a[0].0 == k {
      if HasKey(a[1..], k) {
        UpdateOverwrites(Put(d, k, a[0].1), Put(d', k, a[0].1), a[1..], k);
      } else {
        UpdateKeeps(Put(d, k, a[0].1), a[1..], k);
        UpdateKeeps(Put(d', k, a[0].1), a[1..], k);
      }
    } else {
      assert HasKey(a[1..], k) by {
        var i :| 0 <= i < |a| && a[i].0 == k;
        assert a[1..][i - 1].0 == k;
      }
      UpdateOverwrites(Put(d, a[0].0, a[0].1), Put(d', a[0].0, a[0].1), a[1..], k);
    }
  }

  /**
   * `add_edge(u, v, label=p, **extra)`: creates `u`, then `v`, when absent; the edge keeps its
   * first position; the label is replaced and the attribute dict updated with `extra`.
   */
  function AddEdge<N(==,!new)>(g: Graph<N>, u: N, v: N, relation: string, extra: Dict): (r: Graph<N>)
    ensures (u, v) in r.labels && r.labels[(u, v)] == relation
    ensures forall e :: e in r.edges <==> e in g.edges || e == (u, v)
    ensures forall x :: x in r.nodes <==> x in g.nodes || x == u || x == v
    ensures |r.edges| == if (u, v) in g.edges then |g.edges| else |g.edges| + 1
  {
    var prior := if (u, v) in g.extras then g.extras[(u, v)] else [];
    Graph(AddNode(AddNode(g.nodes, u), v),
          if (u, v) in g.edges then g.edges else g.edges + [(u, v)],
          g.labels[(u, v) := relation],
          g.extras[(u, v) := Update(prior, extra)])
  }

  lemma {:induction false} AddEdgeWellFormed<N(!new)>(g: Graph<N>, u: N, v: N, relation: string, extra: Dict)
    requires WellFormed(g)
    ensures WellFormed(AddEdge(g, u, v, relation, extra))
  {
    var r := AddEdge(g, u, v, relation, extra);
    GrownWellFormed(g, r, u, v);
  }

  /** A graph grown from a well-formed one by `u`, `v` and the edge between them is well formed. */
  lemma {:induction false} GrownWellFormed<N(!new)>(g: Graph<N>, r: Graph<N>, u: N, v: N)
    requires WellFormed(g)
    requires r.nodes == AddNode(AddNode(g.nodes, u), v)
    requires r.edges == if (u, v) in g.edges then g.edges else g.edges + [(u, v)]
    requires r.labels.Keys == g.labels.Keys + {(u, v)} && r.extras.Keys == g.extras.Keys + {(u, v)}
    ensures WellFormed(r)
  {
    assert Distinct(r.nodes);
    assert Distinct(r.edges) by {
      if (u, v) !in g.edges {
        DistinctSnoc(g.edges, (u, v));
      }
    }
    assert forall e :: e in r.edges ==> e.0 in r.nodes && e.1 in r.nodes by {
      forall e | e in r.edges ensures e.0 in r.nodes && e.1 in r.nodes {
        if e != (u, v) {
          assert e in g.edges;
        }
      }
    }
    EdgeKeys(g.edges, r.edges, u, v);
  }

  lemma EdgeKeys<N(!new)>(es: seq<Edge<N>>, rs: seq<Edge<N>>, u: N, v: N)
    requires rs == if (u, v) in es then es else es + [(u, v)]
    ensures (set e | e in rs) == (set e | e in es) + {(u, v)}
  {
  }

  /**
   * Re-adding an edge overwrites the label and the attributes the new triple carries, keeps the
   * attributes it does not carry, and leaves the other edges alone.
   */
  lemma {:induction false} AddEdgeAttributes<N(!new)>(g: Graph<N>, u: N, v: N, relation: string, extra: Dict, k: string, e: Edge<N>)
    requires (u, v) in g.extras && e != (u, v)
    ensures HasKey(extra, k) ==>
      Get(AddEdge(g, u, v, relation, extra).extras[(u, v)], k) == Get(Update([], extra), k)
    ensures !HasKey(extra, k) ==>
      Get(AddEdge(g, u, v, relation, extra).extras[(u, v)], k) == Get(g.extras[(u, v)], k)
    ensures e in g.labels ==> AddEdge(g, u, v, relation, extra).labels[e] == g.labels[e]
    ensures e in g.extras ==> AddEdge(g, u, v, relation, extra).extras[e] == g.extras[e]
  {
    if HasKey(extra, k) {
      UpdateOverwrites(g.extras[(u, v)], [], extra, k);
    } else {
      UpdateKeeps(g.extras[(u, v)], extra, k);
    }
  }

  // ------------------------------------------------------------ neighbours

  /** The edges leaving `n`, in `edges` order. */
  function OutEdges<N(==,!new)>(es: seq<Edge<N>>, n: N): (r: seq<Edge<N>>)
  {
    if es == [] then []
    else OutEdges(es[..|es| - 1], n) + (if es[|es| - 1].0 == n then [es[|es| - 1]] else [])
  }

  /** The edges entering `n`, in `edges` order. */
  function InEdges<N(==,!new)>(es: seq<Edge<N>>, n: N): (r: seq<Edge<N>>)
  {
    if es == [] then []
    else InEdges(es[..|es| - 1], n) + (if es[|es| - 1].1 == n then [es[|es| - 1]] else [])
  }

  lemma {:induction false} OutEdgesMembers<N(!new)>(es: seq<Edge<N>>, n: N)
    ensures forall e :: e in OutEdges(es, n) <==> e in es && e.0 == n
  {
    if es != [] {
      OutEdgesMembers(es[..|es| - 1], n);
      assert es == es[..|es| - 1] + [es[|es| - 1]];
    }
  }

  lemma {:induction false} InEdgesMembers<N(!new)>(es: seq<Edge<N>>, n: N)
    ensures forall e :: e in InEdges(es, n) <==> e in es && e.1 == n
  {
    if es != [] {
      InEdgesMembers(es[..|es| - 1], n);
      assert es == es[..|es| - 1] + [es[|es| - 1]];
    }
  }

  function Targets<N(==,!new)>(es: seq<Edge<N>>): (r: seq<N>)
    ensures |r| == |es|
  {
    if es == [] then [] else Targets(es[..|es| - 1]) + [es[|es| - 1].1]
  }

  function Sources<N(==,!new)>(es: seq<Edge<N>>): (r: seq<N>)
    ensures |r| == |es|
  {
    if es == [] then [] else Sources(es[..|es| - 1]) + [es[|es| - 1].0]
  }

  lemma {:induction false} TargetsMembers<N(!new)>(es: seq<Edge<N>>)
    ensures forall x :: x in Targets(es) <==> exists e :: e in es && e.1 == x
  {
    if es != [] {
      TargetsMembers(es[..|es| - 1]);
      assert es == es[..|es| - 1] + [es[|es| - 1]];
    }
  }

  lemma {:induction false} SourcesMembers<N(!new)>(es: seq<Edge<N>>)
    ensures forall x :: x in Sources(es) <==> exists e :: e in es && e.0 == x
  {
    if es != [] {
      SourcesMembers(es[..|es| - 1]);
      assert es == es[..|es| - 1] + [es[|es| - 1]];
    }
  }

  /** `graph.successors(n)`. */
  function Successors<N(==,!new)>(g: Graph<N>, n: N): seq<N> {
    Targets(OutEdges(g.edges, n))
  }

  /** `graph.predecessors(n)`. */
  function Predecessors<N(==,!new)>(g: Graph<N>, n: N): seq<N> {
    Sources(InEdges(g.edges, n))
  }

  /** The successors of `n` are exactly the targets of its outgoing edges. */
  lemma SuccessorsMembers<N(!new)>(g: Graph<N>, n: N, x: N)
    ensures x in Successors(g, n) <==> (n, x) in g.edges
  {
    OutEdgesMembers(g.edges, n);
    TargetsMembers(OutEdges(g.edges, n));
    if (n, x) in g.edges {
      assert (n, x) in OutEdges(g.edges, n);
    }
  }

  /** The predecessors of `n` are exactly the sources of its incoming edges. */
  lemma PredecessorsMembers<N(!new)>(g: Graph<N>, n: N, x: N)
    ensures x in Predecessors(g, n) <==> (x, n) in g.edges
  {
    InEdgesMembers(g.edges, n);
    SourcesMembers(InEdges(g.edges, n));
    if (x, n) in g.edges {
      assert (x, n) in InEdges(g.edges, n);
    }
  }

  function OutDegree<N(==,!new)>(g: Graph<N>, n: N): nat { |OutEdges(g.edges, n)| }

  function InDegree<N(==,!new)>(g: Graph<N>, n: N): nat { |InEdges(g.edges, n)| }

  /** `graph.degree(n)` of a `DiGraph`: in-degree plus out-degree (a self-loop counts twice). */
  function Degree<N(==,!new)>(g: Graph<N>, n: N): nat { InDegree(g, n) + OutDegree(g, n) }

  /** `graph.edges()`: for each node in order, its outgoing edges in insertion order. */
  function EdgeOrder<N(==,!new)>(g: Graph<N>): seq<Edge<N>> {
    EdgesFrom(g.nodes, g.edges)
  }

  function EdgesFrom<N(==,!new)>(ns: seq<N>, es: seq<Edge<N>>): seq<Edge<N>> {
    if ns == [] then [] else EdgesFrom(ns[..|ns| - 1], es) + OutEdges(es, ns[|ns| - 1])
  }

  lemma {:induction false} EdgesFromMembers<N(!new)>(ns: seq<N>, es: seq<Edge<N>>)
    ensures forall e :: e in EdgesFrom(ns, es) <==> e in es && e.0 in ns
  {
    if ns != [] {
      EdgesFromMembers(ns[..|ns| - 1], es);
      OutEdgesMembers(es, ns[|ns| - 1]);
      assert ns == ns[..|ns| - 1] + [ns[|ns| - 1]];
    }
  }

  /** Edge iteration visits exactly the graph's edges. */
  lemma EdgeOrderMembers<N(!new)>(g: Graph<N>)
    requires WellFormed(g)
    ensures forall e :: e in EdgeOrder(g) <==> e in g.edges
  {
    EdgesFromMembers(g.nodes, g.edges);
  }

  lemma OutEdgesSnoc<N(!new)>(es: seq<Edge<N>>, e: Edge<N>, n: N)
    ensures OutEdges(es + [e], n) == OutEdges(es, n) + (if e.0 == n then [e] else [])
  {
    assert (es + [e])[..|es|] == es;
  }

  lemma {:induction false} EdgesFromSnoc<N(!new)>(ns: seq<N>, es: seq<Edge<N>>, e: Edge<N>)
    requires Distinct(ns)
    ensures multiset(EdgesFrom(ns, es + [e])) == multiset(EdgesFrom(ns, es)) + (if e.0 in ns then multiset{e} else multiset{})
    decreases |ns|
  {
    if ns != [] {
      var init := ns[..|ns| - 1];
      EdgesFromSnoc(init, es, e);
      OutEdgesSnoc(es, e, ns[|ns| - 1]);
      assert ns == init + [ns[|ns| - 1]];
    }
  }

  lemma {:induction false} EdgesFromPerm<N(!new)>(ns: seq<N>, es: seq<Edge<N>>)
    requires Distinct(ns) && forall e :: e in es ==> e.0 in ns
    ensures multiset(EdgesFrom(ns, es)) == multiset(es)
    decreases |es|
  {
    if es != [] {
      var init := es[..|es| - 1];
      assert es == init + [es[|es| - 1]];
      EdgesFromPerm(ns, init);
      EdgesFromSnoc(ns, init, es[|es| - 1]);
    } else {
      EdgesFromNone(ns, es);
    }
  }

  lemma {:induction false} EdgesFromNone<N(!new)>(ns: seq<N>, es: seq<Edge<N>>)
    requires es == []
    ensures EdgesFrom(ns, es) == []
    decreases |ns|
  {
    if ns != [] {
      EdgesFromNone(ns[..|ns| - 1], es);
    }
  }

  /** `graph.edges()` lists every edge exactly once. */
  lemma EdgeOrderPerm<N(!new)>(g: Graph<N>)
    requires WellFormed(g)
    ensures multiset(EdgeOrder(g)) == multiset(g.edges) && |EdgeOrder(g)| == |g.edges|
  {
    EdgesFromPerm(g.nodes, g.edges);
    assert |multiset(EdgeOrder(g))| == |multiset(g.edges)|;
  }

  /** The label an edge's data dict reports through `get('label', '')`. */
  function LabelOf<N(==,!new)>(g: Graph<N>, e: Edge<N>): string {
    if e in g.labels then g.labels[e] else ""
  }

  /** The edge's data without its label. */
  function ExtrasOf<N(==,!new)>(g: Graph<N>, e: Edge<N>): Dict {
    if e in g.extras then g.extras[e] else []
  }
}
