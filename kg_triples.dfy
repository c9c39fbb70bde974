/**
 * `add_triples`: which triples become edges, what the edge carries, and the counting.  A triple
 * is a dict; it is taken when its `subject`, `predicate` and `object` are all present and truthy.
 * The edge runs from subject to object, labelled with the predicate, and carries the triple's
 * other keys as attributes.  The graph's nodes are strings: a taken triple whose three fields are
 * strings is added, one whose subject or object cannot be hashed raises, and one with another
 * truthy field (a number, `true`) is passed over.
 */
module KgTriples {
  import opened Wrappers
  import opened Json
  import opened KgGraph

  const TripleKeys: seq<string> := ["subject", "predicate", "object"]

  /** A field that Python finds truthy, when the value is a string. */
  function Field(t: Dict, k: string): Option<string> {
    match Get(t, k)
    case Some(JStr(s)) => if s != "" then Some(s) else None
    case _ => None
  }

  /** Python truthiness of a JSON value. */
  predicate Truthy(v: Json) {
    match v
    case JNull => false
    case JBool(b) => b
    case JNum(n) => n != 0
    case JStr(s) => s != ""
    case JArr(xs) => xs != []
    case JObj(m) => m != []
  }

  /** `triple.get(k)` is truthy. */
  predicate TruthyField(t: Dict, k: string) {
    match Get(t, k)
    case Some(v) => Truthy(v)
    case None => false
  }

  /** `triple.get(k)` is a list or a dict, which cannot be a graph node. */
  predicate UnhashableField(t: Dict, k: string) {
    match Get(t, k)
    case Some(v) => v.JArr? || v.JObj?
    case None => false
  }

  /** `if subject and predicate and obj`. */
  predicate Taken(t: Dict) {
    TruthyField(t, "subject") && TruthyField(t, "predicate") && TruthyField(t, "object")
  }

  /** The (subject, predicate, object) of a taken triple whose three fields are strings. */
  function Accepted(t: Dict): (r: Option<(string, string, string)>)
    ensures r.Some? <==> Taken(t) && IsStr(Get(t, "subject")) && IsStr(Get(t, "predicate")) && IsStr(Get(t, "object"))
    ensures r.Some? ==> r.value.0 != "" && r.value.1 != "" && r.value.2 != ""
    ensures r.Some? ==>
      Get(t, "subject") == Some(JStr(r.value.0)) && Get(t, "predicate") == Some(JStr(r.value.1))
      && Get(t, "object") == Some(JStr(r.value.2))
    ensures r.Some? ==> !UnhashableField(t, "subject") && !UnhashableField(t, "object")
  {
    var s, p, o := Field(t, "subject"), Field(t, "predicate"), Field(t, "object");
    if s.Some? && p.Some? && o.Some? then Some((s.value, p.value, o.value)) else None
  }

  /** The triple's entries other than subject, predicate and object, in order. */
  function Extras(t: Dict): (r: Dict)
    ensures forall i :: 0 <= i < |r| ==> r[i] in t && r[i].0 !in TripleKeys
  {
    if t == [] then []
    else
      var last := t[|t| - 1];
      var prev := Extras(t[..|t| - 1]);
      assert forall i :: 0 <= i < |prev| ==> prev[i] in t;
      prev + (if last.0 in TripleKeys then [] else [last])
  }

  /** Every entry of the triple outside the three keys is passed on. */
  lemma {:induction false} ExtrasComplete(t: Dict, i: nat)
    requires i < |t| && t[i].0 !in TripleKeys
    ensures t[i] in Extras(t)
  {
    if i < |t| - 1 {
      ExtrasComplete(t[..|t| - 1], i);
      assert t[..|t| - 1][i] == t[i];
    }
  }

  /**
   * `add_edge(self, u_of_edge, v_of_edge, **attr)` is called with `label=`: an extra key that
   * names one of these parameters is a `TypeError` before the edge is touched, and the exception
   * leaves `add_triples`.
   */
  predicate LabelClash(t: Dict) {
    var x := Extras(t);
    HasKey(x, "label") || HasKey(x, "self") || HasKey(x, "u_of_edge") || HasKey(x, "v_of_edge")
  }

  /** A taken triple raises `TypeError`: a clashing keyword, or a list or dict as an endpoint. */
  predicate Raises(t: Dict) {
    Taken(t) && (LabelClash(t) || UnhashableField(t, "subject") || UnhashableField(t, "object"))
  }

  /**
   * The graph a raising `add_edge` leaves behind.  A clashing keyword or an unhashable subject
   * raises before anything changes; an unhashable object raises only after `add_edge` has made
   * the subject a node.
   */
  function RaisedGraph(g: Graph<string>, t: Dict): Graph<string> {
    if !LabelClash(t) && UnhashableField(t, "object") then
      match Get(t, "subject")
      case Some(JStr(s)) => g.(nodes := AddNode(g.nodes, s))
      case _ => g
    else g
  }

  /** State of the `add_triples` loop: the graph so far, the accepted count, and whether it raised. */
  datatype Adding = Adding(graph: Graph<string>, added: nat, raised: bool)

  /** One iteration of the loop. */
  function AddTriple(a: Adding, t: Dict): Adding {
    if Raises(t) then Adding(RaisedGraph(a.graph, t), a.added, true)
    else
      match Accepted(t)
      case None => a
      case Some((s, p, o)) => Adding(AddEdge(a.graph, s, o, p, Extras(t)), a.added + 1, false)
  }

  /** The loop over `ts`, stopping at the first `TypeError`. */
  function AddAll(g: Graph<string>, ts: seq<Dict>): Adding {
    if ts == [] then Adding(g, 0, false)
    else
      var prev := AddAll(g, ts[..|ts| - 1]);
      if prev.raised then prev else AddTriple(prev, ts[|ts| - 1])
  }

  lemma AddAllSnoc(g: Graph<string>, ts: seq<Dict>, i: nat)
    requires i < |ts|
    ensures AddAll(g, ts[..i + 1]) ==
      (if AddAll(g, ts[..i]).raised then AddAll(g, ts[..i]) else AddTriple(AddAll(g, ts[..i]), ts[i]))
  {
    assert ts[..i + 1][..i] == ts[..i];
  }

  /** Once the loop has raised, later triples change nothing. */
  lemma {:induction false} RaisedSticks(g: Graph<string>, ts: seq<Dict>, i: nat)
    requires i <= |ts| && AddAll(g, ts[..i]).raised
    ensures AddAll(g, ts) == AddAll(g, ts[..i])
    decreases |ts| - i
  {
    if i < |ts| {
      AddAllSnoc(g, ts, i);
      RaisedSticks(g, ts, i + 1);
    } else {
      assert ts[..i] == ts;
    }
  }

  /** The loop raising at triple `i` ends with the graph that triple's `add_edge` left. */
  lemma RaisesAt(g: Graph<string>, ts: seq<Dict>, i: nat)
    requires i < |ts| && !AddAll(g, ts[..i]).raised && Raises(ts[i])
    ensures AddAll(g, ts) == Adding(RaisedGraph(AddAll(g, ts[..i]).graph, ts[i]), AddAll(g, ts[..i]).added, true)
  {
    AddAllSnoc(g, ts, i);
    RaisedSticks(g, ts, i + 1);
  }

  // -------------------------------------------------------- reference views

  /** The number of accepted triples, repeats included. */
  function AcceptedCount(ts: seq<Dict>): nat {
    if ts == [] then 0 else AcceptedCount(ts[..|ts| - 1]) + (if Accepted(ts[|ts| - 1]).Some? then 1 else 0)
  }

  /** Some triple raises. */
  predicate SomeClash(ts: seq<Dict>) {
    ts != [] && (SomeClash(ts[..|ts| - 1]) || Raises(ts[|ts| - 1]))
  }

  /** `SomeClash` holds when some position holds a raising triple. */
  lemma {:induction false} SomeClashAt(ts: seq<Dict>, i: nat)
    requires i < |ts| && Raises(ts[i])
    ensures SomeClash(ts)
  {
    if i < |ts| - 1 {
      assert ts[..|ts| - 1][i] == ts[i];
      SomeClashAt(ts[..|ts| - 1], i);
    }
  }

  /** The subjects and objects of the accepted triples. */
  function Endpoints(ts: seq<Dict>): set<string> {
    if ts == [] then {}
    else
      Endpoints(ts[..|ts| - 1]) +
      (match Accepted(ts[|ts| - 1]) case Some((s, _, o)) => {s, o} case None => {})
  }

  /** The (subject, object) pairs of the accepted triples. */
  function Pairs(ts: seq<Dict>): set<Edge<string>> {
    if ts == [] then {}
    else
      Pairs(ts[..|ts| - 1]) +
      (match Accepted(ts[|ts| - 1]) case Some((s, _, o)) => {(s, o)} case None => {})
  }

  /**
   * Without a `TypeError`, `add_triples` returns the number of accepted triples, its node set is
   * the old one plus their subjects and objects, and its edge set the old one plus one edge per
   * (subject, object) pair.  Existing nodes keep their positions.
   */
  lemma {:induction false} AddAllFacts(g: Graph<string>, ts: seq<Dict>)
    requires !AddAll(g, ts).raised
    ensures AddAll(g, ts).added == AcceptedCount(ts)
    ensures forall x :: x in AddAll(g, ts).graph.nodes <==> x in g.nodes || x in Endpoints(ts)
    ensures forall e :: e in AddAll(g, ts).graph.edges <==> e in g.edges || e in Pairs(ts)
    ensures g.nodes <= AddAll(g, ts).graph.nodes
  {
    if ts != [] {
      var prev := AddAll(g, ts[..|ts| - 1]);
      AddAllFacts(g, ts[..|ts| - 1]);
    }
  }

  /**
   * `add_triples` raises exactly when some taken triple carries an extra `label`, `self`,
   * `u_of_edge` or `v_of_edge` key, or a list or dict as its subject or object.
   */
  lemma {:induction false} AddAllRaises(g: Graph<string>, ts: seq<Dict>)
    ensures AddAll(g, ts).raised <==> SomeClash(ts)
  {
    if ts != [] {
      AddAllRaises(g, ts[..|ts| - 1]);
      if !AddAll(g, ts[..|ts| - 1]).raised {
        AddTripleRaised(AddAll(g, ts[..|ts| - 1]), ts[|ts| - 1]);
      }
    }
  }

  lemma AddTripleRaised(a: Adding, t: Dict)
    requires !a.raised
    ensures AddTriple(a, t).raised <==> Raises(t)
  {
  }

  /** A string triple with an extra key naming a parameter of `add_edge` raises. */
  lemma ParameterKeyRaises(a: Adding, s: string, p: string, o: string, k: string, v: Json)
    requires s != "" && p != "" && o != "" && k in {"label", "self", "u_of_edge", "v_of_edge"}
    ensures AddTriple(a, [("subject", JStr(s)), ("predicate", JStr(p)), ("object", JStr(o)), (k, v)]).raised
  {
    var t := [("subject", JStr(s)), ("predicate", JStr(p)), ("object", JStr(o)), (k, v)];
    GetUnique(t, 0, "subject");
    GetUnique(t, 1, "predicate");
    GetUnique(t, 2, "object");
    ExtrasComplete(t, 3);
    var x := Extras(t);
    var i :| 0 <= i < |x| && x[i] == t[3];
    assert x[i].0 == k;
  }

  /**
   * A triple whose object is a non-empty list raises, and the graph keeps the subject as a node
   * but gains no edge.
   */
  lemma ListObjectKeepsSubject(a: Adding, s: string, p: string, xs: seq<Json>)
    requires s != "" && p != "" && xs != []
    ensures var b := AddTriple(a, [("subject", JStr(s)), ("predicate", JStr(p)), ("object", JArr(xs))]);
      b.raised && b.added == a.added && b.graph == a.graph.(nodes := AddNode(a.graph.nodes, s))
  {
    var t := [("subject", JStr(s)), ("predicate", JStr(p)), ("object", JArr(xs))];
    GetUnique(t, 0, "subject");
    GetUnique(t, 1, "predicate");
    GetUnique(t, 2, "object");
  }

  /** A triple whose subject is a non-empty list raises: the list cannot be a node. */
  lemma ListSubjectRaises(a: Adding, xs: seq<Json>, p: string, o: string)
    requires xs != [] && p != "" && o != ""
    ensures AddTriple(a, [("subject", JArr(xs)), ("predicate", JStr(p)), ("object", JStr(o))]).raised
    ensures AddTriple(a, [("subject", JArr(xs)), ("predicate", JStr(p)), ("object", JStr(o))]).graph == a.graph
  {
    var t := [("subject", JArr(xs)), ("predicate", JStr(p)), ("object", JStr(o))];
    GetUnique(t, 0, "subject");
    GetUnique(t, 1, "predicate");
    GetUnique(t, 2, "object");
  }

  /** The graph stays well formed. */
  lemma {:induction false} AddAllWellFormed(g: Graph<string>, ts: seq<Dict>)
    requires WellFormed(g)
    ensures WellFormed(AddAll(g, ts).graph)
  {
    if ts != [] {
      AddAllWellFormed(g, ts[..|ts| - 1]);
      var prev := AddAll(g, ts[..|ts| - 1]);
      if Raises(ts[|ts| - 1]) {
        RaisedGraphWellFormed(prev.graph, ts[|ts| - 1]);
      } else {
        match Accepted(ts[|ts| - 1])
        case None =>
        case Some((s, p, o)) =>
          AddEdgeWellFormed(prev.graph, s, o, p, Extras(ts[|ts| - 1]));
      }
    }
  }

  /** The graph a raising `add_edge` leaves is well formed, with the same edges and more nodes. */
  lemma RaisedGraphWellFormed(g: Graph<string>, t: Dict)
    requires WellFormed(g)
    ensures WellFormed(RaisedGraph(g, t))
    ensures RaisedGraph(g, t).edges == g.edges && RaisedGraph(g, t).labels == g.labels
      && RaisedGraph(g, t).extras == g.extras
    ensures forall x :: x in g.nodes ==> x in RaisedGraph(g, t).nodes
  {
  }

  /** Adding a triple whose (subject, object) edge exists leaves the edges as they were. */
  lemma RepeatKeepsEdges(a: Adding, t: Dict)
    requires Accepted(t).Some? && (Accepted(t).value.0, Accepted(t).value.2) in a.graph.edges
    ensures AddTriple(a, t).graph.edges == a.graph.edges
  {
  }

  /**
   * Adding the same triple twice: the second time the edge count stays, and the edge ends up
   * with the triple's label.
   */
  lemma AddTwice(a: Adding, t: Dict)
    requires Accepted(t).Some? && !Raises(t)
    ensures var once := AddTriple(a, t);
      AddTriple(once, t).graph.edges == once.graph.edges
      && AddTriple(once, t).added == a.added + 2
      && AddTriple(once, t).graph.labels[(Accepted(t).value.0, Accepted(t).value.2)] == Accepted(t).value.1
  {
  }
}
