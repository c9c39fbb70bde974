/**
 * `find_related_entities`: a breadth-first search from one entity that follows edges in both
 * directions (successors before predecessors) and reports every node the first time it is
 * seen, with the level it was found at, the node it was found from, and the edges between the
 * two.
 */
module KgSearch {
  import opened Json
  import opened KgGraph
  import opened KgReach

  datatype Direction = Out | In

  /** One entry of `relationships`: the edge's `direction`, its `label` (`edgeLabel`), and its other data. */
  datatype EdgeInfo = EdgeInfo(direction: Direction, edgeLabel: string, data: Dict)

  /** One entry of the result: `entity`, `hops`, `source` and `relationships`. */
  datatype Related<N> = Related(entity: N, hops: int, source: N, relationships: seq<EdgeInfo>)

  /** The edges between `node` and `nb`: first `node -> nb`, then `nb -> node`. */
  function Relationships<N(==,!new)>(g: Graph<N>, node: N, nb: N): seq<EdgeInfo> {
    (if (node, nb) in g.edges then [EdgeInfo(Out, LabelOf(g, (node, nb)), ExtrasOf(g, (node, nb)))] else [])
    + (if (nb, node) in g.edges then [EdgeInfo(In, LabelOf(g, (nb, node)), ExtrasOf(g, (nb, node)))] else [])
  }

  /** An `out` entry is there exactly when `node -> nb` is an edge, an `in` entry exactly when `nb -> node` is. */
  lemma RelationshipsFacts<N(!new)>(g: Graph<N>, node: N, nb: N)
    ensures |Relationships(g, node, nb)| <= 2
    ensures (exists i :: 0 <= i < |Relationships(g, node, nb)| && Relationships(g, node, nb)[i].direction == Out)
            <==> (node, nb) in g.edges
    ensures (exists i :: 0 <= i < |Relationships(g, node, nb)| && Relationships(g, node, nb)[i].direction == In)
            <==> (nb, node) in g.edges
    ensures forall i :: 0 <= i < |Relationships(g, node, nb)| ==>
      var r := Relationships(g, node, nb)[i];
      r.edgeLabel == LabelOf(g, if r.direction == Out then (node, nb) else (nb, node))
      && r.data == ExtrasOf(g, if r.direction == Out then (node, nb) else (nb, node))
  {
    var rs := Relationships(g, node, nb);
    if (node, nb) in g.edges {
      assert rs[0].direction == Out;
    }
    if (nb, node) in g.edges {
      assert rs[|rs| - 1].direction == In;
    }
  }

  /** `list(successors(node)) + list(predecessors(node))`. */
  function Neighbors<N(==,!new)>(g: Graph<N>, node: N): seq<N> {
    Successors(g, node) + Predecessors(g, node)
  }

  lemma NeighborsAdjacent<N(!new)>(g: Graph<N>, node: N, x: N)
    ensures x in Neighbors(g, node) <==> Adjacent(g, node, x)
  {
    SuccessorsMembers(g, node, x);
    PredecessorsMembers(g, node, x);
  }

  /** The search state: `visited`, `next_level` of the round under way, and `related`. */
  datatype Search<N> = Search(visited: set<N>, next: seq<N>, found: seq<Related<N>>)

  /** The body of the innermost loop, for neighbour `nb` of `node` in round `hop`. */
  function Visit<N(==,!new)>(g: Graph<N>, s: Search<N>, hop: nat, node: N, nb: N): Search<N> {
    if nb in s.visited then s
    else Search(s.visited + {nb}, s.next + [nb], s.found + [Related(nb, hop + 1, node, Relationships(g, node, nb))])
  }

  /** The loop over the neighbours of `node`. */
  function VisitAll<N(==,!new)>(g: Graph<N>, s: Search<N>, hop: nat, node: N, nbs: seq<N>): Search<N> {
    if nbs == [] then s else Visit(g, VisitAll(g, s, hop, node, nbs[..|nbs| - 1]), hop, node, nbs[|nbs| - 1])
  }

  /** The loop over the nodes of the current level. */
  function VisitLevel<N(==,!new)>(g: Graph<N>, s: Search<N>, hop: nat, level: seq<N>): Search<N> {
    if level == [] then s
    else
      var node := level[|level| - 1];
      VisitAll(g, VisitLevel(g, s, hop, level[..|level| - 1]), hop, node, Neighbors(g, node))
  }

  /** Rounds `hop`, `hop + 1`, ... below `maxHops`, stopping after a round that finds nothing. */
  function Rounds<N(==,!new)>(g: Graph<N>, visited: set<N>, level: seq<N>, found: seq<Related<N>>, hop: nat, maxHops: int)
    : seq<Related<N>>
    decreases maxHops - hop
  {
    if hop >= maxHops then found
    else
      var s := VisitLevel(g, Search(visited, [], found), hop, level);
      if s.next == [] then s.found else Rounds(g, s.visited, s.next, s.found, hop + 1, maxHops)
  }

  /** `find_related_entities(entity, max_hops)`. */
  function FindRelated<N(==,!new)>(g: Graph<N>, entity: N, maxHops: int): seq<Related<N>> {
    if entity !in g.nodes then [] else Rounds(g, {entity}, [entity], [], 0, maxHops)
  }

  // ------------------------------------------------------------ what the search keeps

  function Entities<N>(found: seq<Related<N>>): (r: seq<N>)
    ensures |r| == |found|
  {
    if found == [] then [] else Entities(found[..|found| - 1]) + [found[|found| - 1].entity]
  }

  lemma {:induction false} EntitiesAt<N>(found: seq<Related<N>>, k: nat)
    requires k < |found|
    ensures Entities(found)[k] == found[k].entity
  {
    if k < |found| - 1 {
      EntitiesAt(found[..|found| - 1], k);
    }
  }

  lemma EntitiesSnoc<N>(found: seq<Related<N>>, r: Related<N>)
    ensures Entities(found + [r]) == Entities(found) + [r.entity]
  {
    assert (found + [r])[..|found|] == found;
  }

  /**
   * Entry `r`, reported after the entries `before`, was found from a neighbour: it carries the
   * edges between the two, a first-level entry was found from the start, and a deeper one from
   * an earlier entry one level up.
   */
  predicate EntryOk<N(==,!new)>(g: Graph<N>, start: N, before: seq<Related<N>>, r: Related<N>) {
    r.hops >= 1 && Adjacent(g, r.source, r.entity)
    && r.relationships == Relationships(g, r.source, r.entity)
    && (r.hops == 1 ==> r.source == start)
    && (r.hops > 1 ==> AtLevel(start, before, r.source, r.hops - 1))
  }

  /**
   * What the reported list keeps while every entry so far has `hops <= bound`: distinct
   * entities, never the start, each entry sound, and levels in non-decreasing order.
   */
  predicate FoundOk<N(==,!new)>(g: Graph<N>, start: N, found: seq<Related<N>>, bound: int) {
    Distinct(Entities(found)) && start !in Entities(found)
    && (forall k :: 0 <= k < |found| ==> EntryOk(g, start, found[..k], found[k]) && found[k].hops <= bound)
    && Ascending(found)
  }

  /** Levels never decrease along the list (stated on the last entry, to unfold one step at a time). */
  predicate Ascending<N>(found: seq<Related<N>>) {
    |found| <= 1 || (Ascending(found[..|found| - 1]) && found[|found| - 2].hops <= found[|found| - 1].hops)
  }

  /** The pairwise reading of `Ascending`. */
  lemma {:induction false} AscendingPairs<N>(found: seq<Related<N>>, i: nat, j: nat)
    requires Ascending(found) && i <= j < |found|
    ensures found[i].hops <= found[j].hops
  {
    if j == |found| - 1 && i < j {
      var init := found[..|found| - 1];
      AscendingPairs(init, i, j - 1);
      assert init[i] == found[i] && init[j - 1] == found[j - 1];
    } else if i < j {
      var init := found[..|found| - 1];
      AscendingPairs(init, i, j);
      assert init[i] == found[i] && init[j] == found[j];
    }
  }

  /** `visited` is the start plus every entity reported. */
  predicate VisitedOk<N(==)>(start: N, visited: set<N>, found: seq<Related<N>>) {
    start in visited
    && (forall x :: x in visited ==> x == start || x in Entities(found))
    && (forall x :: x in Entities(found) ==> x in visited)
  }

  /** The search invariant. */
  predicate Good<N(==,!new)>(g: Graph<N>, start: N, s: Search<N>, bound: int) {
    VisitedOk(start, s.visited, s.found) && FoundOk(g, start, s.found, bound)
  }

  lemma VisitedSnoc<N>(start: N, visited: set<N>, found: seq<Related<N>>, r: Related<N>)
    requires VisitedOk(start, visited, found)
    ensures VisitedOk(start, visited + {r.entity}, found + [r])
  {
    EntitiesSnoc(found, r);
  }

  lemma LevelSnoc<N>(start: N, found: seq<Related<N>>, next: seq<N>, r: Related<N>, hop: int)
    requires LevelOk(start, found, next, hop) && r.hops == hop
    ensures LevelOk(start, found + [r], next + [r.entity], hop)
  {
    LevelOkExtends(start, found, found + [r], next, hop);
    assert (found + [r])[|found|] == r;
    assert AtLevel(start, found + [r], r.entity, hop);
  }

  /** `n` is the start in round 0, or an entity found at level `hop`. */
  predicate AtLevel<N(==)>(start: N, found: seq<Related<N>>, n: N, hop: int) {
    (hop == 0 && n == start) || exists j :: 0 <= j < |found| && found[j].entity == n && found[j].hops == hop
  }

  predicate LevelOk<N(==)>(start: N, found: seq<Related<N>>, level: seq<N>, hop: int) {
    forall n :: n in level ==> AtLevel(start, found, n, hop)
  }

  lemma AtLevelExtends<N>(start: N, found: seq<Related<N>>, found': seq<Related<N>>, n: N, hop: int)
    requires found <= found' && AtLevel(start, found, n, hop)
    ensures AtLevel(start, found', n, hop)
  {
    if !(hop == 0 && n == start) {
      var j :| 0 <= j < |found| && found[j].entity == n && found[j].hops == hop;
      assert found'[j] == found[j];
    }
  }

  lemma LevelOkExtends<N>(start: N, found: seq<Related<N>>, found': seq<Related<N>>, level: seq<N>, hop: int)
    requires found <= found' && LevelOk(start, found, level, hop)
    ensures LevelOk(start, found', level, hop)
  {
    forall n | n in level
      ensures AtLevel(start, found', n, hop)
    {
      AtLevelExtends(start, found, found', n, hop);
    }
  }

  /** A newly reported entry is sound. */
  lemma NewEntryOk<N(!new)>(g: Graph<N>, start: N, found: seq<Related<N>>, hop: nat, node: N, nb: N)
    requires FoundOk(g, start, found, hop + 1) && AtLevel(start, found, node, hop) && Adjacent(g, node, nb)
    ensures EntryOk(g, start, found, Related(nb, hop + 1, node, Relationships(g, node, nb)))
  {
  }

  /** Appending a sound entry for a new entity at the deepest level keeps `FoundOk`. */
  lemma {:induction false} FoundOkSnoc<N(!new)>(g: Graph<N>, start: N, found: seq<Related<N>>, r: Related<N>, bound: int)
    requires FoundOk(g, start, found, bound) && r.entity !in Entities(found) && r.entity != start
    requires EntryOk(g, start, found, r) && r.hops <= bound
    requires found != [] ==> found[|found| - 1].hops <= r.hops
    ensures FoundOk(g, start, found + [r], bound)
  {
    var found' := found + [r];
    EntitiesSnoc(found, r);
    DistinctSnoc(Entities(found), r.entity);
    forall k | 0 <= k < |found|
      ensures found'[..k] == found[..k] && found'[k] == found[k]
    {
    }
    assert found'[..|found|] == found && found'[|found|] == r;
    if found != [] {
      assert found'[|found'| - 2] == found[|found| - 1];
    }
  }

  /** One visit keeps the invariant, reports only at level `hop + 1`, and only appends. */
  lemma {:induction false} VisitKeeps<N(!new)>(g: Graph<N>, start: N, s: Search<N>, hop: nat, node: N, nb: N)
    requires Good(g, start, s, hop + 1) && LevelOk(start, s.found, s.next, hop + 1)
    requires AtLevel(start, s.found, node, hop) && Adjacent(g, node, nb)
    ensures var t := Visit(g, s, hop, node, nb);
      Good(g, start, t, hop + 1) && LevelOk(start, t.found, t.next, hop + 1) && s.found <= t.found
      && s.visited <= t.visited && nb in t.visited
  {
    if nb !in s.visited {
      var r := Related(nb, hop + 1, node, Relationships(g, node, nb));
      NewEntryOk(g, start, s.found, hop, node, nb);
      FoundOkSnoc(g, start, s.found, r, hop + 1);
      VisitedSnoc(start, s.visited, s.found, r);
      LevelSnoc(start, s.found, s.next, r, hop + 1);
    }
  }

  lemma PrefixTrans<T>(a: seq<T>, b: seq<T>, c: seq<T>)
    requires a <= b && b <= c
    ensures a <= c
  {
    assert c[..|a|] == b[..|a|];
  }

  /** The neighbour loop keeps the invariant. */
  lemma {:induction false} VisitAllKeeps<N(!new)>(g: Graph<N>, start: N, s: Search<N>, hop: nat, node: N, nbs: seq<N>)
    requires Good(g, start, s, hop + 1) && LevelOk(start, s.found, s.next, hop + 1)
    requires AtLevel(start, s.found, node, hop) && forall i :: 0 <= i < |nbs| ==> Adjacent(g, node, nbs[i])
    ensures var t := VisitAll(g, s, hop, node, nbs);
      Good(g, start, t, hop + 1) && LevelOk(start, t.found, t.next, hop + 1) && s.found <= t.found
    decreases |nbs|
  {
    if nbs != [] {
      var init := nbs[..|nbs| - 1];
      assert forall i :: 0 <= i < |init| ==> init[i] == nbs[i];
      VisitAllKeeps(g, start, s, hop, node, init);
      var p := VisitAll(g, s, hop, node, init);
      AtLevelExtends(start, s.found, p.found, node, hop);
      VisitKeeps(g, start, p, hop, node, nbs[|nbs| - 1]);
      PrefixTrans(s.found, p.found, VisitAll(g, s, hop, node, nbs).found);
    }
  }

  /** After the neighbour loop every neighbour is visited. */
  lemma {:induction false} VisitAllCovers<N(!new)>(g: Graph<N>, s: Search<N>, hop: nat, node: N, nbs: seq<N>)
    ensures s.visited <= VisitAll(g, s, hop, node, nbs).visited
    ensures forall i :: 0 <= i < |nbs| ==> nbs[i] in VisitAll(g, s, hop, node, nbs).visited
    decreases |nbs|
  {
    if nbs != [] {
      var init := nbs[..|nbs| - 1];
      VisitAllCovers(g, s, hop, node, init);
      assert forall i :: 0 <= i < |init| ==> init[i] == nbs[i];
    }
  }

  /** A whole round keeps the invariant. */
  lemma {:induction false} VisitLevelKeeps<N(!new)>(g: Graph<N>, start: N, s: Search<N>, hop: nat, level: seq<N>)
    requires Good(g, start, s, hop + 1) && LevelOk(start, s.found, s.next, hop + 1)
    requires LevelOk(start, s.found, level, hop)
    ensures var t := VisitLevel(g, s, hop, level);
      Good(g, start, t, hop + 1) && LevelOk(start, t.found, t.next, hop + 1) && s.found <= t.found
    decreases |level|
  {
    if level != [] {
      var init := level[..|level| - 1];
      var node := level[|level| - 1];
      assert forall x :: x in init ==> x in level;
      VisitLevelKeeps(g, start, s, hop, init);
      var p := VisitLevel(g, s, hop, init);
      AtLevelExtends(start, s.found, p.found, node, hop);
      var nbs := Neighbors(g, node);
      forall i | 0 <= i < |nbs|
        ensures Adjacent(g, node, nbs[i])
      {
        NeighborsAdjacent(g, node, nbs[i]);
      }
      VisitAllKeeps(g, start, p, hop, node, nbs);
      PrefixTrans(s.found, p.found, VisitLevel(g, s, hop, level).found);
    }
  }

  /** The rounds keep the invariant; the reported list only grows. */
  lemma {:induction false} RoundsKeep<N(!new)>(g: Graph<N>, start: N, visited: set<N>, level: seq<N>,
                                            found: seq<Related<N>>, hop: nat, maxHops: int)
    requires Good(g, start, Search(visited, [], found), hop) && LevelOk(start, found, level, hop)
    ensures FoundOk(g, start, Rounds(g, visited, level, found, hop, maxHops), if maxHops > hop then maxHops else hop)
    ensures found <= Rounds(g, visited, level, found, hop, maxHops)
    decreases maxHops - hop
  {
    if hop < maxHops {
      var s := VisitLevel(g, Search(visited, [], found), hop, level);
      VisitLevelKeeps(g, start, Search(visited, [], found), hop, level);
      if s.next == [] {
        FoundOkWeaken(g, start, s.found, hop + 1, maxHops);
      } else {
        RoundsKeep(g, start, s.visited, s.next, s.found, hop + 1, maxHops);
      }
    }
  }

  lemma FoundOkWeaken<N(!new)>(g: Graph<N>, start: N, found: seq<Related<N>>, b: int, b': int)
    requires FoundOk(g, start, found, b) && b <= b'
    ensures FoundOk(g, start, found, b')
  {
  }

  // ------------------------------------------------------------ what `find_related_entities` promises

  /**
   * Every entry names a distinct entity other than the start, at a level from 1 to `maxHops`,
   * together with the edges between it and the neighbour it was found from.  First-level entries
   * were found from the start, deeper ones from an earlier entry one level up, and levels never
   * decrease along the list.
   */
  lemma FindRelatedSound<N(!new)>(g: Graph<N>, entity: N, maxHops: int)
    ensures FoundOk(g, entity, FindRelated(g, entity, maxHops), maxHops)
    ensures forall k :: 0 <= k < |FindRelated(g, entity, maxHops)| ==>
      1 <= FindRelated(g, entity, maxHops)[k].hops <= maxHops
  {
    if entity in g.nodes {
      RoundsKeep(g, entity, {entity}, [entity], [], 0, maxHops);
      if maxHops <= 0 {
        assert FindRelated(g, entity, maxHops) == [];
      }
    }
  }

  /** An absent entity or a non-positive `max_hops` gives `[]`. */
  lemma FindRelatedEmpty<N(!new)>(g: Graph<N>, entity: N, maxHops: int)
    requires entity !in g.nodes || maxHops <= 0
    ensures FindRelated(g, entity, maxHops) == []
  {
  }

  /** The first round reports every neighbour of the start, at level 1. */
  lemma FindRelatedNeighbors<N(!new)>(g: Graph<N>, entity: N, maxHops: int, x: N)
    requires entity in g.nodes && maxHops >= 1 && Adjacent(g, entity, x) && x != entity
    ensures exists k :: (0 <= k < |FindRelated(g, entity, maxHops)|
      && FindRelated(g, entity, maxHops)[k].entity == x && FindRelated(g, entity, maxHops)[k].hops == 1)
  {
    var s0 := Search({entity}, [], []);
    var s := VisitLevel(g, s0, 0, [entity]);
    assert [entity][..0] == [] && [entity][0] == entity;
    assert VisitLevel(g, s0, 0, []) == s0;
    assert s == VisitAll(g, s0, 0, entity, Neighbors(g, entity));
    assert Good(g, entity, s0, 1);
    assert AtLevel(entity, s0.found, entity, 0);
    var nbs := Neighbors(g, entity);
    forall i | 0 <= i < |nbs|
      ensures Adjacent(g, entity, nbs[i])
    {
      NeighborsAdjacent(g, entity, nbs[i]);
    }
    VisitAllKeeps(g, entity, s0, 0, entity, nbs);
    VisitAllCovers(g, s0, 0, entity, nbs);
    NeighborsAdjacent(g, entity, x);
    var i :| 0 <= i < |nbs| && nbs[i] == x;
    assert x in Entities(s.found);
    var k :| 0 <= k < |s.found| && Entities(s.found)[k] == x;
    EntitiesAt(s.found, k);
    assert EntryOk(g, entity, s.found[..k], s.found[k]);
    var result := FindRelated(g, entity, maxHops);
    if s.next != [] {
      RoundsKeep(g, entity, s.visited, s.next, s.found, 1, maxHops);
    }
    assert s.found <= result;
    assert result[k] == s.found[k];
  }

  /** An entry found at level `h` lies within `h` undirected steps of the start. */
  lemma {:induction false} FoundWithinReach<N(!new)>(g: Graph<N>, start: N, found: seq<Related<N>>, bound: int, k: nat)
    requires FoundOk(g, start, found, bound) && k < |found|
    ensures found[k].entity in Reach(g, {start}, found[k].hops)
    decreases k
  {
    var r := found[k];
    assert EntryOk(g, start, found[..k], r);
    if r.hops == 1 {
      assert Reach(g, {start}, 0) == {start};
      ExpandMembers(g, {start}, r.entity);
    } else {
      assert AtLevel(start, found[..k], r.source, r.hops - 1);
      var j :| 0 <= j < k && found[..k][j].entity == r.source && found[..k][j].hops == r.hops - 1;
      assert found[j] == found[..k][j];
      FoundWithinReach(g, start, found, bound, j);
      ExpandMembers(g, Reach(g, {start}, r.hops - 1), r.entity);
    }
  }

  /**
   * `find_related_entities(e, max_hops)` only reports nodes within `max_hops` undirected steps
   * of `e`: the nodes `get_subgraph_by_entities({e}, max_hops)` keeps.
   */
  lemma FindRelatedWithinReach<N(!new)>(g: Graph<N>, entity: N, maxHops: int, k: nat)
    requires k < |FindRelated(g, entity, maxHops)|
    ensures FindRelated(g, entity, maxHops)[k].entity in Reach(g, {entity}, maxHops)
  {
    var found := FindRelated(g, entity, maxHops);
    FindRelatedSound(g, entity, maxHops);
    FoundWithinReach(g, entity, found, maxHops, k);
    ReachGrows(g, {entity}, found[k].hops, maxHops);
  }
}
