/**
 * `get_node_with_highest_degree`: the `(node, degree)` pairs in node order, sorted by degree
 * from high to low with Python's stable `sorted(..., reverse=True)`, cut with `[:top_k]`.
 */
module KgRank {
  import opened KgGraph

  type Scored<N> = (N, nat)

  /** `dict(graph.degree())`, in node order. */
  function DegreeList<N(==,!new)>(g: Graph<N>, ns: seq<N>): (r: seq<Scored<N>>)
    ensures |r| == |ns|
  {
    if ns == [] then [] else DegreeList(g, ns[..|ns| - 1]) + [(ns[|ns| - 1], Degree(g, ns[|ns| - 1]))]
  }

  lemma {:induction false} DegreeListAt<N(!new)>(g: Graph<N>, ns: seq<N>, i: nat)
    requires i < |ns|
    ensures DegreeList(g, ns)[i] == (ns[i], Degree(g, ns[i]))
    decreases |ns|
  {
    if i < |ns| - 1 {
      DegreeListAt(g, ns[..|ns| - 1], i);
    }
  }

  /** Degrees never increase along `s` (stated on the head, to unfold one step at a time). */
  predicate Descending<N>(s: seq<Scored<N>>)
    decreases |s|
  {
    |s| <= 1 || (s[0].1 >= s[1].1 && Descending(s[1..]))
  }

  /** The pairwise reading of `Descending`. */
  lemma {:induction false} DescendingAt<N>(s: seq<Scored<N>>, i: nat, j: nat)
    requires Descending(s) && i <= j < |s|
    ensures s[i].1 >= s[j].1
    decreases |s|
  {
    if i < j {
      DescendingAt(s[1..], if i == 0 then 0 else i - 1, j - 1);
      assert s[1..][j - 1] == s[j];
      if i > 0 {
        assert s[1..][i - 1] == s[i];
      }
    }
  }

  /** Puts `x` after every element whose degree is at least its own. */
  function Insert<N>(x: Scored<N>, s: seq<Scored<N>>): seq<Scored<N>>
    decreases |s|
  {
    if s == [] then [x] else if s[0].1 >= x.1 then [s[0]] + Insert(x, s[1..]) else [x] + s
  }

  /** The stable reverse sort of the `(node, degree)` pairs, by degree. */
  function SortByDegree<N>(s: seq<Scored<N>>): seq<Scored<N>>
    decreases |s|
  {
    if s == [] then [] else Insert(s[|s| - 1], SortByDegree(s[..|s| - 1]))
  }

  lemma InsertFacts<N>(x: Scored<N>, s: seq<Scored<N>>)
    requires Descending(s)
    ensures Descending(Insert(x, s))
    ensures multiset(Insert(x, s)) == multiset(s) + multiset{x}
    ensures |Insert(x, s)| == |s| + 1
  {
    InsertSorted(x, s);
    InsertPerm(x, s);
  }

  lemma {:induction false} InsertSorted<N>(x: Scored<N>, s: seq<Scored<N>>)
    requires Descending(s)
    ensures Descending(Insert(x, s))
    ensures Insert(x, s)[0] == (if s != [] && s[0].1 >= x.1 then s[0] else x)
    decreases |s|
  {
    if s != [] && s[0].1 >= x.1 {
      var t := s[1..];
      InsertSorted(x, t);
      var r := Insert(x, t);
      assert ([s[0]] + r)[1..] == r;
      if t != [] {
        assert t[0] == s[1];
      }
    } else if s != [] {
      assert ([x] + s)[1..] == s;
    }
  }

  lemma {:induction false} InsertPerm<N>(x: Scored<N>, s: seq<Scored<N>>)
    ensures multiset(Insert(x, s)) == multiset(s) + multiset{x}
    ensures |Insert(x, s)| == |s| + 1
    decreases |s|
  {
    if s != [] && s[0].1 >= x.1 {
      InsertPerm(x, s[1..]);
      assert s == [s[0]] + s[1..];
    }
  }

  /** The sort is ordered by degree and a permutation of its input. */
  lemma {:induction false} SortFacts<N>(s: seq<Scored<N>>)
    ensures Descending(SortByDegree(s))
    ensures multiset(SortByDegree(s)) == multiset(s)
    ensures |SortByDegree(s)| == |s|
    decreases |s|
  {
    if s != [] {
      var init, x := s[..|s| - 1], s[|s| - 1];
      var t := SortByDegree(init);
      assert SortByDegree(s) == Insert(x, t);
      SortFacts(init);
      InsertFacts(x, t);
      assert s == init + [x];
      assert multiset(s) == multiset(init) + multiset{x};
    }
  }

  /** The elements of degree `d`, in order. */
  function WithDegree<N>(s: seq<Scored<N>>, d: nat): seq<Scored<N>>
    decreases |s|
  {
    if s == [] then [] else (if s[0].1 == d then [s[0]] else []) + WithDegree(s[1..], d)
  }

  lemma {:induction false} WithDegreeAppend<N>(a: seq<Scored<N>>, b: seq<Scored<N>>, d: nat)
    ensures WithDegree(a + b, d) == WithDegree(a, d) + WithDegree(b, d)
    decreases |a|
  {
    if a != [] {
      WithDegreeAppend(a[1..], b, d);
      assert (a + b)[1..] == a[1..] + b && (a + b)[0] == a[0];
      var h := if a[0].1 == d then [a[0]] else [];
      assert WithDegree(a + b, d) == h + WithDegree(a[1..] + b, d);
      assert WithDegree(a, d) == h + WithDegree(a[1..], d);
    } else {
      assert a + b == b;
    }
  }

  /** Inserting into a sorted list puts `x` behind every element of its degree. */
  lemma {:induction false} InsertStable<N>(x: Scored<N>, s: seq<Scored<N>>, d: nat)
    requires Descending(s)
    ensures WithDegree(Insert(x, s), d) == WithDegree(s, d) + (if x.1 == d then [x] else [])
    decreases |s|
  {
    if s == [] {
    } else if s[0].1 >= x.1 {
      var t := s[1..];
      InsertStable(x, t, d);
      assert ([s[0]] + Insert(x, t))[1..] == Insert(x, t);
    } else if x.1 == d {
      NoneOfDegree(s, d);
      assert ([x] + s)[1..] == s;
    } else {
      assert ([x] + s)[1..] == s;
    }
  }

  /** Every element of a sorted list headed below `d` is below `d`. */
  lemma {:induction false} NoneOfDegree<N>(s: seq<Scored<N>>, d: nat)
    requires Descending(s) && (s != [] ==> s[0].1 < d)
    ensures WithDegree(s, d) == []
    decreases |s|
  {
    if s != [] {
      var t := s[1..];
      if t != [] {
        assert t[0] == s[1];
      }
      NoneOfDegree(t, d);
    }
  }

  /** Stability: the elements of any one degree keep their input order. */
  lemma {:induction false} SortStable<N>(s: seq<Scored<N>>, d: nat)
    ensures WithDegree(SortByDegree(s), d) == WithDegree(s, d)
    decreases |s|
  {
    if s != [] {
      var init, x := s[..|s| - 1], s[|s| - 1];
      var t := SortByDegree(init);
      assert SortByDegree(s) == Insert(x, t);
      SortStable(init, d);
      SortFacts(init);
      InsertStable(x, t, d);
      assert s == init + [x];
      WithDegreeAppend(init, [x], d);
      assert WithDegree([x], d) == (if x.1 == d then [x] else []) by {
        assert [x][1..] == [];
      }
    }
  }

  /** Python's `s[:k]`: a negative `k` counts from the end. */
  function PyTake<T>(s: seq<T>, k: int): (r: seq<T>)
    ensures 0 <= k ==> |r| == if k < |s| then k else |s|
    ensures k < 0 ==> |r| == if |s| + k > 0 then |s| + k else 0
    ensures r <= s
  {
    if k >= 0 then (if k < |s| then s[..k] else s)
    else if |s| + k > 0 then s[..|s| + k] else []
  }

  /** One entry of the result: `entity`, `degree`, `in_degree`, `out_degree`. */
  datatype Ranked<N> = Ranked(entity: N, degree: nat, inDegree: nat, outDegree: nat)

  function RankedRows<N(==,!new)>(g: Graph<N>, s: seq<Scored<N>>): (r: seq<Ranked<N>>)
    ensures |r| == |s|
    decreases |s|
  {
    if s == [] then []
    else RankedRows(g, s[..|s| - 1]) + [Ranked(s[|s| - 1].0, s[|s| - 1].1, InDegree(g, s[|s| - 1].0), OutDegree(g, s[|s| - 1].0))]
  }

  lemma {:induction false} RankedRowsAt<N(!new)>(g: Graph<N>, s: seq<Scored<N>>, i: nat)
    requires i < |s|
    ensures RankedRows(g, s)[i] == Ranked(s[i].0, s[i].1, InDegree(g, s[i].0), OutDegree(g, s[i].0))
    decreases |s|
  {
    if i < |s| - 1 {
      RankedRowsAt(g, s[..|s| - 1], i);
    }
  }

  /** `get_node_with_highest_degree(top_k)`. */
  function HighestDegree<N(==,!new)>(g: Graph<N>, topK: int): seq<Ranked<N>> {
    RankedRows(g, PyTake(SortByDegree(DegreeList(g, g.nodes)), topK))
  }

  /**
   * At most `top_k` entries (fewer for a negative `top_k`), each a node with its in-degree,
   * out-degree and their sum, in non-increasing order of degree.
   */
  lemma HighestDegreeFacts<N(!new)>(g: Graph<N>, topK: int)
    ensures var r := HighestDegree(g, topK);
      |r| <= |g.nodes| && (topK >= 0 ==> |r| <= topK)
      && (forall i :: 0 <= i < |r| ==>
            (r[i].entity in g.nodes && r[i].degree == r[i].inDegree + r[i].outDegree == Degree(g, r[i].entity)))
      && (forall i :: 0 < i < |r| ==> r[i - 1].degree >= r[i].degree)
  {
    var all := DegreeList(g, g.nodes);
    var sorted := SortByDegree(all);
    SortLength(all);
    var kept := PyTake(sorted, topK);
    var r := HighestDegree(g, topK);
    forall i | 0 <= i < |r|
      ensures r[i].entity in g.nodes && r[i].degree == r[i].inDegree + r[i].outDegree == Degree(g, r[i].entity)
    {
      RankedRowsAt(g, kept, i);
      assert kept[i] == sorted[i];
      SortedRow(g, i);
    }
    forall i | 0 < i < |r|
      ensures r[i - 1].degree >= r[i].degree
    {
      RankedRowsAt(g, kept, i);
      RankedRowsAt(g, kept, i - 1);
      assert kept[i] == sorted[i] && kept[i - 1] == sorted[i - 1];
      SortedPair(all, i - 1, i);
    }
  }

  /** The entries are the top ones: no node left out has a higher degree than the last one kept. */
  lemma HighestDegreeTop<N(!new)>(g: Graph<N>, topK: int, n: N)
    requires n in g.nodes && |HighestDegree(g, topK)| > 0
    requires forall i :: 0 <= i < |HighestDegree(g, topK)| ==> HighestDegree(g, topK)[i].entity != n
    ensures Degree(g, n) <= HighestDegree(g, topK)[|HighestDegree(g, topK)| - 1].degree
  {
    var all := DegreeList(g, g.nodes);
    var sorted := SortByDegree(all);
    SortFacts(all);
    var kept := PyTake(sorted, topK);
    var r := HighestDegree(g, topK);
    var j :| 0 <= j < |g.nodes| && g.nodes[j] == n;
    DegreeListAt(g, g.nodes, j);
    assert all[j] in multiset(sorted);
    var p :| 0 <= p < |sorted| && sorted[p] == all[j];
    forall i | 0 <= i < |kept| ensures sorted[i].0 != n {
      RankedRowsAt(g, kept, i);
      assert kept[i] == sorted[i];
    }
    RankedRowsAt(g, kept, |kept| - 1);
    assert kept[|kept| - 1] == sorted[|kept| - 1];
    PastPrefix(sorted, |kept|, p);
  }

  /** In a sorted list, an element whose node is not among the first `k` ranks no higher than the `k`-th. */
  lemma PastPrefix<N>(s: seq<Scored<N>>, k: nat, p: nat)
    requires Descending(s) && 0 < k <= |s| && p < |s|
    requires forall i :: 0 <= i < k ==> s[i].0 != s[p].0
    ensures s[p].1 <= s[k - 1].1
  {
    DescendingAt(s, k - 1, p);
  }

  lemma SortLength<N>(s: seq<Scored<N>>)
    ensures |SortByDegree(s)| == |s|
  {
    SortFacts(s);
  }

  lemma SortedPair<N>(s: seq<Scored<N>>, i: nat, j: nat)
    requires i <= j < |s|
    ensures |SortByDegree(s)| == |s| && SortByDegree(s)[i].1 >= SortByDegree(s)[j].1
  {
    SortFacts(s);
    DescendingAt(SortByDegree(s), i, j);
  }

  /** Each sorted pair is a node with its degree. */
  lemma SortedRow<N(!new)>(g: Graph<N>, i: nat)
    requires i < |g.nodes|
    ensures i < |SortByDegree(DegreeList(g, g.nodes))|
    ensures var p := SortByDegree(DegreeList(g, g.nodes))[i]; p.0 in g.nodes && p.1 == Degree(g, p.0)
  {
    var all := DegreeList(g, g.nodes);
    var sorted := SortByDegree(all);
    SortFacts(all);
    assert sorted[i] in multiset(all);
    var j :| 0 <= j < |all| && all[j] == sorted[i];
    DegreeListAt(g, g.nodes, j);
  }

  /** The sort is a stable reordering of the nodes by degree. */
  lemma SortedDegrees<N(!new)>(g: Graph<N>, d: nat)
    ensures multiset(SortByDegree(DegreeList(g, g.nodes))) == multiset(DegreeList(g, g.nodes))
    ensures Descending(SortByDegree(DegreeList(g, g.nodes)))
    ensures WithDegree(SortByDegree(DegreeList(g, g.nodes)), d) == WithDegree(DegreeList(g, g.nodes), d)
  {
    SortFacts(DegreeList(g, g.nodes));
    SortStable(DegreeList(g, g.nodes), d);
  }
}
