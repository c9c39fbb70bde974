/** Normalisation of extracted triples with first-wins de-duplication, and its lemmas. */
module SpoNormal {
  import opened Wrappers
  import opened Strs
  import opened Json


  datatype NormTriple = NormTriple(subj: string, pred: string, obj: string, sourceChunk: Json)

  type Key = (string, string, string)

  /** Subjects and objects: stripped and lower-cased. */
  function NormEntity(s: string): string {
    Lower(Strip(s))
  }

  /** Predicates: stripped, lower-cased, whitespace runs collapsed to one space, stripped again. */
  function NormPredicate(p: string): string {
    Strip(Collapse(Lower(Strip(p))))
  }

  /** The normalised (subject, predicate, object) of a record, when all three are strings and none normalises to empty. */
  function KeyAt(t: Dict): Option<Key> {
    var s, p, o := Get(t, "subject"), Get(t, "predicate"), Get(t, "object");
    if IsStr(s) && IsStr(p) && IsStr(o) then
      var ns, np, no := NormEntity(s.value.s), NormPredicate(p.value.s), NormEntity(o.value.s);
      if ns != "" && np != "" && no != "" then Some((ns, np, no)) else None
    else None
  }

  function KeyOf(t: NormTriple): Key {
    (t.subj, t.pred, t.obj)
  }

  /** The keys of all records, position by position. */
  function RecordKeys(ts: seq<Dict>): (ks: seq<Option<Key>>)
    ensures |ks| == |ts|
  {
    if |ts| == 0 then [] else RecordKeys(ts[..|ts| - 1]) + [KeyAt(ts[|ts| - 1])]
  }

  /** The key recorded for position `i` is the key of record `i`. */
  lemma {:induction false} RecordKeyAt(ts: seq<Dict>, i: nat)
    requires i < |ts|
    ensures RecordKeys(ts)[i] == KeyAt(ts[i])
  {
    if i < |ts| - 1 {
      RecordKeyAt(ts[..|ts| - 1], i);
      assert ts[..|ts| - 1][i] == ts[i];
    }
  }

  lemma RecordKeysAt(ts: seq<Dict>)
    ensures forall i :: 0 <= i < |ts| ==> RecordKeys(ts)[i] == KeyAt(ts[i])
  {
    forall i | 0 <= i < |ts| ensures RecordKeys(ts)[i] == KeyAt(ts[i]) {
      RecordKeyAt(ts, i);
    }
  }

  /** Position `i` holds a key that no earlier position holds. */
  predicate IsFirst<K(==)>(ks: seq<Option<K>>, i: nat)
    requires i < |ks|
  {
    ks[i].Some? && forall j :: 0 <= j < i ==> ks[j] != ks[i]
  }

  /**
   * Reference definition of first-wins de-duplication: the positions among the first `n` that
   * hold the first occurrence of their key, in increasing order.
   */
  function FirstPositions<K(==)>(ks: seq<Option<K>>, n: nat): (ps: seq<nat>)
    requires n <= |ks|
    ensures forall p :: 0 <= p < |ps| ==> ps[p] < n
  {
    if n == 0 then [] else FirstPositions(ks, n - 1) + (if IsFirst(ks, n - 1) then [n - 1] else [])
  }

  /** The first positions are first occurrences, in strictly increasing order. */
  lemma {:induction false} FirstPositionsOrdered<K>(ks: seq<Option<K>>, n: nat)
    requires n <= |ks|
    ensures forall p :: 0 <= p < |FirstPositions(ks, n)| ==> IsFirst(ks, FirstPositions(ks, n)[p])
    ensures forall p, q :: 0 <= p < q < |FirstPositions(ks, n)| ==> FirstPositions(ks, n)[p] < FirstPositions(ks, n)[q]
  {
    if n > 0 {
      FirstPositionsOrdered(ks, n - 1);
      var prev := FirstPositions(ks, n - 1);
      var ps := FirstPositions(ks, n);
      assert ps == prev + (if IsFirst(ks, n - 1) then [n - 1] else []);
      assert forall p :: 0 <= p < |prev| ==> ps[p] == prev[p];
    }
  }

  /** The first positions hold pairwise different keys. */
  lemma FirstPositionsDistinct<K>(ks: seq<Option<K>>, n: nat)
    requires n <= |ks|
    ensures var ps := FirstPositions(ks, n);
      forall p, q :: 0 <= p < q < |ps| ==> ks[ps[p]] != ks[ps[q]]
  {
    var ps := FirstPositions(ks, n);
    FirstPositionsOrdered(ks, n);
    forall p, q | 0 <= p < q < |ps| ensures ks[ps[p]] != ks[ps[q]] {
      assert ps[p] < ps[q] && IsFirst(ks, ps[q]);
    }
  }

  /** The key at position `i` is held by one of the first positions among the first `n`. */
  predicate KeptAt<K(==)>(ks: seq<Option<K>>, n: nat, i: nat)
    requires i < |ks| && n <= |ks|
  {
    exists p :: 0 <= p < |FirstPositions(ks, n)| && ks[FirstPositions(ks, n)[p]] == ks[i]
  }

  /** Every key among the first `n` positions is held by some first position: nothing is lost. */
  lemma FirstPositionsComplete<K>(ks: seq<Option<K>>, n: nat)
    requires n <= |ks|
    ensures forall i {:trigger KeptAt(ks, n, i)} :: 0 <= i < n && ks[i].Some? ==> KeptAt(ks, n, i)
  {
    forall i | 0 <= i < n && ks[i].Some? ensures KeptAt(ks, n, i) {
      FirstPositionFor(ks, n, i);
    }
  }

  lemma {:induction false} FirstPositionFor<K>(ks: seq<Option<K>>, n: nat, i: nat)
    requires i < n <= |ks| && ks[i].Some?
    ensures KeptAt(ks, n, i)
  {
    var prev := FirstPositions(ks, n - 1);
    var ps := FirstPositions(ks, n);
    assert ps == prev + (if IsFirst(ks, n - 1) then [n - 1] else []);
    if i == n - 1 && IsFirst(ks, n - 1) {
      assert ps[|prev|] == i;
    } else {
      var j := i;
      if i == n - 1 {
        j :| 0 <= j < n - 1 && ks[j] == ks[n - 1];
      }
      FirstPositionFor(ks, n - 1, j);
      var p :| 0 <= p < |prev| && ks[prev[p]] == ks[j];
      assert ps[p] == prev[p];
    }
  }

  /** When all keys are present and pairwise different, every position is a first position. */
  lemma {:induction false} FirstPositionsAllDistinct<K>(ks: seq<Option<K>>, n: nat)
    requires n <= |ks|
    requires forall i :: 0 <= i < |ks| ==> ks[i].Some?
    requires forall i, j :: 0 <= i < j < |ks| ==> ks[i] != ks[j]
    ensures |FirstPositions(ks, n)| == n
    ensures forall p :: 0 <= p < n ==> FirstPositions(ks, n)[p] == p
  {
    if n > 0 {
      FirstPositionsAllDistinct(ks, n - 1);
      assert IsFirst(ks, n - 1);
    }
  }

  /** The triple emitted for record `t` with key `k`: the key and the record's `chunk`, or "unknown". */
  function MakeTriple(k: Key, t: Dict): NormTriple {
    NormTriple(k.0, k.1, k.2, GetOr(t, "chunk", JStr("unknown")))
  }

  /** The triples emitted for the positions `ps`, in order (a position without a key emits nothing). */
  function TriplesAt(ts: seq<Dict>, ks: seq<Option<Key>>, ps: seq<nat>): (r: seq<NormTriple>)
    ensures |r| <= |ps|
  {
    if ps == [] then []
    else
      var j := ps[|ps| - 1];
      TriplesAt(ts, ks, ps[..|ps| - 1])
        + (if j < |ts| && j < |ks| && ks[j].Some? then [MakeTriple(ks[j].value, ts[j])] else [])
  }

  /** At positions that all hold keys, `TriplesAt` emits exactly one triple per position. */
  lemma {:induction false} TriplesAtAt(ts: seq<Dict>, ks: seq<Option<Key>>, ps: seq<nat>)
    requires |ks| == |ts|
    requires forall p :: 0 <= p < |ps| ==> ps[p] < |ts| && ks[ps[p]].Some?
    ensures |TriplesAt(ts, ks, ps)| == |ps|
    ensures forall p :: 0 <= p < |ps| ==> TriplesAt(ts, ks, ps)[p] == MakeTriple(ks[ps[p]].value, ts[ps[p]])
  {
    if ps != [] {
      var q, j := ps[..|ps| - 1], ps[|ps| - 1];
      assert j < |ts| && ks[j].Some?;
      TriplesAtAt(ts, ks, q);
      var r, rq := TriplesAt(ts, ks, ps), TriplesAt(ts, ks, q);
      assert r == rq + [MakeTriple(ks[j].value, ts[j])];
      forall p | 0 <= p < |ps|
        ensures r[p] == MakeTriple(ks[ps[p]].value, ts[ps[p]])
      {
        if p < |q| {
          assert r[p] == rq[p] && q[p] == ps[p];
        }
      }
    }
  }

  /** Specification of `normalize_triples`: one normalised triple per first occurrence of a key, in input order. */
  function Normalized(ts: seq<Dict>): seq<NormTriple> {
    var ks := RecordKeys(ts);
    TriplesAt(ts, ks, FirstPositions(ks, |ts|))
  }

  /** The keys held among the first `n` positions. */
  ghost function SeenKeys<K>(ks: seq<Option<K>>, n: nat): (r: set<K>)
    requires n <= |ks|
  {
    if n == 0 then {} else SeenKeys(ks, n - 1) + (if ks[n - 1].Some? then {ks[n - 1].value} else {})
  }

  /** A position is a first position exactly when its key was not seen before it. */
  lemma {:induction false} SeenKeysFirst<K>(ks: seq<Option<K>>, i: nat)
    requires i < |ks|
    ensures IsFirst(ks, i) <==> ks[i].Some? && ks[i].value !in SeenKeys(ks, i)
  {
    SeenKeysHeld(ks, i);
    if ks[i].Some? && !IsFirst(ks, i) {
      var j :| 0 <= j < i && ks[j] == ks[i];
      assert Some(ks[i].value) == ks[j];
    }
  }

  lemma {:induction false} SeenKeysHeld<K>(ks: seq<Option<K>>, n: nat)
    requires n <= |ks|
    ensures forall x :: x in SeenKeys(ks, n) <==> exists j :: 0 <= j < n && ks[j] == Some(x)
  {
    if n > 0 {
      SeenKeysHeld(ks, n - 1);
      forall x | (exists j :: 0 <= j < n && ks[j] == Some(x)) ensures x in SeenKeys(ks, n) {
        var j :| 0 <= j < n && ks[j] == Some(x);
        if j < n - 1 {
          assert x in SeenKeys(ks, n - 1);
        }
      }
    }
  }

  lemma TriplesAtSnoc(ts: seq<Dict>, ks: seq<Option<Key>>, ps: seq<nat>, i: nat)
    requires |ks| == |ts| && i < |ts| && ks[i].Some?
    ensures TriplesAt(ts, ks, ps + [i]) == TriplesAt(ts, ks, ps) + [MakeTriple(ks[i].value, ts[i])]
  {
    assert (ps + [i])[..|ps|] == ps;
  }

  /** The triples the seen-set loop has built after `n` records whose keys are `ks`. */
  function NormalizedUpTo(ts: seq<Dict>, ks: seq<Option<Key>>, n: nat): seq<NormTriple>
    requires n <= |ts| == |ks|
  {
    if n == 0 then []
    else NormalizedUpTo(ts, ks, n - 1) + (if IsFirst(ks, n - 1) then [MakeTriple(ks[n - 1].value, ts[n - 1])] else [])
  }

  /** After `n` records, the loop's running result is the reference de-duplication of those records. */
  lemma {:induction false} NormalizedUpToAll(ts: seq<Dict>, ks: seq<Option<Key>>, n: nat)
    requires n <= |ts| == |ks|
    ensures NormalizedUpTo(ts, ks, n) == TriplesAt(ts, ks, FirstPositions(ks, n))
  {
    if n > 0 {
      NormalizedUpToAll(ts, ks, n - 1);
      if IsFirst(ks, n - 1) {
        TriplesAtSnoc(ts, ks, FirstPositions(ks, n - 1), n - 1);
      } else {
        assert FirstPositions(ks, n) == FirstPositions(ks, n - 1);
      }
    }
  }

  /** One step of the seen-set loop: a record is kept exactly when its key is present and not yet seen. */
  lemma NormalizeStep(ts: seq<Dict>, ks: seq<Option<Key>>, i: nat, seen: set<Key>)
    requires i < |ts| == |ks| && seen == SeenKeys(ks, i)
    ensures ks[i].Some? && ks[i].value !in seen ==>
      && NormalizedUpTo(ts, ks, i + 1) == NormalizedUpTo(ts, ks, i) + [MakeTriple(ks[i].value, ts[i])]
      && SeenKeys(ks, i + 1) == seen + {ks[i].value}
    ensures !(ks[i].Some? && ks[i].value !in seen) ==>
      && NormalizedUpTo(ts, ks, i + 1) == NormalizedUpTo(ts, ks, i)
      && SeenKeys(ks, i + 1) == seen
  {
    SeenKeysFirst(ks, i);
  }

  /** The normalised triples, position by position: one per first position of a key. */
  lemma NormalizedAt(ts: seq<Dict>)
    ensures |Normalized(ts)| == |FirstPositions(RecordKeys(ts), |ts|)|
    ensures forall p :: 0 <= p < |Normalized(ts)| ==> (
      IsFirst(RecordKeys(ts), FirstPositions(RecordKeys(ts), |ts|)[p])
      && Normalized(ts)[p] == MakeTriple(RecordKeys(ts)[FirstPositions(RecordKeys(ts), |ts|)[p]].value,
                                         ts[FirstPositions(RecordKeys(ts), |ts|)[p]]))
  {
    var ks := RecordKeys(ts);
    RecordKeysAt(ts);
    FirstPositionsOrdered(ks, |ts|);
    TriplesAtAt(ts, ks, FirstPositions(ks, |ts|));
  }

  /** Each normalised triple is the key of the first record with that key, with that record's chunk. */
  lemma NormalizedSound(ts: seq<Dict>)
    ensures forall p :: 0 <= p < |Normalized(ts)| ==> exists i :: (0 <= i < |ts|
      && IsFirst(RecordKeys(ts), i) && KeyAt(ts[i]) == Some(KeyOf(Normalized(ts)[p]))
      && Normalized(ts)[p].sourceChunk == GetOr(ts[i], "chunk", JStr("unknown")))
  {
    NormalizedAt(ts);
    var ks := RecordKeys(ts);
    RecordKeysAt(ts);
    var ps := FirstPositions(ks, |ts|);
    forall p | 0 <= p < |Normalized(ts)| ensures exists i :: (0 <= i < |ts|
      && IsFirst(ks, i) && KeyAt(ts[i]) == Some(KeyOf(Normalized(ts)[p]))
      && Normalized(ts)[p].sourceChunk == GetOr(ts[i], "chunk", JStr("unknown")))
    {
      var i := ps[p];
      assert IsFirst(ks, i);
    }
  }

  /** No two normalised triples share a (subject, predicate, object). */
  lemma NormalizedDistinct(ts: seq<Dict>)
    ensures forall p, q :: 0 <= p < q < |Normalized(ts)| ==> KeyOf(Normalized(ts)[p]) != KeyOf(Normalized(ts)[q])
  {
    NormalizedAt(ts);
    var ks := RecordKeys(ts);
    RecordKeysAt(ts);
    var ps := FirstPositions(ks, |ts|);
    FirstPositionsDistinct(ks, |ts|);
    forall p, q | 0 <= p < q < |Normalized(ts)| ensures KeyOf(Normalized(ts)[p]) != KeyOf(Normalized(ts)[q]) {
      assert ks[ps[p]] != ks[ps[q]];
    }
  }

  /** Every record whose fields normalise to a non-empty key is represented in the output. */
  lemma NormalizedComplete(ts: seq<Dict>)
    ensures forall i :: 0 <= i < |ts| && KeyAt(ts[i]).Some? ==>
      exists p :: 0 <= p < |Normalized(ts)| && KeyOf(Normalized(ts)[p]) == KeyAt(ts[i]).value
  {
    NormalizedAt(ts);
    var ks := RecordKeys(ts);
    RecordKeysAt(ts);
    var ps := FirstPositions(ks, |ts|);
    FirstPositionsComplete(ks, |ts|);
    forall i | 0 <= i < |ts| && KeyAt(ts[i]).Some?
      ensures exists p :: 0 <= p < |Normalized(ts)| && KeyOf(Normalized(ts)[p]) == KeyAt(ts[i]).value
    {
      assert ks[i].Some? && KeptAt(ks, |ts|, i);
      var p :| 0 <= p < |ps| && ks[ps[p]] == ks[i];
      assert KeyOf(Normalized(ts)[p]) == ks[ps[p]].value;
    }
  }

  predicate IsNormalEntity(s: string) {
    s != "" && IsStripped(s) && NoUpper(s)
  }

  predicate IsNormalPredicate(s: string) {
    IsNormalEntity(s) && IsCollapsed(s)
  }

  lemma StripKeepsNoUpper(s: string)
    requires NoUpper(s)
    ensures NoUpper(Strip(s))
  {
    StripSlice(s);
    var a, b :| 0 <= a <= b <= |s| && Strip(s) == s[a..b] && AllSpace(s[..a]) && AllSpace(s[b..]);
    SliceNoUpper(s, a, b);
  }

  lemma StripKeepsCollapsed(s: string)
    requires IsCollapsed(s)
    ensures IsCollapsed(Strip(s))
  {
    StripSlice(s);
    var a, b :| 0 <= a <= b <= |s| && Strip(s) == s[a..b] && AllSpace(s[..a]) && AllSpace(s[b..]);
    SliceCollapsed(s, a, b);
  }

  /** Normalising a subject or object twice is normalising it once; a non-empty result is normal. */
  lemma NormEntityIdempotent(s: string)
    ensures NormEntity(NormEntity(s)) == NormEntity(s)
    ensures NormEntity(s) != "" ==> IsNormalEntity(NormEntity(s))
  {
    var y := Lower(Strip(s));
    LowerKeepsStripped(Strip(s));
    LowerNoUpper(Strip(s));
    EntityFixed(y);
  }

  /** Normalising a predicate twice is normalising it once; a non-empty result is normal. */
  lemma NormPredicateIdempotent(p: string)
    ensures NormPredicate(NormPredicate(p)) == NormPredicate(p)
    ensures NormPredicate(p) != "" ==> IsNormalPredicate(NormPredicate(p))
  {
    var l := Lower(Strip(p));
    LowerNoUpper(Strip(p));
    CollapseNoUpper(l);
    CollapseIsCollapsed(l);
    var q := Strip(Collapse(l));
    StripKeepsNoUpper(Collapse(l));
    StripKeepsCollapsed(Collapse(l));
    PredicateFixed(q);
  }

  /** A stripped string without upper-case letters is its own entity normalisation. */
  lemma EntityFixed(s: string)
    requires IsStripped(s) && NoUpper(s)
    ensures NormEntity(s) == s
  {
    StripOfStripped(s);
    LowerOfNoUpper(s);
  }

  /** A stripped, collapsed string without upper-case letters is its own predicate normalisation. */
  lemma PredicateFixed(p: string)
    requires IsStripped(p) && NoUpper(p) && IsCollapsed(p)
    ensures NormPredicate(p) == p
  {
    StripOfStripped(p);
    LowerOfNoUpper(p);
    CollapseOfCollapsed(p);
  }

  /** A normalised triple written back as a dict, as `normalize_triples` returns it. */
  function AsDict(t: NormTriple): Dict {
    [("subject", JStr(t.subj)), ("predicate", JStr(t.pred)), ("object", JStr(t.obj)),
     ("source_chunk", t.sourceChunk)]
  }

  function AsDicts(r: seq<NormTriple>): (ds: seq<Dict>)
    ensures |ds| == |r|
  {
    if |r| == 0 then [] else AsDicts(r[..|r| - 1]) + [AsDict(r[|r| - 1])]
  }

  lemma {:induction false} AsDictsAt(r: seq<NormTriple>, i: nat)
    requires i < |r|
    ensures AsDicts(r)[i] == AsDict(r[i])
  {
    if i < |r| - 1 {
      AsDictsAt(r[..|r| - 1], i);
      assert r[..|r| - 1][i] == r[i];
    }
  }

  /** The triples with their source forgotten: re-normalised output has no `chunk` key, so it reads "unknown". */
  function Unsourced(r: seq<NormTriple>): (u: seq<NormTriple>)
    ensures |u| == |r| && forall i :: 0 <= i < |r| ==> u[i] == r[i].(sourceChunk := JStr("unknown"))
  {
    seq(|r|, i requires 0 <= i < |r| => r[i].(sourceChunk := JStr("unknown")))
  }

  /** The fields of a triple written back as a dict; it has no `chunk` key. */
  lemma AsDictFields(t: NormTriple)
    ensures Get(AsDict(t), "subject") == Some(JStr(t.subj))
    ensures Get(AsDict(t), "predicate") == Some(JStr(t.pred))
    ensures Get(AsDict(t), "object") == Some(JStr(t.obj))
    ensures Get(AsDict(t), "chunk") == None
  {
    var d := AsDict(t);
    GetUnique(d, 0, "subject");
    GetUnique(d, 1, "predicate");
    GetUnique(d, 2, "object");
    assert forall i :: 0 <= i < |d| ==> d[i].0 != "chunk";
    GetSomeIffHasKey(d, "chunk");
  }

  /** The key of a record whose three fields are the strings `s`, `p` and `o`. */
  lemma KeyAtStrings(d: Dict, s: string, p: string, o: string)
    requires Get(d, "subject") == Some(JStr(s)) && Get(d, "predicate") == Some(JStr(p)) && Get(d, "object") == Some(JStr(o))
    ensures NormEntity(s) != "" && NormPredicate(p) != "" && NormEntity(o) != "" ==>
      KeyAt(d) == Some((NormEntity(s), NormPredicate(p), NormEntity(o)))
  {
  }

  /** Re-normalising a triple whose fields are already normal yields the same key and an unknown chunk. */
  lemma KeyOfNormalDict(t: NormTriple)
    requires IsNormalEntity(t.subj) && IsNormalPredicate(t.pred) && IsNormalEntity(t.obj)
    ensures KeyAt(AsDict(t)) == Some(KeyOf(t))
    ensures GetOr(AsDict(t), "chunk", JStr("unknown")) == JStr("unknown")
  {
    AsDictFields(t);
    KeyAtStrings(AsDict(t), t.subj, t.pred, t.obj);
    EntityFixed(t.subj);
    PredicateFixed(t.pred);
    EntityFixed(t.obj);
  }

  /** Every normalised triple has normal, non-empty fields. */
  lemma NormalizedNormal(ts: seq<Dict>)
    ensures forall t :: t in Normalized(ts) ==>
      IsNormalEntity(t.subj) && IsNormalPredicate(t.pred) && IsNormalEntity(t.obj)
  {
    NormalizedAt(ts);
    var ks := RecordKeys(ts);
    RecordKeysAt(ts);
    var ps := FirstPositions(ks, |ts|);
    forall t | t in Normalized(ts) ensures IsNormalEntity(t.subj) && IsNormalPredicate(t.pred) && IsNormalEntity(t.obj) {
      var p :| 0 <= p < |Normalized(ts)| && Normalized(ts)[p] == t;
      var d := ts[ps[p]];
      assert KeyAt(d).Some?;
      NormEntityIdempotent(Get(d, "subject").value.s);
      NormPredicateIdempotent(Get(d, "predicate").value.s);
      NormEntityIdempotent(Get(d, "object").value.s);
    }
  }

  /**
   * Normalisation is idempotent: normalising its own output (written back as dicts) gives the
   * same triples in the same order; only the source chunk reads "unknown", because the output
   * stores it under `source_chunk`, not `chunk`.
   */
  lemma NormalizeIdempotent(ts: seq<Dict>)
    ensures Normalized(AsDicts(Normalized(ts))) == Unsourced(Normalized(ts))
  {
    NormalizedNormal(ts);
    NormalizedDistinct(ts);
    NormalizeOfNormal(Normalized(ts));
  }

  /** The keys of triples with normal fields, written back as dicts, are their own keys. */
  lemma {:induction false} NormalDictKeys(r: seq<NormTriple>)
    requires forall t :: t in r ==> IsNormalEntity(t.subj) && IsNormalPredicate(t.pred) && IsNormalEntity(t.obj)
    ensures forall i :: 0 <= i < |r| ==> RecordKeys(AsDicts(r))[i] == Some(KeyOf(r[i]))
  {
    var ks := RecordKeys(AsDicts(r));
    forall i | 0 <= i < |r| ensures ks[i] == Some(KeyOf(r[i])) {
      RecordKeyAt(AsDicts(r), i);
      AsDictsAt(r, i);
      assert r[i] in r;
      KeyOfNormalDict(r[i]);
    }
  }

  /** When every record's key is present and the keys are pairwise different, every position is a first position. */
  lemma {:induction false} DistinctKeysAllFirst(ks: seq<Option<Key>>, r: seq<NormTriple>)
    requires |ks| == |r| && forall i :: 0 <= i < |r| ==> ks[i] == Some(KeyOf(r[i]))
    requires forall p, q :: 0 <= p < q < |r| ==> KeyOf(r[p]) != KeyOf(r[q])
    ensures |FirstPositions(ks, |r|)| == |r|
    ensures forall p :: 0 <= p < |r| ==> FirstPositions(ks, |r|)[p] == p
  {
    forall i, j | 0 <= i < j < |ks| ensures ks[i] != ks[j] {
      assert ks[i] == Some(KeyOf(r[i])) && ks[j] == Some(KeyOf(r[j]));
    }
    FirstPositionsAllDistinct(ks, |r|);
  }

  /** Records keyed like `r`, pairwise different and without a `chunk`, yield `r` unsourced. */
  lemma {:induction false} TriplesOfDistinct(ts: seq<Dict>, ks: seq<Option<Key>>, r: seq<NormTriple>)
    requires |ts| == |ks| == |r| && forall i :: 0 <= i < |r| ==> ks[i] == Some(KeyOf(r[i]))
    requires forall p, q :: 0 <= p < q < |r| ==> KeyOf(r[p]) != KeyOf(r[q])
    requires forall i :: 0 <= i < |ts| ==> GetOr(ts[i], "chunk", JStr("unknown")) == JStr("unknown")
    ensures TriplesAt(ts, ks, FirstPositions(ks, |ts|)) == Unsourced(r)
  {
    DistinctKeysAllFirst(ks, r);
    var ps := FirstPositions(ks, |ts|);
    TriplesAtAt(ts, ks, ps);
    forall p | 0 <= p < |r| ensures TriplesAt(ts, ks, ps)[p] == Unsourced(r)[p] {
      assert ps[p] == p;
      assert GetOr(ts[p], "chunk", JStr("unknown")) == JStr("unknown");
    }
  }

  /** Triples written back as dicts have no `chunk` key. */
  lemma {:induction false} NormalDictChunks(r: seq<NormTriple>)
    ensures forall i :: 0 <= i < |r| ==> GetOr(AsDicts(r)[i], "chunk", JStr("unknown")) == JStr("unknown")
  {
    forall i | 0 <= i < |r| ensures GetOr(AsDicts(r)[i], "chunk", JStr("unknown")) == JStr("unknown") {
      AsDictsAt(r, i);
      AsDictFields(r[i]);
    }
  }

  /** Triples with normal fields and pairwise different keys normalise to themselves, unsourced. */
  lemma {:induction false} NormalizeOfNormal(r: seq<NormTriple>)
    requires forall t :: t in r ==> IsNormalEntity(t.subj) && IsNormalPredicate(t.pred) && IsNormalEntity(t.obj)
    requires forall p, q :: 0 <= p < q < |r| ==> KeyOf(r[p]) != KeyOf(r[q])
    ensures Normalized(AsDicts(r)) == Unsourced(r)
  {
    NormalDictKeys(r);
    NormalDictChunks(r);
    TriplesOfDistinct(AsDicts(r), RecordKeys(AsDicts(r)), r);
  }
}
