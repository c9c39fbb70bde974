/**
 * JSON values as `json.loads` returns them.  An object is a Python dict: its entries
 * in insertion order, keys distinct; lookup takes the first entry with the key.
 * Numbers are modelled as integers.
 */
module Json {
  import opened Wrappers

  datatype Json =
    | JNull
    | JBool(b: bool)
    | JNum(n: int)
    | JStr(s: string)
    | JArr(items: seq<Json>)
    | JObj(members: Dict)

  type Dict = seq<(string, Json)>

  predicate HasKey(d: Dict, k: string) {
    exists i :: 0 <= i < |d| && d[i].0 == k
  }

  /** `d.get(k)`. */
  function Get(d: Dict, k: string): (r: Option<Json>)
  {
    if |d| == 0 then None
    else if d[0].0 == k then Some(d[0].1)
    else Get(d[1..], k)
  }

  /** `d.get(k)` finds a value exactly when some entry has key `k`. */
  lemma {:induction false} GetSomeIffHasKey(d: Dict, k: string)
    ensures Get(d, k).Some? <==> HasKey(d, k)
  {
    if |d| > 0 && d[0].0 != k {
      GetSomeIffHasKey(d[1..], k);
      if HasKey(d, k) {
        var i :| 0 <= i < |d| && d[i].0 == k;
        assert d[1..][i - 1].0 == k;
      }
      if HasKey(d[1..], k) {
        var i :| 0 <= i < |d| - 1 && d[1..][i].0 == k;
        assert d[i + 1].0 == k;
      }
    } else if |d| > 0 {
      assert d[0].0 == k;
    }
  }

  /** A value `d.get(k)` finds is the value of an entry of `d` with key `k`. */
  lemma {:induction false} GetFound(d: Dict, k: string)
    requires Get(d, k).Some?
    ensures exists i :: 0 <= i < |d| && d[i] == (k, Get(d, k).value)
  {
    if d[0].0 != k {
      GetFound(d[1..], k);
      var i :| 0 <= i < |d| - 1 && d[1..][i] == (k, Get(d[1..], k).value);
      assert d[i + 1] == d[1..][i];
    } else {
      assert d[0] == (k, Get(d, k).value);
    }
  }

  /** `d.get(k, default)`. */
  function GetOr(d: Dict, k: string, default: Json): Json {
    match Get(d, k)
    case Some(v) => v
    case None => default
  }

  /** `d[k] = v`: an existing entry keeps its position, a new one goes last. */
  function Put(d: Dict, k: string, v: Json): (r: Dict)
    ensures Get(r, k) == Some(v)
    ensures |r| == if HasKey(d, k) then |d| else |d| + 1
  {
    if |d| == 0 then [(k, v)]
    else if d[0].0 == k then [(k, v)] + d[1..]
    else
      var r := [d[0]] + Put(d[1..], k, v);
      assert r[1..] == Put(d[1..], k, v);
      assert HasKey(d, k) <==> HasKey(d[1..], k) by {
        if HasKey(d, k) {
          var i :| 0 <= i < |d| && d[i].0 == k;
          assert d[1..][i - 1].0 == k;
        }
        if HasKey(d[1..], k) {
          var i :| 0 <= i < |d| - 1 && d[1..][i].0 == k;
          assert d[i + 1].0 == k;
        }
      }
      r
  }

  /** `d[k] = v` leaves every other key's value as it was. */
  lemma {:induction false} PutOther(d: Dict, k: string, v: Json, k': string)
    requires k' != k
    ensures Get(Put(d, k, v), k') == Get(d, k')
  {
    if |d| > 0 && d[0].0 != k {
      PutOther(d[1..], k, v, k');
      assert Put(d, k, v)[1..] == Put(d[1..], k, v);
    }
  }

  /** Looking up a key held by exactly one entry gives that entry's value. */
  lemma {:induction false} GetUnique(d: Dict, i: nat, k: string)
    requires i < |d| && d[i].0 == k
    requires forall j :: 0 <= j < |d| && j != i ==> d[j].0 != k
    ensures Get(d, k) == Some(d[i].1)
  {
    if i > 0 {
      assert forall j :: 0 <= j < |d| - 1 ==> d[1..][j] == d[j + 1];
      GetUnique(d[1..], i - 1, k);
    }
  }

  predicate IsStr(j: Option<Json>) {
    j.Some? && j.value.JStr?
  }
}
