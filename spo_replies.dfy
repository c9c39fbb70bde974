/** Recovery of the JSON reply, per-chunk validation and aggregation over the chunks of a text. */
module SpoReplies {
  import opened Wrappers
  import opened Strs
  import opened Json
  import opened SpoChunks


  /** Why a chunk yielded no triples; each stands for one of the source's error messages. */
  datatype ChunkError =
    | ApiCallError(message: string)   // "API调用错误: …": the completion call raised
    | RegexContentNotJson              // "正则表达式后JSONDecodeError: …"
    | DecodeAndRegexFailed             // "JSONDecodeError和正则表达式回退都失败了。"
    | NoTripleList                     // "ValueError: JSON对象接收到了，但不包含单个三元组列表。"
    | NotListOrWrapper                 // "ValueError: 解析的JSON不是列表或预期的字典包装器。"
    | ParsedNotList                    // "解析的数据不是列表，无法提取三元组。"

  const WrapperKeys: seq<string> := ["triples", "results", "data", "items"]

  predicate IsList(j: Json) { j.JArr? }

  predicate HasTripleKeys(d: Dict) {
    HasKey(d, "subject") && HasKey(d, "predicate") && HasKey(d, "object")
  }

  /** The list-valued entries of a dict, in order. */
  function ListValues(d: Dict): (r: seq<Json>)
    ensures forall i :: 0 <= i < |r| ==> r[i].JArr?
  {
    if |d| == 0 then [] else (if d[0].1.JArr? then [d[0].1] else []) + ListValues(d[1..])
  }

  predicate ListUnder(d: Dict, k: string) {
    Get(d, k).Some? && IsList(Get(d, k).value)
  }

  /** The value of the first of `keys` that `d` maps to a list. */
  function FirstListUnder(d: Dict, keys: seq<string>): (r: Option<Json>)
    ensures r.Some? ==> exists i :: (0 <= i < |keys| && ListUnder(d, keys[i]) && Get(d, keys[i]) == r
      && forall j :: 0 <= j < i ==> !ListUnder(d, keys[j]))
    ensures r.None? ==> forall i :: 0 <= i < |keys| ==> !ListUnder(d, keys[i])
  {
    if |keys| == 0 then None
    else if ListUnder(d, keys[0]) then Get(d, keys[0])
    else
      var r := FirstListUnder(d, keys[1..]);
      assert forall i :: 0 < i < |keys| ==> keys[i] == keys[1..][i - 1];
      assert r.Some? ==> exists i :: (0 <= i < |keys| && ListUnder(d, keys[i]) && Get(d, keys[i]) == r
        && forall j :: 0 <= j < i ==> !ListUnder(d, keys[j])) by {
        if r.Some? {
          var i :| 0 <= i < |keys| - 1 && ListUnder(d, keys[1..][i]) && Get(d, keys[1..][i]) == r
            && forall j :: 0 <= j < i ==> !ListUnder(d, keys[1..][j]);
          assert keys[i + 1] == keys[1..][i];
          assert forall j :: 0 <= j < i + 1 ==> !ListUnder(d, keys[j]) by {
            forall j | 0 <= j < i + 1 ensures !ListUnder(d, keys[j]) {
              if j > 0 { assert keys[j] == keys[1..][j - 1]; }
            }
          }
        }
      }
      r
  }

  predicate AnyKeyPresent(d: Dict, keys: seq<string>) {
    exists i :: 0 <= i < |keys| && HasKey(d, keys[i])
  }

  /** Lines 240-277: what a successfully decoded reply becomes. */
  function InterpretDecoded(data: Json): Result<Json, ChunkError> {
    match data
    case JObj(d) =>
      var lists := ListValues(d);
      if |lists| == 1 then Ok(lists[0])
      else if AnyKeyPresent(d, WrapperKeys) then
        match FirstListUnder(d, WrapperKeys)
        case Some(l) => Ok(l)
        case None => if HasTripleKeys(d) then Ok(JArr([data])) else Err(NoTripleList)
      else if HasTripleKeys(d) then Ok(JArr([data]))
      else Err(NoTripleList)
    case JArr(_) => Ok(data)
    case _ => Err(NotListOrWrapper)
  }

  /**
   * The four outcomes for a decoded dict, in priority order: its only list value; else the
   * first of triples/results/data/items holding a list; else the dict itself as a one-triple
   * list if it has subject, predicate and object; else an error.
   */
  lemma InterpretDict(d: Dict)
    ensures var r := InterpretDecoded(JObj(d));
      && (|ListValues(d)| == 1 ==> r == Ok(ListValues(d)[0]))
      && (|ListValues(d)| != 1 && FirstListUnder(d, WrapperKeys).Some? ==> r == Ok(FirstListUnder(d, WrapperKeys).value))
      && (|ListValues(d)| != 1 && FirstListUnder(d, WrapperKeys).None? ==>
            r == if HasTripleKeys(d) then Ok(JArr([JObj(d)])) else Err(NoTripleList))
  {
    if |ListValues(d)| != 1 && FirstListUnder(d, WrapperKeys).Some? {
      var i :| 0 <= i < |WrapperKeys| && ListUnder(d, WrapperKeys[i]) && Get(d, WrapperKeys[i]) == FirstListUnder(d, WrapperKeys);
      GetSomeIffHasKey(d, WrapperKeys[i]);
      assert HasKey(d, WrapperKeys[i]);
    }
  }

  /** A successfully decoded reply is either a list or an error: never some other value. */
  lemma InterpretYieldsList(data: Json)
    ensures InterpretDecoded(data).Ok? ==> InterpretDecoded(data).value.JArr?
  {
    if data.JObj? { InterpretDict(data.members); }
  }

  /**
   * Group 1 of `re.search(r'^\s*(\[.*?\])\s*$', s, re.DOTALL)`.  `^` anchors at position 0
   * (no MULTILINE); the leading `\s*` must stop at the first non-whitespace character since the
   * group begins with `[`; the lazy body must stop at the first `]` followed only by
   * whitespace, which is the last non-whitespace character (the trailing `\s*` also absorbs
   * the newline `$` may stand before).  So the group is the stripped text, when that text
   * begins with `[` and ends with `]`.
   */
  function ArrayRegexGroup(s: string): (g: Option<string>)
    ensures g.Some? ==> |g.value| >= 2 && g.value[0] == '[' && g.value[|g.value| - 1] == ']'
  {
    var t := Strip(s);
    if |t| >= 2 && t[0] == '[' && t[|t| - 1] == ']' then Some(t) else None
  }

  /** Lines 234-307: the parsed value for the (already stripped) reply, or the parsing error. */
  function ParseReply(output: string, parse: string -> Option<Json>): Result<Json, ChunkError> {
    match parse(output)
    case Some(data) => InterpretDecoded(data)
    case None =>
      match ArrayRegexGroup(output)
      case None => Err(DecodeAndRegexFailed)
      case Some(group) =>
        match parse(group)
        case Some(j) => Ok(j)
        case None => Err(RegexContentNotJson)
  }

  /**
   * The regular-expression fallback can never rescue a reply: the reply was stripped before
   * decoding, so the group the fallback extracts is the very text that failed to decode.
   */
  lemma RegexFallbackNeverRecovers(content: string, parse: string -> Option<Json>)
    requires parse(Strip(content)).None?
    ensures ParseReply(Strip(content), parse).Err?
  {
    StripIdempotent(content);
  }

  // ============================================================= validation

  /** A list item is kept when it is a dict whose subject, predicate and object are strings. */
  predicate IsValidItem(item: Json) {
    item.JObj? && IsStr(Get(item.members, "subject")) && IsStr(Get(item.members, "predicate"))
    && IsStr(Get(item.members, "object"))
  }

  /** The kept items, each with `chunk` set to the chunk number. */
  function ValidTriples(items: seq<Json>, chunkNumber: int): (r: seq<Dict>)
    ensures |r| <= |items|
  {
    if |items| == 0 then []
    else
      (if IsValidItem(items[0]) then [Put(items[0].members, "chunk", JNum(chunkNumber))] else [])
      + ValidTriples(items[1..], chunkNumber)
  }

  /** A kept item: string subject, predicate and object, the chunk number under `chunk`, every other key as it was. */
  lemma ValidTripleOf(item: Json, chunkNumber: int)
    requires IsValidItem(item)
    ensures IsStr(Get(Put(item.members, "chunk", JNum(chunkNumber)), "subject"))
    ensures IsStr(Get(Put(item.members, "chunk", JNum(chunkNumber)), "predicate"))
    ensures IsStr(Get(Put(item.members, "chunk", JNum(chunkNumber)), "object"))
    ensures Get(Put(item.members, "chunk", JNum(chunkNumber)), "chunk") == Some(JNum(chunkNumber))
    ensures forall k :: k != "chunk" ==> Get(Put(item.members, "chunk", JNum(chunkNumber)), k) == Get(item.members, k)
  {
    forall k | k != "chunk" ensures Get(Put(item.members, "chunk", JNum(chunkNumber)), k) == Get(item.members, k) {
      PutOther(item.members, "chunk", JNum(chunkNumber), k);
    }
  }

  /** Every kept triple has string subject, predicate and object and carries the chunk number. */
  lemma {:induction false} ValidTriplesFields(items: seq<Json>, chunkNumber: int)
    ensures forall t :: t in ValidTriples(items, chunkNumber) ==>
      IsStr(Get(t, "subject")) && IsStr(Get(t, "predicate")) && IsStr(Get(t, "object"))
      && Get(t, "chunk") == Some(JNum(chunkNumber))
  {
    if |items| > 0 {
      ValidTriplesFields(items[1..], chunkNumber);
      if IsValidItem(items[0]) {
        ValidTripleOf(items[0], chunkNumber);
      }
    }
  }

  /** Every kept triple comes from a valid item and keeps all of that item's keys other than `chunk`. */
  lemma {:induction false} ValidTriplesOrigin(items: seq<Json>, chunkNumber: int)
    ensures forall t :: t in ValidTriples(items, chunkNumber) ==>
      exists i :: 0 <= i < |items| && IsValidItem(items[i])
        && forall k :: k != "chunk" ==> Get(t, k) == Get(items[i].members, k)
  {
    if |items| > 0 {
      ValidTriplesOrigin(items[1..], chunkNumber);
      var rest := ValidTriples(items[1..], chunkNumber);
      forall t | t in ValidTriples(items, chunkNumber)
        ensures exists i :: (0 <= i < |items| && IsValidItem(items[i])
          && forall k :: k != "chunk" ==> Get(t, k) == Get(items[i].members, k))
      {
        if t in rest {
          var i :| 0 <= i < |items| - 1 && IsValidItem(items[1..][i])
            && forall k :: k != "chunk" ==> Get(t, k) == Get(items[1..][i].members, k);
          assert items[i + 1] == items[1..][i];
        } else {
          ValidTripleOf(items[0], chunkNumber);
        }
      }
    }
  }

  /** When every item is well formed, none is dropped. */
  lemma {:induction false} ValidTriplesAllKept(items: seq<Json>, chunkNumber: int)
    requires forall i :: 0 <= i < |items| ==> IsValidItem(items[i])
    ensures |ValidTriples(items, chunkNumber)| == |items|
  {
    if |items| > 0 {
      assert forall i :: 0 <= i < |items| - 1 ==> items[1..][i] == items[i + 1];
      ValidTriplesAllKept(items[1..], chunkNumber);
    }
  }

  /** Validation works item by item: the kept triples of a concatenation are the concatenation of the kept triples. */
  lemma {:induction false} ValidTriplesAppend(a: seq<Json>, b: seq<Json>, chunkNumber: int)
    ensures ValidTriples(a + b, chunkNumber) == ValidTriples(a, chunkNumber) + ValidTriples(b, chunkNumber)
  {
    if |a| == 0 {
      assert a + b == b;
    } else {
      assert (a + b)[0] == a[0] && (a + b)[1..] == a[1..] + b;
      ValidTriplesAppend(a[1..], b, chunkNumber);
    }
  }

  /** One more item: the kept triples grow by that item, stamped, when it is well formed. */
  lemma ValidTriplesSnoc(items: seq<Json>, i: nat, chunkNumber: int)
    requires i < |items|
    ensures ValidTriples(items[..i + 1], chunkNumber) == ValidTriples(items[..i], chunkNumber)
      + (if IsValidItem(items[i]) then [Put(items[i].members, "chunk", JNum(chunkNumber))] else [])
  {
    assert items[..i + 1] == items[..i] + [items[i]];
    ValidTriplesAppend(items[..i], [items[i]], chunkNumber);
    assert [items[i]][1..] == [];
  }

  /** The result of `extract_triples_from_chunk`: triples, or no triples and an error. */
  function ChunkOutcome(reply: Result<string, string>, parse: string -> Option<Json>, chunkNumber: int)
    : (seq<Dict>, Option<ChunkError>)
  {
    match reply
    case Err(m) => ([], Some(ApiCallError(m)))
    case Ok(content) =>
      match ParseReply(Strip(content), parse)
      case Err(e) => ([], Some(e))
      case Ok(JArr(items)) => (ValidTriples(items, chunkNumber), None)
      case Ok(_) => ([], Some(ParsedNotList))
  }


  /**
   * The per-chunk contract: an error comes with no triples; a failed completion is reported as an
   * API error; a reply that does not decode is always an error; every triple returned has string
   * subject, predicate and object and the chunk's number.
   */
  lemma ChunkOutcomeFacts(reply: Result<string, string>, parse: string -> Option<Json>, chunkNumber: int)
    ensures var (ts, err) := ChunkOutcome(reply, parse, chunkNumber);
      && (err.Some? ==> ts == [])
      && (reply.Err? ==> err == Some(ApiCallError(reply.error)))
      && (reply.Ok? && parse(Strip(reply.value)).None? ==> err.Some?)
      && (reply.Ok? && parse(Strip(reply.value)).Some? && parse(Strip(reply.value)).value.JArr? ==> err.None?)
      && (forall t :: t in ts ==> (IsStr(Get(t, "subject")) && IsStr(Get(t, "predicate"))
            && IsStr(Get(t, "object")) && Get(t, "chunk") == Some(JNum(chunkNumber))))
  {
    if reply.Ok? {
      if parse(Strip(reply.value)).None? {
        RegexFallbackNeverRecovers(reply.value, parse);
      } else {
        InterpretYieldsList(parse(Strip(reply.value)).value);
      }
      match ParseReply(Strip(reply.value), parse)
      case Ok(JArr(items)) => ValidTriplesFields(items, chunkNumber);
      case _ =>
    }
  }

  // ============================================================ aggregation

  datatype FailedChunk = FailedChunk(chunkNumber: int, error: ChunkError)

  /** The triples of the error-free chunks, in chunk order, and the failed chunks. */
  datatype Collected = Collected(triples: seq<Dict>, failed: seq<FailedChunk>)

  datatype Extraction = Extraction(
    triples: seq<Dict>, failedChunks: seq<FailedChunk>, totalChunks: nat, successfulChunks: int)

  /** What extracting from one chunk yields: its triples, or no triples and an error. */
  type Outcome = (seq<Dict>, Option<ChunkError>)

  /** The outcome of each chunk, given the completion service and the decoder. */
  function OutcomeOf(reply: string -> Result<string, string>, parse: string -> Option<Json>): Chunk -> Outcome {
    (c: Chunk) => ChunkOutcome(reply(c.text), parse, c.number)
  }

  /** Aggregation over per-chunk outcomes: triples of the error-free chunks in order, and the failures in order. */
  function CollectWith(chunks: seq<Chunk>, outcome: Chunk -> Outcome): Collected {
    if |chunks| == 0 then Collected([], [])
    else
      var o := outcome(chunks[0]);
      var rest := CollectWith(chunks[1..], outcome);
      if o.1.Some? then Collected(rest.triples, [FailedChunk(chunks[0].number, o.1.value)] + rest.failed)
      else Collected(o.0 + rest.triples, rest.failed)
  }

  /** What `extract_triples_from_text` collects from its chunks. */
  function Collect(chunks: seq<Chunk>, reply: string -> Result<string, string>, parse: string -> Option<Json>)
    : Collected
  {
    CollectWith(chunks, OutcomeOf(reply, parse))
  }

  /** Aggregation works chunk by chunk: a concatenation collects the triples and failures of both parts, in order. */
  lemma {:induction false} CollectAppend(a: seq<Chunk>, b: seq<Chunk>, outcome: Chunk -> Outcome)
    ensures CollectWith(a + b, outcome).triples == CollectWith(a, outcome).triples + CollectWith(b, outcome).triples
    ensures CollectWith(a + b, outcome).failed == CollectWith(a, outcome).failed + CollectWith(b, outcome).failed
  {
    if |a| == 0 {
      assert a + b == b;
    } else {
      assert (a + b)[0] == a[0] && (a + b)[1..] == a[1..] + b;
      CollectAppend(a[1..], b, outcome);
    }
  }

  /** One more chunk: its triples are appended, or it is appended to the failures. */
  lemma CollectSnoc(chunks: seq<Chunk>, i: nat, outcome: Chunk -> Outcome)
    requires i < |chunks|
    ensures outcome(chunks[i]).1.Some? ==>
      CollectWith(chunks[..i + 1], outcome) == Collected(CollectWith(chunks[..i], outcome).triples,
        CollectWith(chunks[..i], outcome).failed + [FailedChunk(chunks[i].number, outcome(chunks[i]).1.value)])
    ensures outcome(chunks[i]).1.None? ==>
      CollectWith(chunks[..i + 1], outcome) == Collected(CollectWith(chunks[..i], outcome).triples + outcome(chunks[i]).0,
        CollectWith(chunks[..i], outcome).failed)
  {
    assert chunks[..i + 1] == chunks[..i] + [chunks[i]];
    CollectAppend(chunks[..i], [chunks[i]], outcome);
    assert [chunks[i]][1..] == [];
  }

  /**
   * What aggregation promises: no more failures than chunks, every failure names a chunk, and
   * every collected triple has string fields and the number of an error-free chunk.
   */
  lemma {:induction false} CollectFacts(chunks: seq<Chunk>, reply: string -> Result<string, string>, parse: string -> Option<Json>)
    ensures |Collect(chunks, reply, parse).failed| <= |chunks|
    ensures forall f :: f in Collect(chunks, reply, parse).failed ==>
      exists k :: 0 <= k < |chunks| && chunks[k].number == f.chunkNumber
    ensures forall t :: t in Collect(chunks, reply, parse).triples ==>
      IsStr(Get(t, "subject")) && IsStr(Get(t, "predicate")) && IsStr(Get(t, "object"))
    ensures forall t :: t in Collect(chunks, reply, parse).triples ==>
      exists k :: 0 <= k < |chunks| && Get(t, "chunk") == Some(JNum(chunks[k].number))
        && ChunkOutcome(reply(chunks[k].text), parse, chunks[k].number).1.None?
  {
    if |chunks| > 0 {
      CollectFacts(chunks[1..], reply, parse);
      ChunkOutcomeFacts(reply(chunks[0].text), parse, chunks[0].number);
      var c := Collect(chunks, reply, parse);
      var rest := Collect(chunks[1..], reply, parse);
      forall f | f in c.failed ensures exists k :: 0 <= k < |chunks| && chunks[k].number == f.chunkNumber {
        if f in rest.failed {
          var k :| 0 <= k < |chunks| - 1 && chunks[1..][k].number == f.chunkNumber;
          assert chunks[k + 1] == chunks[1..][k];
        } else {
          assert chunks[0].number == f.chunkNumber;
        }
      }
      forall t | t in c.triples
        ensures exists k :: (0 <= k < |chunks| && Get(t, "chunk") == Some(JNum(chunks[k].number))
          && ChunkOutcome(reply(chunks[k].text), parse, chunks[k].number).1.None?)
      {
        if t in rest.triples {
          var k :| 0 <= k < |chunks| - 1 && Get(t, "chunk") == Some(JNum(chunks[1..][k].number))
            && ChunkOutcome(reply(chunks[1..][k].text), parse, chunks[1..][k].number).1.None?;
          assert chunks[k + 1] == chunks[1..][k];
        } else {
          assert Get(t, "chunk") == Some(JNum(chunks[0].number));
        }
      }
    }
  }

}
