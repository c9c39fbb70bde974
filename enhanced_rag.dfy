/**
 * The enhanced graph RAG: a question becomes a Cypher query (written by the model, or a fixed
 * keyword query when the model fails), the query's rows become a numbered context of at most
 * five blocks, and the model answers from that context.  Any exception inside `query` becomes
 * an error string.  The model, the graph store and `str()` are parameters.
 */
module EnhancedRag {
  import opened Wrappers
  import opened Strs
  import opened Json

  // ------------------------------------------------------------- context

  /** `f"{v}"`: a string as it is, any other value through `str()`. */
  function Show(v: Json, show: Json -> string): string {
    if v.JStr? then v.s else show(v)
  }

  /**
   * `result['text'][:200]` formatted: a string or a list is sliced; any other value raises
   * `TypeError`, given here as the value that could not be sliced.
   */
  function TextCut(v: Json, show: Json -> string): (r: Result<string, Json>)
    ensures r.Err? <==> !v.JStr? && !v.JArr?
    ensures v.JStr? ==> r == Ok(Take(v.s, 200)) && |r.value| <= 200 && StartsWith(v.s, r.value)
  {
    match v
    case JStr(s) => Ok(Take(s, 200))
    case JArr(xs) => Ok(show(JArr(Take(xs, 200))))
    case _ => Err(v)
  }

  /** `context_part` after the `if key in result` step for `key` and its label. */
  function AddLine(part: string, row: Dict, field: (string, string), show: Json -> string): string {
    match Get(row, field.0)
    case Some(v) => part + (field.1 + ": " + Show(v, show) + "\n")
    case None => part
  }

  function Header(i: nat): string {
    "结果 " + NatToString(i + 1) + ":\n"
  }

  /** The header, then the text line when the row has a text. */
  function Opening(i: nat, row: Dict, show: Json -> string): Result<string, Json> {
    match Get(row, "text")
    case None => Ok(Header(i))
    case Some(v) =>
      match TextCut(v, show)
      case Err(bad) => Err(bad)
      case Ok(t) => Ok(Header(i) + ("内容: " + t + "...\n"))
  }

  /** The keys after `text`, with their line labels, in the order the block writes them. */
  const Fields: seq<(string, string)> :=
    [("source", "来源"), ("brands", "相关品牌"), ("name", "实体名称"), ("industry", "行业"), ("description", "描述")]

  /** `context_part` after the steps for the keys of `fs`, in order, starting from `part`. */
  function AddLines(part: string, row: Dict, fs: seq<(string, string)>, show: Json -> string): string
    decreases |fs|
  {
    if fs == [] then part else AddLines(AddLine(part, row, fs[0], show), row, fs[1..], show)
  }

  /** The block for the `i`-th row (counted from 0): the header, then the lines for the keys it has. */
  function Block(i: nat, row: Dict, show: Json -> string): Result<string, Json> {
    match Opening(i, row, show)
    case Err(bad) => Err(bad)
    case Ok(part) => Ok(AddLines(part, row, Fields, show))
  }

  lemma AddLinesStep(part: string, row: Dict, j: nat, show: Json -> string)
    requires j < |Fields|
    ensures AddLines(part, row, Fields[j..], show) == AddLines(AddLine(part, row, Fields[j], show), row, Fields[j + 1..], show)
  {
    assert Fields[j..][1..] == Fields[j + 1..];
  }

  /** The steps only append. */
  lemma {:induction false} AddLinesExtends(part: string, row: Dict, fs: seq<(string, string)>, show: Json -> string)
    ensures StartsWith(AddLines(part, row, fs, show), part)
    decreases |fs|
  {
    if fs != [] {
      var next := AddLine(part, row, fs[0], show);
      AddLinesExtends(next, row, fs[1..], show);
      assert StartsWith(next, part);
    }
  }

  /** A block fails only on a text that cannot be sliced; otherwise it starts with its numbered header. */
  lemma BlockFacts(i: nat, row: Dict, show: Json -> string)
    ensures Block(i, row, show).Err? <==> Get(row, "text").Some? && TextCut(Get(row, "text").value, show).Err?
    ensures Block(i, row, show).Ok? ==> StartsWith(Block(i, row, show).value, Header(i))
  {
    if Block(i, row, show).Ok? {
      var part := Opening(i, row, show).value;
      AddLinesExtends(part, row, Fields, show);
      assert StartsWith(part, Header(i));
    }
  }

  /** A row with none of the six keys gives just its header. */
  lemma BareBlock(i: nat, row: Dict, show: Json -> string)
    requires forall k :: k in ["text", "source", "brands", "name", "industry", "description"] ==> !HasKey(row, k)
    ensures Block(i, row, show) == Ok(Header(i))
  {
    GetSomeIffHasKey(row, "text");
    forall j | 0 <= j < |Fields| ensures !HasKey(row, Fields[j].0) {
      assert Fields[j].0 in ["text", "source", "brands", "name", "industry", "description"];
    }
    BareLines(Header(i), row, Fields, show);
  }

  lemma {:induction false} BareLines(part: string, row: Dict, fs: seq<(string, string)>, show: Json -> string)
    requires forall j :: 0 <= j < |fs| ==> !HasKey(row, fs[j].0)
    ensures AddLines(part, row, fs, show) == part
    decreases |fs|
  {
    if fs != [] {
      GetSomeIffHasKey(row, fs[0].0);
      BareLines(part, row, fs[1..], show);
    }
  }

  /** The blocks of `rows`, numbered from 0, or the first value that could not be sliced. */
  function Blocks(rows: seq<Dict>, show: Json -> string): (r: Result<seq<string>, Json>)
    ensures r.Ok? ==> |r.value| == |rows|
  {
    if rows == [] then Ok([])
    else
      match Blocks(rows[..|rows| - 1], show)
      case Err(bad) => Err(bad)
      case Ok(bs) =>
        match Block(|rows| - 1, rows[|rows| - 1], show)
        case Err(bad) => Err(bad)
        case Ok(b) => Ok(bs + [b])
  }

  /** Every block is the one of its row, numbered by its position. */
  lemma {:induction false} BlocksAt(rows: seq<Dict>, show: Json -> string, i: nat)
    requires i < |rows| && Blocks(rows, show).Ok?
    ensures Block(i, rows[i], show).Ok? && Blocks(rows, show).value[i] == Block(i, rows[i], show).value
  {
    if i < |rows| - 1 {
      BlocksAt(rows[..|rows| - 1], show, i);
    }
  }

  /** The blocks fail exactly when some row's text cannot be sliced. */
  lemma {:induction false} BlocksFail(rows: seq<Dict>, show: Json -> string)
    ensures Blocks(rows, show).Err? <==> exists i :: 0 <= i < |rows| && Block(i, rows[i], show).Err?
  {
    if rows != [] {
      var init := rows[..|rows| - 1];
      BlocksFail(init, show);
      if Blocks(init, show).Err? {
        var i :| 0 <= i < |init| && Block(i, init[i], show).Err?;
        assert rows[i] == init[i];
      }
      if Blocks(rows, show).Ok? {
        forall i | 0 <= i < |rows| ensures Block(i, rows[i], show).Ok? {
          BlocksAt(rows, show, i);
        }
      }
    }
  }

  /** The context `_build_context` returns for `results`. */
  function Context(results: seq<Dict>, show: Json -> string): Result<string, Json> {
    match Blocks(Take(results, 5), show)
    case Err(bad) => Err(bad)
    case Ok(bs) => Ok(Join(bs, "\n"))
  }

  /** Only the first five rows matter. */
  lemma ContextFirstFive(a: seq<Dict>, b: seq<Dict>, show: Json -> string)
    requires |a| >= 5
    ensures Context(a + b, show) == Context(a, show)
  {
    assert Take(a + b, 5) == Take(a, 5);
  }

  /** The block of one row, as `_build_context` writes it. */
  method BuildBlock(i: nat, result: Dict, show: Json -> string) returns (r: Result<string, Json>)
    ensures r == Block(i, result, show)
  {
    var opening := BuildOpening(i, result, show);
    if opening.Err? {
      return Err(opening.error);
    }
    var contextPart := opening.value;
    ghost var target := AddLines(contextPart, result, Fields[0..], show);
    assert Fields[0..] == Fields;
    AddLinesStep(contextPart, result, 0, show);
    assert Fields[0] == ("source", "来源");
    contextPart := AppendLine(contextPart, result, "source", "来源", show);
    AddLinesStep(contextPart, result, 1, show);
    assert Fields[1] == ("brands", "相关品牌");
    contextPart := AppendLine(contextPart, result, "brands", "相关品牌", show);
    AddLinesStep(contextPart, result, 2, show);
    assert Fields[2] == ("name", "实体名称");
    contextPart := AppendLine(contextPart, result, "name", "实体名称", show);
    AddLinesStep(contextPart, result, 3, show);
    assert Fields[3] == ("industry", "行业");
    contextPart := AppendLine(contextPart, result, "industry", "行业", show);
    AddLinesStep(contextPart, result, 4, show);
    assert Fields[4] == ("description", "描述");
    contextPart := AppendLine(contextPart, result, "description", "描述", show);
    assert Fields[5..] == [];
    return Ok(contextPart);
  }

  /** The header and, when the row has a text, its text line. */
  method BuildOpening(i: nat, result: Dict, show: Json -> string) returns (r: Result<string, Json>)
    ensures r == Opening(i, result, show)
  {
    var contextPart := "结果 " + NatToString(i + 1) + ":\n";
    var text := Get(result, "text");
    if text.Some? {
      var t := TextCut(text.value, show);
      if t.Err? {
        return Err(t.error);
      }
      contextPart := contextPart + ("内容: " + t.value + "...\n");
    }
    return Ok(contextPart);
  }

  /** One `if key in result: context_part += ...` step. */
  method AppendLine(contextPart: string, result: Dict, key: string, tag: string, show: Json -> string) returns (part: string)
    ensures part == AddLine(contextPart, result, (key, tag), show)
  {
    part := contextPart;
    var v := Get(result, key);
    if v.Some? {
      part := part + (tag + ": " + Show(v.value, show) + "\n");
    }
  }

  /** `_build_context`: the blocks of the first five rows, newline separated. */
  method BuildContext(results: seq<Dict>, show: Json -> string) returns (r: Result<string, Json>)
    ensures r == Context(results, show)
  {
    var first := Take(results, 5);
    var contextParts: seq<string> := [];
    var i := 0;
    while i < |first|
      invariant i <= |first|
      invariant Blocks(first[..i], show) == Ok(contextParts)
    {
      BlocksStep(first, show, i, contextParts);
      var part := BuildBlock(i, first[i], show);
      if part.Err? {
        BlocksStuck(first, show, i + 1);
        return Err(part.error);
      }
      contextParts := contextParts + [part.value];
      i := i + 1;
    }
    assert first[..i] == first;
    return Ok(Join(contextParts, "\n"));
  }

  /** The blocks of one more row. */
  lemma BlocksStep(rows: seq<Dict>, show: Json -> string, i: nat, bs: seq<string>)
    requires i < |rows| && Blocks(rows[..i], show) == Ok(bs)
    ensures Blocks(rows[..i + 1], show) ==
      match Block(i, rows[i], show)
      case Err(bad) => Err(bad)
      case Ok(b) => Ok(bs + [b])
  {
    assert rows[..i + 1][..i] == rows[..i];
  }

  /** A failure in the first `j` rows is the failure of all of them. */
  lemma {:induction false} BlocksStuck(rows: seq<Dict>, show: Json -> string, j: nat)
    requires j <= |rows| && Blocks(rows[..j], show).Err?
    ensures Blocks(rows, show) == Blocks(rows[..j], show)
    decreases |rows| - j
  {
    if j < |rows| {
      assert rows[..j + 1][..j] == rows[..j];
      BlocksStuck(rows, show, j + 1);
    } else {
      assert rows[..j] == rows;
    }
  }

  // -------------------------------------------------------------- answer

  const NotFound := "❌ 未找到相关信息"

  /**
   * `_generate_answer`.  `answer` is the model on the answer prompt built from the question
   * and the context; `raised` is the text of the `TypeError` a bad text value raises, which
   * leaves the method and reaches `query`'s handler, given here as `Err`.
   */
  method GenerateAnswer(question: string, results: seq<Dict>, answer: (string, string) -> Result<string, string>,
                        show: Json -> string, raised: Json -> string)
    returns (r: Result<string, string>)
    ensures results == [] ==> r == Ok(NotFound)
    ensures results != [] ==>
      match Context(results, show)
      case Err(bad) => r == Err(raised(bad))
      case Ok(c) => r == Ok(match answer(question, c) case Ok(a) => a case Err(e) => "❌ 回答生成失败: " + e)
  {
    if results == [] {
      return Ok(NotFound);
    }
    var context := BuildContext(results, show);
    if context.Err? {
      return Err(raised(context.error));
    }
    var response := answer(question, context.value);
    if response.Err? {
      return Ok("❌ 回答生成失败: " + response.error);
    }
    return Ok(response.value);
  }

  // -------------------------------------------------------------- cypher

  /** `_fallback_cypher_query`: the fixed keyword query over the chunk nodes. */
  const FallbackQuery :=
    "\n        MATCH (pc:PR_Chunk)"
    + "\n        WHERE pc.text CONTAINS $keyword OR pc.brand_mentioned CONTAINS $keyword"
    + "\n        RETURN pc.text as text, pc.source as source, pc.brand_mentioned as brands"
    + "\n        ORDER BY pc.chunkSeqId"
    + "\n        LIMIT 5"
    + "\n        "

  /** `_generate_cypher_query`: the model's reply stripped, or the fallback when the model fails. */
  function GenerateCypherQuery(question: string, cypher: string -> Result<string, string>): (q: string)
    ensures cypher(question).Ok? ==> q == Strip(cypher(question).value)
    ensures cypher(question).Ok? ==> IsStripped(q) && Contains(cypher(question).value, q)
    ensures cypher(question).Err? ==> q == FallbackQuery
  {
    match cypher(question)
    case Ok(reply) =>
      StripSlice(reply);
      SliceContained(reply, Strip(reply));
      Strip(reply)
    case Err(_) => FallbackQuery
  }

  /** A slice is contained in its string. */
  lemma SliceContained(s: string, t: string)
    requires exists a, b :: 0 <= a <= b <= |s| && t == s[a..b]
    ensures Contains(s, t)
  {
    var a, b :| 0 <= a <= b <= |s| && t == s[a..b];
    assert OccursAt(s, t, a);
    ContainsIffOccurs(s, t);
  }

  /**
   * `EnhancedPRGraphRAG.query`: the query, its rows (`run` is the graph store; `Err` is its
   * exception) and the answer; an exception becomes the error line.
   */
  method GraphQuery(question: string, cypher: string -> Result<string, string>, run: string -> Result<seq<Dict>, string>,
                    answer: (string, string) -> Result<string, string>, show: Json -> string, raised: Json -> string)
    returns (r: string)
    ensures var q := GenerateCypherQuery(question, cypher);
      run(q).Err? ==> r == "❌ GraphRAG查询失败: " + run(q).error
    ensures var q := GenerateCypherQuery(question, cypher);
      run(q).Ok? && run(q).value == [] ==> r == NotFound
    ensures var q := GenerateCypherQuery(question, cypher);
      run(q).Ok? && run(q).value != [] && Context(run(q).value, show).Err? ==>
        r == "❌ GraphRAG查询失败: " + raised(Context(run(q).value, show).error)
    ensures var q := GenerateCypherQuery(question, cypher);
      run(q).Ok? && run(q).value != [] && Context(run(q).value, show).Ok? ==>
        var c := Context(run(q).value, show).value;
        r == match answer(question, c) case Ok(a) => a case Err(e) => "❌ 回答生成失败: " + e
  {
    var cypherQuery := GenerateCypherQuery(question, cypher);
    var results := run(cypherQuery);
    if results.Err? {
      return "❌ GraphRAG查询失败: " + results.error;
    }
    var a := GenerateAnswer(question, results.value, answer, show, raised);
    if a.Err? {
      return "❌ GraphRAG查询失败: " + a.error;
    }
    return a.value;
  }

  /** `EnhancedPRRAGSystem.query`: the graph path, or the vector path (a parameter) when `use_graph` is false. */
  method Query(question: string, useGraph: bool, cypher: string -> Result<string, string>,
               run: string -> Result<seq<Dict>, string>, answer: (string, string) -> Result<string, string>,
               show: Json -> string, raised: Json -> string, vector: string -> string)
    returns (r: string)
    ensures !useGraph ==> r == vector(question)
    ensures useGraph ==> var q := GenerateCypherQuery(question, cypher);
      run(q).Ok? && run(q).value == [] ==> r == NotFound
    ensures useGraph ==> var q := GenerateCypherQuery(question, cypher);
      run(q).Err? ==> r == "❌ GraphRAG查询失败: " + run(q).error
    ensures useGraph ==> var q := GenerateCypherQuery(question, cypher);
      run(q).Ok? && run(q).value != [] && Context(run(q).value, show).Err? ==>
        r == "❌ GraphRAG查询失败: " + raised(Context(run(q).value, show).error)
    ensures useGraph ==> var q := GenerateCypherQuery(question, cypher);
      run(q).Ok? && run(q).value != [] && Context(run(q).value, show).Ok? ==>
        var c := Context(run(q).value, show).value;
        r == match answer(question, c) case Ok(a) => a case Err(e) => "❌ 回答生成失败: " + e
  {
    if useGraph {
      r := GraphQuery(question, cypher, run, answer, show, raised);
    } else {
      r := vector(question);
    }
  }

  // ------------------------------------------------------- relationships

  /** `result[key]`, or the `KeyError` message `'key'` when the row lacks it. */
  function Field(row: Dict, key: string): (r: Result<Json, string>)
    ensures r.Err? <==> !HasKey(row, key)
    ensures r.Err? ==> r.error == "'" + key + "'"
  {
    GetSomeIffHasKey(row, key);
    match Get(row, key)
    case Some(v) => Ok(v)
    case None => Err("'" + key + "'")
  }

  /** The `rel_info` dict of one row; its keys are read in the order the literal lists them. */
  function RelInfo(row: Dict): Result<Json, string> {
    match Field(row, "relationship_type")
    case Err(e) => Err(e)
    case Ok(t) =>
      match Field(row, "related_entity")
      case Err(e) => Err(e)
      case Ok(related) =>
        match Field(row, "related_type")
        case Err(e) => Err(e)
        case Ok(kind) => Ok(JObj([("type", t), ("related_entity", related), ("related_type", kind)]))
  }

  /** The `rel_info` of every row, in order, or the first `KeyError`. */
  function RelInfos(rows: seq<Dict>): (r: Result<seq<Json>, string>)
    ensures r.Ok? ==> |r.value| == |rows|
  {
    if rows == [] then Ok([])
    else
      match RelInfos(rows[..|rows| - 1])
      case Err(e) => Err(e)
      case Ok(infos) =>
        match RelInfo(rows[|rows| - 1])
        case Err(e) => Err(e)
        case Ok(info) => Ok(infos + [info])
  }

  /** Every row gives the `rel_info` of its position, with the row's relationship type. */
  lemma {:induction false} RelInfosAt(rows: seq<Dict>, i: nat)
    requires i < |rows| && RelInfos(rows).Ok?
    ensures RelInfo(rows[i]).Ok? && RelInfos(rows).value[i] == RelInfo(rows[i]).value
    ensures Get(RelInfos(rows).value[i].members, "type") == Get(rows[i], "relationship_type")
  {
    if i < |rows| - 1 {
      RelInfosAt(rows[..|rows| - 1], i);
    }
  }

  /** Shaping fails exactly when some row lacks one of the three columns. */
  lemma {:induction false} RelInfosFail(rows: seq<Dict>)
    ensures RelInfos(rows).Err? <==>
      exists i :: 0 <= i < |rows| && !(HasKey(rows[i], "relationship_type")
        && HasKey(rows[i], "related_entity") && HasKey(rows[i], "related_type"))
  {
    if rows != [] {
      var init := rows[..|rows| - 1];
      RelInfosFail(init);
      if RelInfos(init).Err? {
        var i :| 0 <= i < |init| && !(HasKey(init[i], "relationship_type")
          && HasKey(init[i], "related_entity") && HasKey(init[i], "related_type"));
        assert rows[i] == init[i];
      }
      if RelInfos(rows).Ok? {
        forall i | 0 <= i < |rows|
          ensures HasKey(rows[i], "relationship_type") && HasKey(rows[i], "related_entity") && HasKey(rows[i], "related_type")
        {
          RelInfosAt(rows, i);
        }
      }
    }
  }

  /** The dict `get_entity_relationships` returns. */
  function Relationships(entityName: string, rows: Result<seq<Dict>, string>): Json {
    var infos := if rows.Err? then Err(rows.error) else RelInfos(rows.value);
    match infos
    case Err(e) => JObj([("error", JStr("获取实体关系失败: " + e))])
    case Ok(out) =>
      JObj([("entity_name", JStr(entityName)), ("outgoing_relationships", JArr(out)), ("incoming_relationships", JArr([]))])
  }

  /**
   * The result is the three-entry dict, with one outgoing relationship per row and an empty
   * incoming list, exactly when the query succeeded and every row has the three columns;
   * otherwise it is the one-entry error dict.
   */
  lemma RelationshipsShape(entityName: string, rows: Result<seq<Dict>, string>)
    ensures var d := Relationships(entityName, rows).members;
      (|d| == 3 && d[0] == ("entity_name", JStr(entityName)) && d[2] == ("incoming_relationships", JArr([]))
       && d[1].1.JArr? && |d[1].1.items| == |rows.value|)
      <==> rows.Ok? && forall i :: 0 <= i < |rows.value| ==>
             HasKey(rows.value[i], "relationship_type") && HasKey(rows.value[i], "related_entity")
             && HasKey(rows.value[i], "related_type")
    ensures var d := Relationships(entityName, rows).members;
      |d| != 3 ==> |d| == 1 && d[0].0 == "error"
  {
    if rows.Ok? {
      RelInfosFail(rows.value);
    }
  }

  /** `get_entity_relationships`; `rows` is the graph store's answer to the entity query. */
  method GetEntityRelationships(entityName: string, rows: Result<seq<Dict>, string>) returns (r: Json)
    ensures r == Relationships(entityName, rows)
  {
    if rows.Err? {
      return JObj([("error", JStr("获取实体关系失败: " + rows.error))]);
    }
    var results := rows.value;
    var outgoing: seq<Json> := [];
    var i := 0;
    while i < |results|
      invariant i <= |results|
      invariant RelInfos(results[..i]) == Ok(outgoing)
    {
      assert results[..i + 1][..i] == results[..i];
      var info := RelInfo(results[i]);
      if info.Err? {
        RelInfosStuck(results, i + 1);
        return JObj([("error", JStr("获取实体关系失败: " + info.error))]);
      }
      outgoing := outgoing + [info.value];
      i := i + 1;
    }
    assert results[..i] == results;
    return JObj([("entity_name", JStr(entityName)), ("outgoing_relationships", JArr(outgoing)), ("incoming_relationships", JArr([]))]);
  }

  /** A `KeyError` in the first `j` rows is the outcome for all of them. */
  lemma {:induction false} RelInfosStuck(rows: seq<Dict>, j: nat)
    requires j <= |rows| && RelInfos(rows[..j]).Err?
    ensures RelInfos(rows) == RelInfos(rows[..j])
    decreases |rows| - j
  {
    if j < |rows| {
      assert rows[..j + 1][..j] == rows[..j];
      RelInfosStuck(rows, j + 1);
    } else {
      assert rows[..j] == rows;
    }
  }
}
