/**
 * `UnifiedPRSystem`: a query is routed by keywords to knowledge lookup, entity analysis or
 * plan generation.  Plan generation reads an enterprise profile parsed from the query,
 * retrieves passages and graph facts for it, assembles a bounded context and asks the model
 * for one text per requested output type (A to F); any failure becomes an `error` value.
 * The retriever, the graph store, the model, `json.dumps` and `str()` are parameters.
 */
module UnifiedSystem {
  import opened Wrappers
  import opened Strs
  import opened Json

  // -------------------------------------------------------------- routing

  const PlanWords: seq<string> := ["方案", "策划", "计划", "生成"]
  const EntityWords: seq<string> := ["实体", "关系", "分析"]

  /** The mode after `auto` is resolved: plan keywords win over entity keywords; other modes stay as given. */
  function RouteMode(query: string, mode: string): (m: string)
    ensures mode != "auto" ==> m == mode
    ensures mode == "auto" ==>
      (m == "plan_generation" <==> AnyIn(PlanWords, query))
      && (m == "entity_analysis" <==> !AnyIn(PlanWords, query) && AnyIn(EntityWords, query))
      && (m == "knowledge_query" <==> !AnyIn(PlanWords, query) && !AnyIn(EntityWords, query))
  {
    if mode == "auto" then
      assert "plan_generation"[0] == 'p' && "entity_analysis"[0] == 'e' && "knowledge_query"[0] == 'k';
      if AnyIn(PlanWords, query) then "plan_generation"
      else if AnyIn(EntityWords, query) then "entity_analysis"
      else "knowledge_query"
    else mode
  }

  /** Routing never yields `auto`, so routing again changes nothing. */
  lemma RouteIdempotent(query: string, mode: string)
    ensures RouteMode(query, RouteMode(query, mode)) == RouteMode(query, mode)
  {
    if mode == "auto" {
      var m := RouteMode(query, mode);
      assert m[0] != 'a';
    }
  }

  // ------------------------------------------------------ enterprise info

  /** The enterprise profile `_parse_enterprise_info` builds; its keys are fixed. */
  datatype EnterpriseInfo = EnterpriseInfo(
    name: string, stage: string, industry: string, marketType: string,
    goal: string, cycle: string, budget: string, innovation: string)

  const DefaultInfo := EnterpriseInfo("示例企业", "中小微企业", "科技", "ToC", "品牌认知", "3个月", "100万", "适度创新")

  /** `_parse_enterprise_info`: the defaults, with the stage and the market type read from the query. */
  function ParseEnterpriseInfo(query: string): (info: EnterpriseInfo)
    ensures info.stage == (if Contains(query, "初创") then "初创企业"
      else if Contains(query, "大型") then "大型国企央企" else DefaultInfo.stage)
    ensures info.marketType == (if Contains(query, "ToB") then "ToB"
      else if Contains(query, "ToG") then "ToG" else DefaultInfo.marketType)
    ensures info.(stage := DefaultInfo.stage, marketType := DefaultInfo.marketType) == DefaultInfo
  {
    var staged :=
      if Contains(query, "初创") then DefaultInfo.(stage := "初创企业")
      else if Contains(query, "大型") then DefaultInfo.(stage := "大型国企央企")
      else DefaultInfo;
    if Contains(query, "ToB") then staged.(marketType := "ToB")
    else if Contains(query, "ToG") then staged.(marketType := "ToG")
    else staged
  }

  /** The retrieval query built from the profile. */
  function PlanQuery(info: EnterpriseInfo): string {
    info.stage + " " + info.industry + " " + info.marketType + " 目标:" + info.goal + " 创新:" + info.innovation
  }

  // ------------------------------------------------------------- context

  /** A retrieval hit: its text and its metadata (a dict, or anything else). */
  datatype Hit = Hit(text: string, meta: Json)

  /** The graph facts fetched for a goal. */
  datatype GraphData = GraphData(strategies: seq<string>, channels: seq<string>, cases: seq<string>, personas: seq<string>)

  /** `hit["meta"].get("source", "")` formatted, or `""` when the metadata is not a dict. */
  function SourceOf(h: Hit, show: Json -> string): string {
    if h.meta.JObj? then
      match Get(h.meta.members, "source")
      case Some(JStr(s)) => s
      case Some(v) => show(v)
      case None => ""
    else ""
  }

  /** The context block of the `k`-th hit (counted from 1). */
  function HitPart(k: nat, h: Hit, show: Json -> string): string {
    "[" + NatToString(k) + "] " + Take(h.text, 800) + "\n— 来源：" + SourceOf(h, show)
  }

  function HitParts(hits: seq<Hit>, show: Json -> string): (ps: seq<string>)
    ensures |ps| == |hits|
  {
    if hits == [] then []
    else HitParts(hits[..|hits| - 1], show) + [HitPart(|hits|, hits[|hits| - 1], show)]
  }

  /** Each hit's block is numbered by its position and quotes at most 800 characters of its text. */
  lemma {:induction false} HitPartAt(hits: seq<Hit>, show: Json -> string, i: nat)
    requires i < |hits|
    ensures HitParts(hits, show)[i] == HitPart(i + 1, hits[i], show)
    ensures |Take(hits[i].text, 800)| <= 800
  {
    if i < |hits| - 1 {
      HitPartAt(hits[..|hits| - 1], show, i);
    }
  }

  function GraphPart(g: GraphData, showList: seq<string> -> string): string {
    "策略: " + showList(g.strategies) + "\n渠道: " + showList(g.channels)
    + "\n案例: " + showList(g.cases) + "\n人群: " + showList(g.personas)
  }

  /** The context: the hit blocks and the graph block, blank-line separated, cut to `maxChars`. */
  function Context(hits: seq<Hit>, g: GraphData, maxChars: int, show: Json -> string, showList: seq<string> -> string): (c: string)
    ensures maxChars >= 0 ==> |c| <= maxChars
    ensures var full := Join(HitParts(hits, show) + [GraphPart(g, showList)], "\n\n");
      StartsWith(full, c) && (0 <= maxChars <= |full| ==> |c| == maxChars)
    ensures var full := Join(HitParts(hits, show) + [GraphPart(g, showList)], "\n\n");
      |full| <= maxChars ==> c == full
    ensures var full := Join(HitParts(hits, show) + [GraphPart(g, showList)], "\n\n");
      maxChars < 0 ==> c == full[..if |full| + maxChars < 0 then 0 else |full| + maxChars]
  {
    Take(Join(HitParts(hits, show) + [GraphPart(g, showList)], "\n\n"), maxChars)
  }

  // ---------------------------------------------------------------- plans

  const AllTypes: seq<string> := ["A", "B", "C", "D", "E", "F"]

  /** The outcome of `generate_pr_plan`: one text per requested type, or the error message. */
  datatype PlanResult = Plans(texts: seq<(string, string)>) | PlanError(error: string)

  /** The types among A to F that are requested, in that order. */
  function Requested(types: seq<string>, from: seq<string>): (ks: seq<string>)
    ensures forall k :: k in ks <==> k in from && k in types
  {
    if from == [] then []
    else Requested(types, from[..|from| - 1]) + (if from[|from| - 1] in types then [from[|from| - 1]] else [])
  }

  /**
   * The `results` dict after the `if "X" in output_types` blocks for the types in `from`: a
   * model text per requested type, in that order, or the first failure, which ends the plan.
   */
  function PlanTexts(types: seq<string>, from: seq<string>, complete: (string, string, string) -> Result<string, string>,
                     context: string, vars: string): Result<seq<(string, string)>, string>
  {
    if from == [] then Ok([])
    else AddText(PlanTexts(types, from[..|from| - 1], complete, context, vars), types, from[|from| - 1], complete, context, vars)
  }

  /** One `if "X" in output_types` block. */
  function AddText(sofar: Result<seq<(string, string)>, string>, types: seq<string>, k: string,
                   complete: (string, string, string) -> Result<string, string>, context: string, vars: string)
    : Result<seq<(string, string)>, string>
  {
    if sofar.Err? || k !in types then sofar
    else
      match complete(k, context, vars)
      case Err(e) => Err(e)
      case Ok(t) => Ok(sofar.value + [(k, t)])
  }

  lemma PlanTextsStep(types: seq<string>, from: seq<string>, j: nat, complete: (string, string, string) -> Result<string, string>,
                      context: string, vars: string)
    requires j < |from|
    ensures PlanTexts(types, from[..j + 1], complete, context, vars)
      == AddText(PlanTexts(types, from[..j], complete, context, vars), types, from[j], complete, context, vars)
  {
    assert from[..j + 1][..j] == from[..j];
  }

  /** A failure is final: the later blocks keep it. */
  lemma {:induction false} PlanTextsSticky(types: seq<string>, from: seq<string>, j: nat,
                                           complete: (string, string, string) -> Result<string, string>, context: string, vars: string)
    requires j <= |from| && PlanTexts(types, from[..j], complete, context, vars).Err?
    ensures PlanTexts(types, from, complete, context, vars) == PlanTexts(types, from[..j], complete, context, vars)
    decreases |from| - j
  {
    if j < |from| {
      PlanTextsStep(types, from, j, complete, context, vars);
      PlanTextsSticky(types, from, j + 1, complete, context, vars);
    } else {
      assert from[..j] == from;
    }
  }

  /** A finished plan has one text per requested type, keyed by it, in the order of `from`. */
  lemma {:induction false} PlanTextsKeys(types: seq<string>, from: seq<string>,
                                         complete: (string, string, string) -> Result<string, string>, context: string, vars: string)
    requires PlanTexts(types, from, complete, context, vars).Ok?
    ensures var ts := PlanTexts(types, from, complete, context, vars).value;
      var ks := Requested(types, from);
      |ts| == |ks| && forall i :: 0 <= i < |ks| ==> ts[i].0 == ks[i]
  {
    if from != [] {
      PlanTextsKeys(types, from[..|from| - 1], complete, context, vars);
    }
  }

  /** The plan fails exactly when the model fails on some requested type. */
  lemma {:induction false} PlanTextsFails(types: seq<string>, from: seq<string>,
                                          complete: (string, string, string) -> Result<string, string>, context: string, vars: string)
    ensures PlanTexts(types, from, complete, context, vars).Err?
      <==> exists k :: k in Requested(types, from) && complete(k, context, vars).Err?
  {
    if from != [] {
      var init := from[..|from| - 1];
      PlanTextsFails(types, init, complete, context, vars);
      assert forall k :: k in Requested(types, from) <==> k in Requested(types, init) || (k == from[|from| - 1] && k in types);
    }
  }

  /** Without `output_types` all six types are requested; when the model never fails, the plan has A to F in order. */
  lemma DefaultPlan(complete: (string, string, string) -> Result<string, string>, context: string, vars: string)
    requires forall k :: k in AllTypes ==> complete(k, context, vars).Ok?
    ensures PlanTexts(AllTypes, AllTypes, complete, context, vars).Ok?
    ensures var ts := PlanTexts(AllTypes, AllTypes, complete, context, vars).value;
      |ts| == 6 && forall i :: 0 <= i < 6 ==> ts[i].0 == AllTypes[i]
  {
    PlanTextsFails(AllTypes, AllTypes, complete, context, vars);
    RequestedMono(AllTypes, AllTypes);
    PlanTextsKeys(AllTypes, AllTypes, complete, context, vars);
  }

  /** When every type of `from` is requested, all of `from` is kept, in order. */
  lemma {:induction false} RequestedMono(from: seq<string>, types: seq<string>)
    requires forall k :: k in from ==> k in types
    ensures Requested(types, from) == from
  {
    if from != [] {
      var init := from[..|from| - 1];
      RequestedMono(init, types);
      assert init + [from[|from| - 1]] == from;
    }
  }

  /**
   * `generate_pr_plan`.  `retrieve` and `fetchGraph` stand for the graph RAG store, `complete`
   * for `llm_complete` on the prompt of a type filled with the context and the profile's JSON
   * text `dumps(info)`; an `Err` from any of them is the exception the `try` turns into the
   * error value.
   */
  method GeneratePrPlan(
    info: EnterpriseInfo, outputTypes: Option<seq<string>>, topK: int, maxChars: int,
    retrieve: (string, int) -> Result<seq<Hit>, string>, fetchGraph: string -> Result<GraphData, string>,
    complete: (string, string, string) -> Result<string, string>, dumps: EnterpriseInfo -> string,
    show: Json -> string, showList: seq<string> -> string)
    returns (r: PlanResult)
    ensures retrieve(PlanQuery(info), topK).Err? ==> r == PlanError("方案生成失败: " + retrieve(PlanQuery(info), topK).error)
    ensures retrieve(PlanQuery(info), topK).Ok? && fetchGraph(info.goal).Err? ==>
      r == PlanError("方案生成失败: " + fetchGraph(info.goal).error)
    ensures retrieve(PlanQuery(info), topK).Ok? && fetchGraph(info.goal).Ok? ==>
      var types := if outputTypes.Some? then outputTypes.value else AllTypes;
      var context := Context(retrieve(PlanQuery(info), topK).value, fetchGraph(info.goal).value, maxChars, show, showList);
      var texts := PlanTexts(types, AllTypes, complete, context, dumps(info));
      r == if texts.Ok? then Plans(texts.value) else PlanError("方案生成失败: " + texts.error)
  {
    var types := if outputTypes.None? then AllTypes else outputTypes.value;
    var query := info.stage + " " + info.industry + " " + info.marketType + " 目标:" + info.goal + " 创新:" + info.innovation;
    var vecHits := retrieve(query, topK);
    if vecHits.Err? {
      return PlanError("方案生成失败: " + vecHits.error);
    }
    var graphData := fetchGraph(info.goal);
    if graphData.Err? {
      return PlanError("方案生成失败: " + graphData.error);
    }
    var hits := vecHits.value;
    var contextParts: seq<string> := [];
    var i := 0;
    while i < |hits|
      invariant i <= |hits|
      invariant contextParts == HitParts(hits[..i], show)
    {
      assert hits[..i + 1][..i] == hits[..i];
      contextParts := contextParts + ["[" + NatToString(i + 1) + "] " + Take(hits[i].text, 800) + "\n— 来源：" + SourceOf(hits[i], show)];
      i := i + 1;
    }
    assert hits[..i] == hits;
    var graphPart := GraphPart(graphData.value, showList);
    var context := Take(Join(contextParts + [graphPart], "\n\n"), maxChars);
    var texts := FillPlans(types, context, dumps(info), complete);
    if texts.Err? {
      return PlanError("方案生成失败: " + texts.error);
    }
    return Plans(texts.value);
  }

  /** The `if "X" in output_types` blocks of `generate_pr_plan`, A to F in turn. */
  method FillPlans(types: seq<string>, context: string, varsText: string, complete: (string, string, string) -> Result<string, string>)
    returns (texts: Result<seq<(string, string)>, string>)
    ensures texts == PlanTexts(types, AllTypes, complete, context, varsText)
  {
    var results: seq<(string, string)> := [];
    assert AllTypes[..0] == [];
    PlanTextsStep(types, AllTypes, 0, complete, context, varsText);
    if "A" in types {
      var t := complete("A", context, varsText);
      if t.Err? {
        PlanTextsSticky(types, AllTypes, 1, complete, context, varsText);
        return Err(t.error);
      }
      results := results + [("A", t.value)];
    }
    assert Ok(results) == PlanTexts(types, AllTypes[..1], complete, context, varsText);
    PlanTextsStep(types, AllTypes, 1, complete, context, varsText);
    if "B" in types {
      var t := complete("B", context, varsText);
      if t.Err? {
        PlanTextsSticky(types, AllTypes, 2, complete, context, varsText);
        return Err(t.error);
      }
      results := results + [("B", t.value)];
    }
    assert Ok(results) == PlanTexts(types, AllTypes[..2], complete, context, varsText);
    PlanTextsStep(types, AllTypes, 2, complete, context, varsText);
    if "C" in types {
      var t := complete("C", context, varsText);
      if t.Err? {
        PlanTextsSticky(types, AllTypes, 3, complete, context, varsText);
        return Err(t.error);
      }
      results := results + [("C", t.value)];
    }
    assert Ok(results) == PlanTexts(types, AllTypes[..3], complete, context, varsText);
    PlanTextsStep(types, AllTypes, 3, complete, context, varsText);
    if "D" in types {
      var t := complete("D", context, varsText);
      if t.Err? {
        PlanTextsSticky(types, AllTypes, 4, complete, context, varsText);
        return Err(t.error);
      }
      results := results + [("D", t.value)];
    }
    assert Ok(results) == PlanTexts(types, AllTypes[..4], complete, context, varsText);
    PlanTextsStep(types, AllTypes, 4, complete, context, varsText);
    if "E" in types {
      var t := complete("E", context, varsText);
      if t.Err? {
        PlanTextsSticky(types, AllTypes, 5, complete, context, varsText);
        return Err(t.error);
      }
      results := results + [("E", t.value)];
    }
    assert Ok(results) == PlanTexts(types, AllTypes[..5], complete, context, varsText);
    PlanTextsStep(types, AllTypes, 5, complete, context, varsText);
    if "F" in types {
      var t := complete("F", context, varsText);
      if t.Err? {
        PlanTextsSticky(types, AllTypes, 6, complete, context, varsText);
        return Err(t.error);
      }
      results := results + [("F", t.value)];
    }
    assert Ok(results) == PlanTexts(types, AllTypes[..6], complete, context, varsText);
    assert AllTypes[..6] == AllTypes;
    return Ok(results);
  }

  // ------------------------------------------------------------ dispatch

  /** What the chosen handler returned. */
  datatype Outcome = Knowledge(answer: string) | EntityReport(report: Json) | PlanOutcome(plan: PlanResult)

  /** The result dict of `unified_query` without its timestamp. */
  datatype QueryResult = QueryResult(query: string, mode: string, result: Option<Outcome>)

  /**
   * `unified_query`; `knowledge`, `analyze` and `plan` are `query_knowledge`, `analyze_entities`
   * and `generate_pr_plan`, and the plan reads the profile `_parse_enterprise_info` builds.
   */
  function UnifiedQuery(query: string, mode: string, knowledge: string -> string, analyze: string -> Json,
                        plan: EnterpriseInfo -> PlanResult): (r: QueryResult)
    ensures r.query == query && r.mode == RouteMode(query, mode)
    ensures r.result.None? <==> r.mode !in ["knowledge_query", "entity_analysis", "plan_generation"]
    ensures r.mode == "knowledge_query" ==> r.result == Some(Knowledge(knowledge(query)))
    ensures r.mode == "entity_analysis" ==> r.result == Some(EntityReport(analyze(query)))
    ensures r.mode == "plan_generation" ==> r.result == Some(PlanOutcome(plan(ParseEnterpriseInfo(query))))
  {
    var m := RouteMode(query, mode);
    var result :=
      if m == "knowledge_query" then Some(Knowledge(knowledge(query)))
      else if m == "entity_analysis" then Some(EntityReport(analyze(query)))
      else if m == "plan_generation" then Some(PlanOutcome(plan(ParseEnterpriseInfo(query))))
      else None;
    QueryResult(query, m, result)
  }
}
