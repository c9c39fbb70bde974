/**
 * `KnowledgeGraphRAG`: question answering over the knowledge graph.  The entities a question
 * mentions are matched against the triples, the graph around them is written out as facts, and
 * the completion service answers a prompt holding the question and those facts.
 *
 * The completion service is a parameter `complete` from the settings and the prompt to
 * `Ok(content)` or `Err(message)`; the environment is a parameter `env`.
 */
module KgRag {
  import opened Wrappers
  import opened Decimals
  import opened Strs
  import opened Json
  import opened KgGraph
  import opened KgReach
  import opened KgSearch
  import opened KgBuilder
  import SpoConfig

  // ------------------------------------------------------------------ settings

  datatype RagConfig = RagConfig(modelName: string, apiKey: string, baseUrl: Option<string>, temperature: Decimal, maxTokens: int)

  const DefaultModel: string := "deepseek/deepseek-chat-v3-0324"
  const FallbackModel: string := "gpt-3.5-turbo"
  const MissingKey: string := "API key未设置。请设置环境变量 OPENROUTER_API_KEY 或 OPENAI_API_KEY"

  /**
   * The constructor's settings: the key is the explicit one or the provider's environment
   * variable, a missing key raises `ValueError`, and the default model name is replaced.
   */
  function RagConfigure(modelName: string, apiKey: Option<string>, baseUrl: Option<string>,
                        temperature: Decimal, maxTokens: int, useOpenRouter: bool,
                        env: string -> Option<string>): (r: Result<RagConfig, string>)
    ensures var envKey := env(if useOpenRouter then "OPENROUTER_API_KEY" else "OPENAI_API_KEY");
      r.Ok? <==> (apiKey.Some? && apiKey.value != "") || (envKey.Some? && envKey.value != "")
    ensures r.Ok? && apiKey.Some? && apiKey.value != "" ==> r.value.apiKey == apiKey.value
    ensures r.Ok? ==> r.value.apiKey != ""
    ensures r.Ok? ==> r.value.modelName == (if modelName == DefaultModel then FallbackModel else modelName)
    ensures r.Ok? ==> r.value.modelName != DefaultModel
    ensures r.Ok? && useOpenRouter ==> r.value.baseUrl.Some?
    ensures r.Ok? && baseUrl.Some? && baseUrl.value != "" ==> r.value.baseUrl == baseUrl
  {
    var key := SpoConfig.OrElse(apiKey, env(if useOpenRouter then "OPENROUTER_API_KEY" else "OPENAI_API_KEY"));
    var url := if useOpenRouter then SpoConfig.OrElse(baseUrl, Some(SpoConfig.OpenRouterUrl)) else SpoConfig.OrElse(baseUrl, None);
    var model := if modelName != DefaultModel then modelName else FallbackModel;
    if key.None? || key.value == "" then Err(MissingKey)
    else Ok(RagConfig(model, key.value, url, temperature, maxTokens))
  }

  // ---------------------------------------------------------- entity matching

  /** `in` with a non-string left operand is a `TypeError`. */
  datatype MatchError = EntityNotAString

  /** `triple.get(k, '')` when it is a string; `None` when it is some other value. */
  function Mention(t: Dict, k: string): (r: Option<string>)
    ensures !HasKey(t, k) ==> r == Some("")
  {
    GetSomeIffHasKey(t, k);
    match Get(t, k)
    case None => Some("")
    case Some(JStr(s)) => Some(s)
    case Some(_) => None
  }

  /** `s in question_lower or any(word in question_words for word in s.split())`. */
  predicate Mentioned(question: string, s: string) {
    var ql := Lower(question);
    Contains(ql, s) || exists w :: w in Words(s) && w in Words(ql)
  }

  /** The subject, then the object, of one triple. */
  function MatchOne(question: string, acc: set<string>, t: Dict): Result<set<string>, MatchError> {
    match Mention(t, "subject")
    case None => Err(EntityNotAString)
    case Some(s) =>
      var acc' := if Mentioned(question, s) then acc + {s} else acc;
      match Mention(t, "object")
      case None => Err(EntityNotAString)
      case Some(o) => Ok(if Mentioned(question, o) then acc' + {o} else acc')
  }

  /** `_extract_entities_from_question`. */
  function Matched(question: string, ts: seq<Dict>): Result<set<string>, MatchError>
    decreases |ts|
  {
    if ts == [] then Ok({})
    else
      match Matched(question, ts[..|ts| - 1])
      case Err(e) => Err(e)
      case Ok(prev) => MatchOne(question, prev, ts[|ts| - 1])
  }

  /** Index `i` carries `x` as its subject or its object. */
  predicate MentionedAt(ts: seq<Dict>, i: int, x: string) {
    0 <= i < |ts| && (Mention(ts[i], "subject") == Some(x) || Mention(ts[i], "object") == Some(x))
  }

  /** The matcher raises exactly when some triple's subject or object is not a string. */
  lemma {:induction false} MatchedErr(question: string, ts: seq<Dict>)
    ensures Matched(question, ts).Err? <==>
      exists i :: 0 <= i < |ts| && (Mention(ts[i], "subject").None? || Mention(ts[i], "object").None?)
    decreases |ts|
  {
    if ts != [] {
      var init := ts[..|ts| - 1];
      MatchedErr(question, init);
      if Matched(question, init).Err? {
        var i :| 0 <= i < |init| && (Mention(init[i], "subject").None? || Mention(init[i], "object").None?);
        assert ts[i] == init[i];
      } else {
        if exists i :: 0 <= i < |ts| && (Mention(ts[i], "subject").None? || Mention(ts[i], "object").None?) {
          var i :| 0 <= i < |ts| && (Mention(ts[i], "subject").None? || Mention(ts[i], "object").None?);
          if i < |init| {
            assert init[i] == ts[i];
          }
        }
      }
    }
  }

  /**
   * When it does not raise, the matcher returns exactly the subjects and objects the question
   * mentions; predicates never take part.
   */
  lemma {:induction false} MatchedMembers(question: string, ts: seq<Dict>, x: string)
    requires Matched(question, ts).Ok?
    ensures x in Matched(question, ts).value <==> Mentioned(question, x) && exists i :: MentionedAt(ts, i, x)
    decreases |ts|
  {
    if ts != [] {
      var init := ts[..|ts| - 1];
      var last := |ts| - 1;
      assert Matched(question, init).Ok?;
      var prev := Matched(question, init).value;
      assert Matched(question, ts) == MatchOne(question, prev, ts[last]);
      MatchedMembers(question, init, x);
      MatchOneMembers(question, prev, ts[last], x);
      if x in Matched(question, ts).value {
        if x in prev {
          var i :| MentionedAt(init, i, x);
          assert init[i] == ts[i] && MentionedAt(ts, i, x);
        } else {
          assert MentionedAt(ts, last, x);
        }
      }
      if Mentioned(question, x) && exists i :: MentionedAt(ts, i, x) {
        var i :| MentionedAt(ts, i, x);
        if i < last {
          assert init[i] == ts[i] && MentionedAt(init, i, x);
        } else {
          assert MentionedAt([ts[last]], 0, x);
        }
      }
    }
  }

  lemma MatchOneMembers(question: string, acc: set<string>, t: Dict, x: string)
    requires MatchOne(question, acc, t).Ok?
    ensures x in MatchOne(question, acc, t).value <==>
      x in acc || (Mentioned(question, x) && MentionedAt([t], 0, x))
  {
  }

  /** The empty string is in every string, so a triple without a subject or object matches `''`. */
  lemma MissingMatchesEmpty(question: string, ts: seq<Dict>, i: nat)
    requires Matched(question, ts).Ok? && i < |ts| && (!HasKey(ts[i], "subject") || !HasKey(ts[i], "object"))
    ensures "" in Matched(question, ts).value
  {
    EmptyContained(Lower(question));
    assert MentionedAt(ts, i, "");
    MatchedMembers(question, ts, "");
  }

  /** A subject or object that is a whole word of the question always matches. */
  lemma WordMatches(question: string, ts: seq<Dict>, i: nat, x: string)
    requires Matched(question, ts).Ok? && MentionedAt(ts, i, x)
    requires Words(x) != [] && Words(x)[0] in Words(Lower(question))
    ensures x in Matched(question, ts).value
  {
    assert Words(x)[0] in Words(x);
    MatchedMembers(question, ts, x);
  }

  /** The loop of `_extract_entities_from_question`, adding to `query_entities`. */
  method ExtractEntitiesFromQuestion(question: string, triples: seq<Dict>) returns (r: Result<set<string>, MatchError>)
    ensures r == Matched(question, triples)
  {
    var ql := Lower(question);
    var queryEntities: set<string> := {};
    var i := 0;
    while i < |triples|
      invariant 0 <= i <= |triples|
      invariant Matched(question, triples[..i]) == Ok(queryEntities)
    {
      assert triples[..i + 1][..i] == triples[..i];
      var subject := Mention(triples[i], "subject");
      var obj := Mention(triples[i], "object");
      if subject.None? {
        RaiseSticks(question, triples, i + 1);
        return Err(EntityNotAString);
      }
      if Contains(ql, subject.value) || exists w :: w in Words(subject.value) && w in Words(ql) {
        queryEntities := queryEntities + {subject.value};
      }
      if obj.None? {
        RaiseSticks(question, triples, i + 1);
        return Err(EntityNotAString);
      }
      if Contains(ql, obj.value) || exists w :: w in Words(obj.value) && w in Words(ql) {
        queryEntities := queryEntities + {obj.value};
      }
      i := i + 1;
    }
    assert triples[..i] == triples;
    r := Ok(queryEntities);
  }

  /** Once the matcher has raised, later triples change nothing. */
  lemma {:induction false} RaiseSticks(question: string, ts: seq<Dict>, i: nat)
    requires i <= |ts| && Matched(question, ts[..i]).Err?
    ensures Matched(question, ts) == Matched(question, ts[..i])
    decreases |ts| - i
  {
    if i < |ts| {
      assert ts[..i + 1][..i] == ts[..i];
      RaiseSticks(question, ts, i + 1);
    } else {
      assert ts[..i] == ts;
    }
  }

  // ----------------------------------------------------------------- context

  const NoEntities: string := "未找到相关问题实体。"
  const NoFacts: string := "图谱中未找到与问题相关的信息。"
  const ContextTitle: string := "知识图谱上下文:"

  /** `_build_context_from_graph`. */
  function BuildContext(g: Graph<string>, entities: set<string>, maxTriples: int): string {
    if entities == {} then NoEntities
    else
      var lines := ContextLines(g, entities, maxTriples);
      if lines == [] then NoFacts else ContextTitle + "\n" + Join(lines, "\n")
  }

  /** `len(context_text.split('\n')) - 1`. */
  function LineCount(context: string): int {
    |Split(context, '\n')| - 1
  }

  /** No node and no label of the graph holds a line break. */
  predicate SingleLine(g: Graph<string>) {
    forall e :: e in g.edges ==> '\n' !in e.0 && '\n' !in e.1 && '\n' !in LabelOf(g, e)
  }

  /**
   * The context counts as 0 facts when it is one of the two notices, and otherwise as the
   * number of facts it holds, at most `max_triples`, as long as no entity or label spans lines.
   */
  lemma ContextCount(g: Graph<string>, entities: set<string>, maxTriples: int)
    requires WellFormed(g) && SingleLine(g)
    ensures var lines := ContextLines(g, entities, maxTriples);
      LineCount(BuildContext(g, entities, maxTriples)) == (if entities == {} then 0 else |lines|)
      && LineCount(BuildContext(g, entities, maxTriples)) <= (if maxTriples < 0 then 0 else maxTriples)
  {
    var lines := ContextLines(g, entities, maxTriples);
    ContextLinesFacts(g, entities, maxTriples);
    if entities == {} {
      SplitNone(NoEntities, '\n');
    } else if lines == [] {
      SplitNone(NoFacts, '\n');
    } else {
      LinesSingle(g, entities, maxTriples);
      ContextSplit(lines);
    }
  }

  /** The facts of a graph without line breaks are single lines. */
  lemma LinesSingle(g: Graph<string>, entities: set<string>, maxTriples: int)
    requires WellFormed(g) && SingleLine(g)
    ensures var lines := ContextLines(g, entities, maxTriples);
      forall i :: 0 <= i < |lines| ==> '\n' !in lines[i]
  {
    var lines := ContextLines(g, entities, maxTriples);
    ContextLinesFacts(g, entities, maxTriples);
    forall i | 0 <= i < |lines|
      ensures '\n' !in lines[i]
    {
      var u, v :| (u, v) in g.edges && lines[i] == Fact(u, LabelOf(g, (u, v)), v);
      FactSingle(u, LabelOf(g, (u, v)), v);
    }
  }

  lemma FactSingle(u: string, relation: string, v: string)
    requires '\n' !in u && '\n' !in relation && '\n' !in v
    ensures '\n' !in Fact(u, relation, v)
  {
    var f := Fact(u, relation, v);
    assert f == u + " " + relation + " " + v + ".";
    forall i | 0 <= i < |f|
      ensures f[i] != '\n'
    {
      if i < |u| {
        assert f[i] == u[i];
      } else if i < |u| + 1 + |relation| + 1 {
        if i == |u| || i == |u| + 1 + |relation| {
          assert f[i] == ' ';
        } else {
          assert f[i] == relation[i - |u| - 1];
        }
      } else if i < |f| - 1 {
        assert f[i] == v[i - |u| - |relation| - 2];
      } else {
        assert f[i] == '.';
      }
    }
  }

  /** A titled context of single lines splits into the title and the lines. */
  lemma ContextSplit(lines: seq<string>)
    requires |lines| >= 1 && forall i :: 0 <= i < |lines| ==> '\n' !in lines[i]
    ensures LineCount(ContextTitle + "\n" + Join(lines, "\n")) == |lines|
  {
    SplitJoin(lines, '\n');
    SplitNone(ContextTitle, '\n');
    SplitAt(ContextTitle, Join(lines, "\n"), '\n');
  }

  // ------------------------------------------------------------------ answers

  const QueryFailed: string := "❌ 查询失败: "

  /** The prompt of `query` and `query_with_related_entities`. */
  function Prompt(question: string, context: string): string {
    PromptHead + question + PromptContext + context + PromptTail
  }

  const PromptHead: string := "\n你是一个专业的问答专家，擅长基于知识图谱回答问题。\n请使用提供的知识图谱上下文来简洁地回答用户的问题。\n如果上下文中不包含答案，请说\"我不知道\"。\n\n问题: "
  const PromptContext: string := "\n\n上下文:\n"
  const PromptTail: string := "\n\n简洁回答:\n"

  /** The stripped reply, or the failure notice: a failing completion never raises. */
  function Answer(reply: Result<string, string>): (r: string)
    ensures reply.Ok? ==> IsStripped(r)
    ensures reply.Err? ==> StartsWith(r, QueryFailed) && r[|QueryFailed|..] == reply.error
  {
    match reply
    case Ok(content) => Strip(content)
    case Err(message) => QueryFailed + message
  }

  /** The result of `query_with_related_entities`; the entity lists are sets. */
  datatype Detailed = Detailed(answer: string, entitiesUsed: set<string>, contextTriplesCount: int, initialEntities: set<string>)

  /** The entities of the first `n` entries. */
  function FirstEntities(found: seq<Related<string>>, n: nat): set<string>
    requires n <= |found|
  {
    if n == 0 then {} else FirstEntities(found, n - 1) + {found[n - 1].entity}
  }

  lemma {:induction false} FirstEntitiesMembers(found: seq<Related<string>>, n: nat, x: string)
    requires n <= |found|
    ensures x in FirstEntities(found, n) <==> exists k :: 0 <= k < n && found[k].entity == x
  {
    if n > 0 {
      FirstEntitiesMembers(found, n - 1, x);
    }
  }

  /** The entities `find_related_entities(e, max_hops)` reports. */
  function RelatedOf(g: Graph<string>, e: string, maxHops: int): set<string> {
    FirstEntities(FindRelated(g, e, maxHops), |FindRelated(g, e, maxHops)|)
  }

  /** The entities related to some member of `done`. */
  function RelatedUnion(g: Graph<string>, done: set<string>, maxHops: int): set<string> {
    set e, x | e in done && x in RelatedOf(g, e, maxHops) :: x
  }

  /** `all_entities`: the matches and every entity related to one of them. */
  function Expanded(g: Graph<string>, initial: set<string>, maxHops: int): set<string> {
    initial + RelatedUnion(g, initial, maxHops)
  }

  /**
   * `entities_used` holds the matches and otherwise only graph nodes within `max_hops`
   * undirected steps of a match.
   */
  lemma ExpandedFacts(g: Graph<string>, initial: set<string>, maxHops: int)
    requires WellFormed(g)
    ensures initial <= Expanded(g, initial, maxHops)
    ensures forall x :: x in Expanded(g, initial, maxHops) && x !in initial ==>
      x in g.nodes && x in Reach(g, initial, maxHops)
  {
    forall x | x in Expanded(g, initial, maxHops) && x !in initial
      ensures x in g.nodes && x in Reach(g, initial, maxHops)
    {
      var e :| e in initial && x in RelatedOf(g, e, maxHops);
      var found := FindRelated(g, e, maxHops);
      FirstEntitiesMembers(found, |found|, x);
      var k :| 0 <= k < |found| && found[k].entity == x;
      FindRelatedSound(g, e, maxHops);
      assert EntryOk(g, e, found[..k], found[k]);
      FindRelatedWithinReach(g, e, maxHops, k);
      ReachMono(g, {e}, initial, maxHops);
    }
  }

  /** Every entity related to a match is used. */
  lemma ExpandedComplete(g: Graph<string>, initial: set<string>, maxHops: int, e: string, k: nat)
    requires e in initial && k < |FindRelated(g, e, maxHops)|
    ensures FindRelated(g, e, maxHops)[k].entity in Expanded(g, initial, maxHops)
  {
    var found := FindRelated(g, e, maxHops);
    FirstEntitiesMembers(found, |found|, found[k].entity);
    assert found[k].entity in RelatedOf(g, e, maxHops);
  }

  /** The dictionary `query_with_related_entities` returns for one reply. */
  function DetailedOf(reply: Result<string, string>, initial: set<string>, all: set<string>, context: string): (r: Detailed)
    ensures r.answer == Answer(reply)
    ensures reply.Ok? ==> r.initialEntities == initial && r.entitiesUsed == all && r.contextTriplesCount == LineCount(context)
    ensures reply.Err? ==> r.entitiesUsed == {} && r.initialEntities == {} && r.contextTriplesCount == 0
  {
    if reply.Ok? then Detailed(Answer(reply), all, LineCount(context), initial)
    else Detailed(Answer(reply), {}, 0, {})
  }

  /** The graph RAG system over one graph builder. */
  class KnowledgeGraphRag {
    const kg: KnowledgeGraphBuilder
    const config: RagConfig

    predicate Valid()
      reads this, kg
    {
      kg.Valid()
    }

    /** The constructor once `RagConfigure` has accepted the settings. */
    constructor(kg: KnowledgeGraphBuilder, config: RagConfig)
      ensures this.kg == kg && this.config == config
    {
      this.kg := kg;
      this.config := config;
    }

    /** `_build_context_from_graph`. */
    method BuildContextFromGraph(entities: set<string>, maxTriples: int) returns (context: string)
      requires Valid()
      ensures context == BuildContext(kg.graph, entities, maxTriples)
    {
      if entities == {} {
        return NoEntities;
      }
      var triplesText := kg.GetTriplesForContext(entities, maxTriples);
      if triplesText == [] {
        return NoFacts;
      }
      context := ContextTitle + "\n";
      context := context + Join(triplesText, "\n");
    }

    /**
     * `query`: match entities, write the graph around them out as facts, and ask.  Only a
     * non-string subject or object raises.
     */
    method Query(question: string, triples: seq<Dict>, maxContextTriples: int,
                 complete: (RagConfig, string) -> Result<string, string>) returns (r: Result<string, MatchError>)
      requires Valid()
      ensures Matched(question, triples).Err? <==> r.Err?
      ensures r.Ok? ==>
        var context := BuildContext(kg.graph, Matched(question, triples).value, maxContextTriples);
        r.value == Answer(complete(config, Prompt(question, context)))
    {
      var queryEntities := ExtractEntitiesFromQuestion(question, triples);
      if queryEntities.Err? {
        return Err(queryEntities.error);
      }
      var contextText := BuildContextFromGraph(queryEntities.value, maxContextTriples);
      var reply := complete(config, Prompt(question, contextText));
      return Ok(Answer(reply));
    }

    /** The loop that adds the related entities of every match to `all_entities`. */
    method ExpandEntities(initial: set<string>, maxHops: int) returns (all: set<string>)
      requires Valid()
      ensures all == Expanded(kg.graph, initial, maxHops)
    {
      all := initial;
      var todo := initial;
      ghost var done: set<string> := {};
      while todo != {}
        invariant todo + done == initial
        invariant all == initial + RelatedUnion(kg.graph, done, maxHops)
        decreases |todo|
      {
        var entity :| entity in todo;
        var related := kg.FindRelatedEntities(entity, maxHops);
        all := AddEntities(all, related);
        ExpandedStep(kg.graph, initial, done, entity, maxHops);
        Moved(initial, todo, done, entity);
        done := done + {entity};
        todo := todo - {entity};
      }
    }

    /**
     * `query_with_related_entities`: the context comes from the matches and everything related
     * to them; a failing completion gives the notice with empty entity lists and count 0.
     */
    method QueryWithRelatedEntities(question: string, triples: seq<Dict>, maxHops: int, maxContextTriples: int,
                                    complete: (RagConfig, string) -> Result<string, string>)
      returns (r: Result<Detailed, MatchError>)
      requires Valid()
      ensures Matched(question, triples).Err? <==> r.Err?
      ensures r.Ok? ==>
        var initial := Matched(question, triples).value;
        var all := Expanded(kg.graph, initial, maxHops);
        var context := BuildContext(kg.graph, all, maxContextTriples);
        r.value == DetailedOf(complete(config, Prompt(question, context)), initial, all, context)
    {
      var initialEntities := ExtractEntitiesFromQuestion(question, triples);
      if initialEntities.Err? {
        return Err(initialEntities.error);
      }
      var allEntities := ExpandEntities(initialEntities.value, maxHops);
      var contextText := BuildContextFromGraph(allEntities, maxContextTriples);
      var reply := complete(config, Prompt(question, contextText));
      if reply.Ok? {
        return Ok(Detailed(Answer(reply), allEntities, |Split(contextText, '\n')| - 1, initialEntities.value));
      }
      return Ok(Detailed(Answer(reply), {}, 0, {}));
    }
  }

  /** The inner loop: `all_entities.add(rel['entity'])` for every entry. */
  method AddEntities(all: set<string>, related: seq<Related<string>>) returns (all': set<string>)
    ensures all' == all + FirstEntities(related, |related|)
  {
    all' := all;
    var i := 0;
    while i < |related|
      invariant 0 <= i <= |related|
      invariant all' == all + FirstEntities(related, i)
    {
      all' := all' + {related[i].entity};
      i := i + 1;
    }
  }

  /** One step of the expansion loop: finishing `e` adds exactly its related entities. */
  lemma ExpandedStep(g: Graph<string>, initial: set<string>, done: set<string>, e: string, maxHops: int)
    ensures initial + RelatedUnion(g, done, maxHops) + RelatedOf(g, e, maxHops)
      == initial + RelatedUnion(g, done + {e}, maxHops)
  {
    forall x | x in RelatedUnion(g, done + {e}, maxHops)
      ensures x in RelatedUnion(g, done, maxHops) + RelatedOf(g, e, maxHops)
    {
      var e' :| e' in done + {e} && x in RelatedOf(g, e', maxHops);
    }
  }

  /** Moving `e` from the work list to the finished ones keeps their union. */
  lemma Moved(initial: set<string>, todo: set<string>, done: set<string>, e: string)
    requires todo + done == initial && e in todo
    ensures (todo - {e}) + (done + {e}) == initial && |todo - {e}| < |todo|
  {
  }
}
