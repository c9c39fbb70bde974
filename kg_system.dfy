/**
 * `IntegratedKGSystem`: extraction, normalisation, graph building and graph RAG behind one
 * object.  Nothing is queryable until `process_text` has built the RAG system; `clear` goes
 * back to that state.
 */
module KgSystem {
  import opened Wrappers
  import opened Decimals
  import opened Strs
  import opened Json
  import opened SpoConfig
  import opened SpoChunks
  import opened SpoReplies
  import opened SpoNormal
  import opened SpoExtractor
  import opened KgGraph
  import opened KgTriples
  import opened KgReach
  import opened KgRank
  import opened KgBuilder
  import opened KgRag

  /** What a query reports before the graph is usable. */
  datatype QueryError =
    | NotBuilt   // no text processed since construction or `clear`
    | NoTriples  // the last `process_text` normalised no triple

  /** The dictionary `process_text` returns. */
  datatype ProcessResult = ProcessResult(
    extraction: Extraction, normalizedTriplesCount: nat, graphStats: Stats, edgesAdded: nat)

  /** The settings `process_text` gives the RAG system: the extractor's model, key and URL. */
  function RagSettings(extractor: ExtractorConfig, useOpenRouter: bool, env: string -> Option<string>): (r: Result<RagConfig, string>)
    ensures extractor.apiKey != "" ==> r.Ok? && r.value.apiKey == extractor.apiKey
  {
    RagConfigure(extractor.modelName, Some(extractor.apiKey), extractor.baseUrl, Tenths(7), 500, useOpenRouter, env)
  }

  /** Normalised triples hold strings and no extra key but `source_chunk`, so adding them never raises, and every one is accepted. */
  lemma {:induction false} NormalAddsAll(g: Graph<string>, r: seq<NormTriple>)
    requires forall i :: 0 <= i < |r| ==> r[i].subj != "" && r[i].pred != "" && r[i].obj != ""
    ensures !AddAll(g, AsDicts(r)).raised && AddAll(g, AsDicts(r)).added == |r|
    decreases |r|
  {
    if r != [] {
      var init := r[..|r| - 1];
      var t := r[|r| - 1];
      assert AsDicts(r)[..|r| - 1] == AsDicts(init);
      NormalAddsAll(g, init);
      NormalAccepted(t);
    }
  }

  lemma NormalAccepted(t: NormTriple)
    requires t.subj != "" && t.pred != "" && t.obj != ""
    ensures Accepted(AsDict(t)) == Some((t.subj, t.pred, t.obj)) && !Raises(AsDict(t))
  {
    AsDictFields(t);
    var x := Extras(AsDict(t));
    forall i | 0 <= i < |x|
      ensures x[i].0 == "source_chunk"
    {
      assert x[i] in AsDict(t);
    }
  }

  /** Normalised triples hold only strings, so the matcher never raises on them. */
  lemma NormalAlwaysMatches(question: string, r: seq<NormTriple>)
    ensures Matched(question, AsDicts(r)).Ok?
  {
    MatchedErr(question, AsDicts(r));
    forall i | 0 <= i < |r|
      ensures Mention(AsDicts(r)[i], "subject").Some? && Mention(AsDicts(r)[i], "object").Some?
    {
      AsDictsAt(r, i);
      AsDictFields(r[i]);
    }
  }

  /** The entities a question mentions among normalised triples. */
  function QuestionEntities(question: string, r: seq<NormTriple>): (es: set<string>)
    ensures Matched(question, AsDicts(r)) == Ok(es)
  {
    NormalAlwaysMatches(question, r);
    Matched(question, AsDicts(r)).value
  }

  /** The context length `query` and `query_with_details` use. */
  const MaxContextTriples: int := 50

  class IntegratedKgSystem {
    const extractor: ExtractorConfig
    const useOpenRouter: bool
    const kgBuilder: KnowledgeGraphBuilder
    var ragSystem: KnowledgeGraphRag?
    var normalizedTriples: seq<NormTriple>

    predicate Valid()
      reads this, kgBuilder
    {
      kgBuilder.Valid() && extractor.apiKey != ""
      && (ragSystem != null ==> ragSystem.kg == kgBuilder)
      && (forall i :: 0 <= i < |normalizedTriples| ==>
            normalizedTriples[i].subj != "" && normalizedTriples[i].pred != "" && normalizedTriples[i].obj != "")
    }

    /** The system once `Configure` has accepted the extractor's settings. */
    constructor(extractor: ExtractorConfig, useOpenRouter: bool)
      requires extractor.apiKey != ""
      ensures Valid() && fresh(kgBuilder)
      ensures this.extractor == extractor && this.useOpenRouter == useOpenRouter
      ensures ragSystem == null && normalizedTriples == [] && kgBuilder.graph == Empty()
    {
      this.extractor := extractor;
      this.useOpenRouter := useOpenRouter;
      kgBuilder := new KnowledgeGraphBuilder();
      ragSystem := null;
      normalizedTriples := [];
    }

    /**
     * `process_text`: extract, normalise, add to the graph, and build a fresh RAG system.  The
     * stored triples are this call's only; the graph keeps what earlier calls added.  The
     * chunking `ValueError` leaves everything as it was.
     */
    method ProcessText(text: string, chunkSize: int, overlap: int,
                       reply: string -> Result<string, string>, parse: string -> Option<Json>,
                       env: string -> Option<string>)
      returns (r: Result<ProcessResult, ChunkConfigError>)
      requires Valid()
      modifies this, kgBuilder
      ensures Valid()
      ensures overlap >= chunkSize && chunkSize > 0 ==>
        r == Err(OverlapNotSmaller(overlap, chunkSize)) && unchanged(this) && unchanged(kgBuilder)
      ensures !(overlap >= chunkSize && chunkSize > 0) ==>
        var extraction := Extracted(TextChunks(text, chunkSize, overlap), reply, parse);
        var norm := Normalized(extraction.triples);
        normalizedTriples == norm
        && kgBuilder.graph == AddAll(old(kgBuilder.graph), AsDicts(norm)).graph
        && kgBuilder.triplesCount == old(kgBuilder.triplesCount) + |norm| && kgBuilder.Counted()
        && ragSystem != null && fresh(ragSystem) && ragSystem.config == RagSettings(extractor, useOpenRouter, env).value
        && r == Ok(ProcessResult(extraction, |norm|, kgBuilder.GetStatistics(), |norm|))
    {
      var extraction := ExtractTriplesFromText(text, chunkSize, overlap, reply, parse);
      if extraction.Err? {
        return Err(extraction.error);
      }
      normalizedTriples := NormalizeTriples(extraction.value.triples);
      NormalizedNormal(extraction.value.triples);
      forall i | 0 <= i < |normalizedTriples|
        ensures normalizedTriples[i].subj != "" && normalizedTriples[i].pred != "" && normalizedTriples[i].obj != ""
      {
        assert normalizedTriples[i] in normalizedTriples;
      }
      NormalAddsAll(kgBuilder.graph, normalizedTriples);
      var added := kgBuilder.AddTriples(AsDicts(normalizedTriples));
      var settings := RagSettings(extractor, useOpenRouter, env);
      ragSystem := new KnowledgeGraphRag(kgBuilder, settings.value);
      var stats := kgBuilder.GetStatistics();
      return Ok(ProcessResult(extraction.value, |normalizedTriples|, stats, added.value));
    }

    /** `query`: refused before a graph is built or when it has no triples. */
    method Query(question: string, complete: (RagConfig, string) -> Result<string, string>)
      returns (r: Result<string, QueryError>)
      requires Valid()
      ensures ragSystem == null ==> r == Err(NotBuilt)
      ensures ragSystem != null && normalizedTriples == [] ==> r == Err(NoTriples)
      ensures ragSystem != null && normalizedTriples != [] ==>
        var context := BuildContext(kgBuilder.graph, QuestionEntities(question, normalizedTriples), MaxContextTriples);
        r == Ok(Answer(complete(ragSystem.config, Prompt(question, context))))
    {
      if ragSystem == null {
        return Err(NotBuilt);
      }
      if normalizedTriples == [] {
        return Err(NoTriples);
      }
      ghost var entities := QuestionEntities(question, normalizedTriples);
      var answer := ragSystem.Query(question, AsDicts(normalizedTriples), MaxContextTriples, complete);
      return Ok(answer.value);
    }

    /** `query_with_details`: the same guards, then the query with related entities. */
    method QueryWithDetails(question: string, maxHops: int, complete: (RagConfig, string) -> Result<string, string>)
      returns (r: Result<Detailed, QueryError>)
      requires Valid()
      ensures ragSystem == null ==> r == Err(NotBuilt)
      ensures ragSystem != null && normalizedTriples == [] ==> r == Err(NoTriples)
      ensures ragSystem != null && normalizedTriples != [] ==>
        var initial := QuestionEntities(question, normalizedTriples);
        var all := Expanded(kgBuilder.graph, initial, maxHops);
        var context := BuildContext(kgBuilder.graph, all, MaxContextTriples);
        r == Ok(DetailedOf(complete(ragSystem.config, Prompt(question, context)), initial, all, context))
    {
      if ragSystem == null {
        return Err(NotBuilt);
      }
      if normalizedTriples == [] {
        return Err(NoTriples);
      }
      ghost var initial := QuestionEntities(question, normalizedTriples);
      var detailed := ragSystem.QueryWithRelatedEntities(question, AsDicts(normalizedTriples), maxHops, MaxContextTriples, complete);
      return Ok(detailed.value);
    }

    /** `get_graph_statistics`: the builder's statistics. */
    function GetGraphStatistics(): (r: Stats)
      reads this, kgBuilder
      ensures r.nodes == |kgBuilder.graph.nodes| && r.edges == |kgBuilder.graph.edges|
      ensures r.triplesAdded == kgBuilder.triplesCount
    {
      kgBuilder.GetStatistics()
    }

    /** `get_top_entities`: the builder's highest-degree nodes. */
    function GetTopEntities(topK: int): (r: seq<Ranked<string>>)
      reads this, kgBuilder
      ensures r == kgBuilder.GetNodeWithHighestDegree(topK)
      ensures |r| <= |kgBuilder.graph.nodes| && (topK >= 0 ==> |r| <= topK)
      ensures forall i :: 0 <= i < |r| ==>
        (r[i].entity in kgBuilder.graph.nodes && r[i].degree == r[i].inDegree + r[i].outDegree == Degree(kgBuilder.graph, r[i].entity))
      ensures forall i :: 0 < i < |r| ==> r[i - 1].degree >= r[i].degree
    {
      kgBuilder.GetNodeWithHighestDegree(topK)
    }

    /** `clear`: an empty graph, no triples and no RAG system, so queries are refused again. */
    method Clear()
      requires Valid()
      modifies this, kgBuilder
      ensures Valid()
      ensures kgBuilder.graph == Empty() && kgBuilder.triplesCount == 0 && kgBuilder.Counted()
      ensures normalizedTriples == [] && ragSystem == null
    {
      kgBuilder.Clear();
      normalizedTriples := [];
      ragSystem := null;
    }
  }
}
