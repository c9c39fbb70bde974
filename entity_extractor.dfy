/**
 * The entity/relationship extractor around the parsers: its SPO switch, the conversion of
 * normalised SPO triples into entity and relationship records, and the shaping of the
 * `process_chunk` result in both copies of the extractor.
 *
 * The completion service appears as the replies it gave (`Err` when there is no client or the
 * call raised); the rule-based fallback (regex taggers) appears as the result it produced.
 */
module EntityExtractor {
  import opened Wrappers
  import opened Decimals
  import opened Strs
  import opened Json
  import opened SpoChunks
  import opened SpoReplies
  import opened SpoNormal
  import opened SpoConfig
  import opened SpoExtractor
  import opened EntityParsers

  // ------------------------------------------------------------ the switch

  /** The SPO settings the constructor leaves behind. */
  datatype ExtractorState = ExtractorState(useSpo: bool, spoExtractor: Option<ExtractorConfig>)

  /**
   * `__init__`: SPO is on only when asked for and importable, and it is switched off again when
   * constructing the SPO extractor raises.
   */
  function NewExtractor(useSpoExtractor: bool, available: bool, spoConfig: Result<ExtractorConfig, string>)
    : (x: ExtractorState)
    ensures x.useSpo <==> useSpoExtractor && available && spoConfig.Ok?
    ensures x.useSpo <==> x.spoExtractor.Some?
    ensures x.spoExtractor.Some? ==> spoConfig == Ok(x.spoExtractor.value)
  {
    if useSpoExtractor && available then
      match spoConfig
      case Ok(c) => ExtractorState(true, Some(c))
      case Err(_) => ExtractorState(false, None)
    else ExtractorState(false, None)
  }

  // ------------------------------------------------- extract_spo_triples_from_text

  datatype SpoError = SpoDisabled | Chunking(error: ChunkConfigError)

  datatype SpoResult = SpoResult(
    triples: seq<Dict>, normalizedTriples: seq<NormTriple>, failedChunks: seq<FailedChunk>,
    totalChunks: nat, successfulChunks: int)

  /** The result dict of `extract_spo_triples_from_text` for one extraction. */
  function SpoResultOf(e: Extraction): SpoResult {
    SpoResult(e.triples, Normalized(e.triples), e.failedChunks, e.totalChunks, e.successfulChunks)
  }

  /**
   * What the SPO extractor yields for a text whose chunking settings are accepted: the windows
   * over the words, the replies collected per chunk, and the normalised triples.
   */
  function SpoExtraction(text: string, chunkSize: int, overlap: int,
                         reply: string -> Result<string, string>, parse: string -> Option<Json>): SpoResult
  {
    SpoResultOf(Extracted(TextChunks(text, chunkSize, overlap), reply, parse))
  }

  /** `extract_spo_triples_from_text`: refuses when SPO is off, else extracts and normalises. */
  method ExtractSpoTriplesFromText(x: ExtractorState, text: string, chunkSize: int, overlap: int,
                                   reply: string -> Result<string, string>, parse: string -> Option<Json>)
    returns (r: Result<SpoResult, SpoError>)
    ensures !(x.useSpo && x.spoExtractor.Some?) ==> r == Err(SpoDisabled)
    ensures x.useSpo && x.spoExtractor.Some? && overlap >= chunkSize && chunkSize > 0 ==>
      r == Err(Chunking(OverlapNotSmaller(overlap, chunkSize)))
    ensures x.useSpo && x.spoExtractor.Some? && !(overlap >= chunkSize && chunkSize > 0) ==>
      r == Ok(SpoExtraction(text, chunkSize, overlap, reply, parse))
  {
    if !x.useSpo || x.spoExtractor.None? {
      return Err(SpoDisabled);
    }
    r := ExtractAndNormalize(text, chunkSize, overlap, reply, parse);
  }

  /** The part of `extract_spo_triples_from_text` after the switch is checked. */
  method ExtractAndNormalize(text: string, chunkSize: int, overlap: int,
                             reply: string -> Result<string, string>, parse: string -> Option<Json>)
    returns (r: Result<SpoResult, SpoError>)
    ensures overlap >= chunkSize && chunkSize > 0 ==> r == Err(Chunking(OverlapNotSmaller(overlap, chunkSize)))
    ensures !(overlap >= chunkSize && chunkSize > 0) ==> r == Ok(SpoExtraction(text, chunkSize, overlap, reply, parse))
  {
    var extraction := ExtractTriplesFromText(text, chunkSize, overlap, reply, parse);
    if extraction.Err? {
      return Err(Chunking(extraction.error));
    }
    var e := extraction.value;
    var normalized := NormalizeTriples(e.triples);
    return Ok(SpoResult(e.triples, normalized, e.failedChunks, e.totalChunks, e.successfulChunks));
  }

  // ------------------------------------------------------- _spo_to_entities

  const BrandWords: seq<string> := ["品牌", "brand"]
  const CompanyWords: seq<string> := ["公司", "企业", "company"]
  const CampaignWords: seq<string> := ["活动", "campaign"]
  const MediaWords: seq<string> := ["媒体", "平台", "media"]
  const StrategyWords: seq<string> := ["策略", "strategy"]

  /** The keyword groups, tried in order on the lower-cased entity; no match means companies. */
  function Classify(e: string): (c: Category)
    ensures c != Agencies
  {
    var l := Lower(e);
    if AnyIn(BrandWords, l) then Brands
    else if AnyIn(CompanyWords, l) then Companies
    else if AnyIn(CampaignWords, l) then Campaigns
    else if AnyIn(MediaWords, l) then Media
    else if AnyIn(StrategyWords, l) then Strategies
    else Companies
  }

  /** `{'name': e}`. */
  function NameDict(e: string): Dict {
    [("name", JStr(e))]
  }

  /** The name of a name dict. */
  function NameOf(d: Dict): string {
    if |d| > 0 && d[0].1.JStr? then d[0].1.s else ""
  }

  /** The subjects and objects of the triples: the set `all_entities`. */
  function Mentions(ts: seq<NormTriple>): set<string> {
    (set i | 0 <= i < |ts| :: ts[i].subj) + (set i | 0 <= i < |ts| :: ts[i].obj)
  }

  /**
   * What `_spo_to_entities` promises, the list order aside (Python set order): each list holds
   * the name dicts of exactly the non-empty mentions classified into its category, once each.
   */
  predicate ClassifiedAs(ts: seq<NormTriple>, e: Entities) {
    ClassifiedFrom(Mentions(ts), e)
  }

  /** The first loop of `_spo_to_entities`: collect every subject and object into a set. */
  method CollectMentions(ts: seq<NormTriple>) returns (all: set<string>)
    ensures all == Mentions(ts)
  {
    all := {};
    var i := 0;
    while i < |ts|
      invariant 0 <= i <= |ts|
      invariant all == Mentions(ts[..i])
    {
      assert Mentions(ts[..i + 1]) == Mentions(ts[..i]) + {ts[i].subj, ts[i].obj} by {
        assert forall j :: 0 <= j < i ==> ts[..i + 1][j] == ts[..i][j];
      }
      all := all + {ts[i].subj, ts[i].obj};
      i := i + 1;
    }
    assert ts[..|ts|] == ts;
  }

  /**
   * The lists of `e` classify exactly the non-empty names of `done`, each once; with `done` the
   * names handled so far this is the invariant of the classification loop.
   */
  predicate ClassifiedFrom(done: set<string>, e: Entities) {
    forall c: Category ::
      var es := e.Of(c);
      (forall i :: 0 <= i < |es| ==> es[i] == NameDict(NameOf(es[i])) && NameOf(es[i]) in done
                                     && NameOf(es[i]) != "" && Classify(NameOf(es[i])) == c)
      && (forall i, j :: 0 <= i < j < |es| ==> es[i] != es[j])
      && (forall x :: x in done && x != "" && Classify(x) == c ==> NameDict(x) in es)
  }

  /** Appending one new entity to its category keeps the invariant with `done + {x}`. */
  lemma ClassifyStep(done: set<string>, e: Entities, x: string)
    requires ClassifiedFrom(done, e) && x !in done && x != ""
    ensures ClassifiedFrom(done + {x}, e.With(Classify(x), e.Of(Classify(x)) + [NameDict(x)]))
  {
    var k := Classify(x);
    var e' := e.With(k, e.Of(k) + [NameDict(x)]);
    forall c: Category
      ensures var es := e'.Of(c);
        (forall i :: 0 <= i < |es| ==> es[i] == NameDict(NameOf(es[i])) && NameOf(es[i]) in done + {x}
                                       && NameOf(es[i]) != "" && Classify(NameOf(es[i])) == c)
        && (forall i, j :: 0 <= i < j < |es| ==> es[i] != es[j])
        && (forall y :: y in done + {x} && y != "" && Classify(y) == c ==> NameDict(y) in es)
    {
      var old_ := e.Of(c);
      if c == k {
        var es := old_ + [NameDict(x)];
        assert e'.Of(c) == es;
        assert forall i :: 0 <= i < |old_| ==> NameOf(old_[i]) != x;
        assert forall i :: 0 <= i < |old_| ==> old_[i] != NameDict(x);
        assert es[|old_|] == NameDict(x);
      } else {
        assert e'.Of(c) == old_;
      }
    }
  }

  /** One iteration of the classification loop: an empty name is skipped. */
  function AddEntity(e: Entities, x: string): Entities {
    if x == "" then e else e.With(Classify(x), e.Of(Classify(x)) + [NameDict(x)])
  }

  /** Handling a new name keeps the invariant with `done + {x}`. */
  lemma AddEntityStep(done: set<string>, e: Entities, x: string)
    requires ClassifiedFrom(done, e) && x !in done
    ensures ClassifiedFrom(done + {x}, AddEntity(e, x))
  {
    if x != "" {
      ClassifyStep(done, e, x);
    }
  }

  /** `_spo_to_entities`: every distinct non-empty subject or object goes into exactly one list. */
  method SpoToEntities(ts: seq<NormTriple>) returns (entities: Entities)
    ensures ClassifiedAs(ts, entities)
  {
    var all := CollectMentions(ts);
    entities := NoEntities;
    var rest := all;
    ghost var done: set<string> := {};
    while rest != {}
      invariant rest <= all && done == all - rest
      invariant ClassifiedFrom(done, entities)
      decreases |rest|
    {
      var x :| x in rest;
      AddEntityStep(done, entities, x);
      entities := AddEntity(entities, x);
      rest := rest - {x};
      done := done + {x};
    }
  }

  /** Each non-empty subject or object of the triples is listed in exactly one category, never in agencies. */
  lemma ExactlyOneCategory(ts: seq<NormTriple>, e: Entities, x: string, c: Category)
    requires ClassifiedAs(ts, e) && x in Mentions(ts) && x != ""
    ensures NameDict(x) in e.Of(c) <==> c == Classify(x)
    ensures e.Of(Agencies) == []
  {
    var es := e.Of(c);
    if NameDict(x) in es {
      var i :| 0 <= i < |es| && es[i] == NameDict(x);
      assert NameOf(es[i]) == x;
    }
    var a := e.Of(Agencies);
    assert |a| > 0 ==> Classify(NameOf(a[0])) == Agencies;
  }

  // -------------------------------------------------- _spo_to_relationships

  datatype SpoRelation = SpoRelation(
    relType: string, from: string, to: string, description: string, confidence: Decimal, sourceChunk: Json)

  const SpoConfidence: Decimal := Tenths(9)

  /** The record `_spo_to_relationships` builds for one triple. */
  function RelationOf(t: NormTriple): SpoRelation {
    SpoRelation(Replace(Upper(t.pred), " ", "_"), t.subj, t.obj,
                t.subj + " " + t.pred + " " + t.obj, SpoConfidence, t.sourceChunk)
  }

  /**
   * The type is the predicate, character by character, upper-cased with each space turned
   * into `'_'`; it has the predicate's length and no space or lower-case letter.
   */
  lemma RelationTypeFacts(t: NormTriple)
    ensures var ty := RelationOf(t).relType;
      |ty| == |t.pred| && ' ' !in ty && NoLower(ty)
      && forall i :: 0 <= i < |ty| ==> ty[i] == (if t.pred[i] == ' ' then '_' else UpperChar(t.pred[i]))
  {
    UpperFacts(t.pred);
    ReplaceCharFacts(Upper(t.pred), ' ', '_');
  }

  /** `_spo_to_relationships`: one record per triple, in order. */
  method SpoToRelationships(ts: seq<NormTriple>) returns (rs: seq<SpoRelation>)
    ensures |rs| == |ts|
    ensures forall i :: 0 <= i < |ts| ==> rs[i] == RelationOf(ts[i])
  {
    rs := [];
    var i := 0;
    while i < |ts|
      invariant 0 <= i <= |ts|
      invariant |rs| == i && forall j :: 0 <= j < i ==> rs[j] == RelationOf(ts[j])
    {
      rs := rs + [RelationOf(ts[i])];
      i := i + 1;
    }
  }

  // ---------------------------------------------------------- process_chunk

  datatype ExtractionMethod = Spo | Traditional

  datatype Metadata = Metadata(
    contentType: Json, industry: Json, brandMentioned: Json, extractionMethod: Option<ExtractionMethod>)

  datatype ChunkRelations = Parsed(parsed: seq<Relation>) | FromTriples(converted: seq<SpoRelation>)

  datatype ProcessedChunk = ProcessedChunk(
    chunkId: Json, text: Json, entities: Entities, relationships: ChunkRelations,
    spoTriples: Option<seq<NormTriple>>, source: Json, metadata: Metadata)

  /** The fallback the rule-based taggers produced for this chunk. */
  datatype RuleResult = RuleResult(entities: Entities, relationships: seq<Relation>)

  /** `extract_entities_from_text`: the parsed reply, or the rules when there is no client or the call raised. */
  function TraditionalEntities(reply: Result<string, string>, rules: RuleResult): Entities {
    match reply
    case Ok(content) => ParsedEntities(content)
    case Err(_) => rules.entities
  }

  /** `extract_relationships_from_text`, likewise. */
  function TraditionalRelations(reply: Result<string, string>, rules: RuleResult,
                                parseFloat: string -> Option<Decimal>): seq<Relation> {
    match reply
    case Ok(content) => ParsedRelations(content, parseFloat)
    case Err(_) => rules.relationships
  }

  /** The chunk text as `chunk_data.get('text', '')` reads it. */
  function ChunkTextOf(chunk: Dict): Json {
    GetOr(chunk, "text", JStr(""))
  }

  /** The metadata defaults: `'general'`, `'unknown'` and `[]`. */
  function MetadataOf(chunk: Dict, m: Option<ExtractionMethod>): (md: Metadata)
    ensures md.extractionMethod == m
    ensures !HasKey(chunk, "content_type") ==> md.contentType == JStr("general")
    ensures !HasKey(chunk, "industry") ==> md.industry == JStr("unknown")
    ensures !HasKey(chunk, "brand_mentioned") ==> md.brandMentioned == JArr([])
    ensures HasKey(chunk, "content_type") ==> Some(md.contentType) == Get(chunk, "content_type")
    ensures HasKey(chunk, "industry") ==> Some(md.industry) == Get(chunk, "industry")
    ensures HasKey(chunk, "brand_mentioned") ==> Some(md.brandMentioned) == Get(chunk, "brand_mentioned")
  {
    GetSomeIffHasKey(chunk, "content_type");
    GetSomeIffHasKey(chunk, "industry");
    GetSomeIffHasKey(chunk, "brand_mentioned");
    Metadata(GetOr(chunk, "content_type", JStr("general")), GetOr(chunk, "industry", JStr("unknown")),
             GetOr(chunk, "brand_mentioned", JArr([])), m)
  }

  /** The traditional result of both copies; the newer copy tags it `'traditional'`. */
  method TraditionalChunk(chunk: Dict, entityReply: Result<string, string>, relationReply: Result<string, string>,
                          parseFloat: string -> Option<Decimal>, rules: RuleResult, m: Option<ExtractionMethod>)
    returns (r: ProcessedChunk)
    ensures r == ProcessedChunk(GetOr(chunk, "chunkId", JNull), ChunkTextOf(chunk),
                                TraditionalEntities(entityReply, rules),
                                Parsed(TraditionalRelations(relationReply, rules, parseFloat)),
                                None, GetOr(chunk, "source", JStr("")), MetadataOf(chunk, m))
  {
    var entities := rules.entities;
    if entityReply.Ok? {
      entities := ParseEntityResponse(entityReply.value);
    }
    var relationships := rules.relationships;
    if relationReply.Ok? {
      relationships := ParseRelationshipResponse(relationReply.value, parseFloat);
    }
    r := ProcessedChunk(GetOr(chunk, "chunkId", JNull), ChunkTextOf(chunk), entities, Parsed(relationships),
                        None, GetOr(chunk, "source", JStr("")), MetadataOf(chunk, m));
  }

  /**
   * `process_chunk` of the newer copy.  With SPO on, a string text is extracted with the default
   * window (150 words, overlap 30), which cannot raise; any other text makes `split` raise and
   * falls back to the traditional path.
   */
  method ProcessChunk(x: ExtractorState, chunk: Dict,
                      reply: string -> Result<string, string>, parse: string -> Option<Json>,
                      entityReply: Result<string, string>, relationReply: Result<string, string>,
                      parseFloat: string -> Option<Decimal>, rules: RuleResult)
    returns (r: ProcessedChunk)
    ensures r.chunkId == GetOr(chunk, "chunkId", JNull) && r.text == ChunkTextOf(chunk)
    ensures r.source == GetOr(chunk, "source", JStr(""))
    ensures x.useSpo && x.spoExtractor.Some? && ChunkTextOf(chunk).JStr? ==>
      var ts := SpoExtraction(ChunkTextOf(chunk).s, 150, 30, reply, parse).normalizedTriples;
      && r.metadata == MetadataOf(chunk, Some(Spo))
      && r.spoTriples == Some(ts)
      && ClassifiedAs(ts, r.entities)
      && r.relationships.FromTriples?
      && |r.relationships.converted| == |ts|
      && (forall i :: 0 <= i < |ts| ==> r.relationships.converted[i] == RelationOf(ts[i]))
    ensures !(x.useSpo && x.spoExtractor.Some? && ChunkTextOf(chunk).JStr?) ==>
      && r.metadata == MetadataOf(chunk, Some(Traditional))
      && r.spoTriples == None
      && r.entities == TraditionalEntities(entityReply, rules)
      && r.relationships == Parsed(TraditionalRelations(relationReply, rules, parseFloat))
  {
    var text := ChunkTextOf(chunk);
    if x.useSpo && x.spoExtractor.Some? && text.JStr? {
      var spo := ExtractSpoTriplesFromText(x, text.s, 150, 30, reply, parse);
      var ts := spo.value.normalizedTriples;
      var entities := SpoToEntities(ts);
      var relationships := SpoToRelationships(ts);
      return ProcessedChunk(GetOr(chunk, "chunkId", JNull), text, entities, FromTriples(relationships),
                            Some(ts), GetOr(chunk, "source", JStr("")), MetadataOf(chunk, Some(Spo)));
    }
    r := TraditionalChunk(chunk, entityReply, relationReply, parseFloat, rules, Some(Traditional));
  }

  /** `process_chunk` of the older copy: always the traditional path, and no `extraction_method` tag. */
  method ProcessChunkLegacy(chunk: Dict, entityReply: Result<string, string>, relationReply: Result<string, string>,
                            parseFloat: string -> Option<Decimal>, rules: RuleResult)
    returns (r: ProcessedChunk)
    ensures r.chunkId == GetOr(chunk, "chunkId", JNull) && r.text == ChunkTextOf(chunk)
    ensures r.source == GetOr(chunk, "source", JStr(""))
    ensures r.metadata == MetadataOf(chunk, None) && r.spoTriples == None
    ensures r.entities == TraditionalEntities(entityReply, rules)
    ensures r.relationships == Parsed(TraditionalRelations(relationReply, rules, parseFloat))
  {
    r := TraditionalChunk(chunk, entityReply, relationReply, parseFloat, rules, None);
  }
}
