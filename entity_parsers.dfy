/**
 * The two line-oriented parsers of the entity/relationship extractor's LLM replies
 * (`_parse_entity_response` and `_parse_relationship_response`, identical in both copies of
 * the extractor).  Each scans the reply line by line carrying a small state: the current entity
 * category, or the relationship record being filled.
 */
module EntityParsers {
  import opened Wrappers
  import opened Decimals
  import opened Strs
  import opened Json

  // ------------------------------------------------------------- entities

  datatype Category = Brands | Companies | Agencies | Campaigns | Media | Strategies

  /** The six-key result dict: one list of entity dicts per category. */
  datatype Entities = Entities(
    brands: seq<Dict>, companies: seq<Dict>, agencies: seq<Dict>,
    campaigns: seq<Dict>, media: seq<Dict>, strategies: seq<Dict>)
  {
    function Of(c: Category): seq<Dict> {
      match c
      case Brands => brands
      case Companies => companies
      case Agencies => agencies
      case Campaigns => campaigns
      case Media => media
      case Strategies => strategies
    }

    /** `entities[c] = es`: the other five lists stay as they are. */
    function With(c: Category, es: seq<Dict>): (r: Entities)
      ensures r.Of(c) == es
      ensures forall d :: d != c ==> r.Of(d) == Of(d)
    {
      match c
      case Brands => this.(brands := es)
      case Companies => this.(companies := es)
      case Agencies => this.(agencies := es)
      case Campaigns => this.(campaigns := es)
      case Media => this.(media := es)
      case Strategies => this.(strategies := es)
    }
  }

  const NoEntities: Entities := Entities([], [], [], [], [], [])

  const BrandHeader: string := "品牌 (Brand):"
  const CompanyHeader: string := "企业 (Company):"
  const AgencyHeader: string := "公关公司 (Agency):"
  const CampaignHeader: string := "传播活动 (Campaign):"
  const MediaHeader: string := "媒体渠道 (Media):"
  const StrategyHeader: string := "传播策略 (Strategy):"
  const Pending: string := "[待填写]"

  /** The category a header line switches to, checked in the order of the source's `elif` chain. */
  function HeaderOf(line: string): Option<Category> {
    if Contains(line, BrandHeader) then Some(Brands)
    else if Contains(line, CompanyHeader) then Some(Companies)
    else if Contains(line, AgencyHeader) then Some(Agencies)
    else if Contains(line, CampaignHeader) then Some(Campaigns)
    else if Contains(line, MediaHeader) then Some(Media)
    else if Contains(line, StrategyHeader) then Some(Strategies)
    else None
  }

  /** The key of a `key: value` line: the text before the first `':'`, trimmed, with every `'-'` removed. */
  function KeyOf(line: string): string
    requires ':' in line
  {
    Strip(Replace(Strip(line[..IndexOf(line, ':')]), "-", ""))
  }

  /** The value of a `key: value` line: the text after the first `':'`, trimmed. */
  function ValueOf(line: string): (v: string)
    requires ':' in line
    ensures IsStripped(v)
  {
    Strip(AfterFirst(line, ':'))
  }

  /** Values that are stored: non-empty and not the `[待填写]` placeholder. */
  predicate Recordable(v: string) {
    v != "" && v != Pending
  }

  /** Some entity of the list has `name == v`. */
  predicate Named(es: seq<Dict>, v: string) {
    exists i :: 0 <= i < |es| && Get(es[i], "name") == Some(JStr(v))
  }

  /** The loop looking for an entity whose `name` is `v`: the first one, if any. */
  function FindByName(es: seq<Dict>, v: string): (r: Option<nat>)
    ensures r.Some? ==> r.value < |es| && Get(es[r.value], "name") == Some(JStr(v))
    ensures r.Some? ==> forall j :: 0 <= j < r.value ==> Get(es[j], "name") != Some(JStr(v))
    ensures r.None? <==> !Named(es, v)
    decreases |es|
  {
    if es == [] then None
    else if Get(es[0], "name") == Some(JStr(v)) then Some(0)
    else
      var rest := FindByName(es[1..], v);
      assert forall j :: 0 < j < |es| ==> es[j] == es[1..][j - 1];
      if rest.Some? then Some(rest.value + 1) else None
  }

  /** A key:value line in the current category: update the entity named `v`, or append `{'name': v, key: v}`. */
  function Record(es: seq<Dict>, key: string, v: string): seq<Dict> {
    match FindByName(es, v)
    case Some(i) => es[i := Put(es[i], key, JStr(v))]
    case None => es + [Put([("name", JStr(v))], key, JStr(v))]
  }

  /** Every entity carries a recordable string name, and no two share one. */
  predicate NamesUnique(es: seq<Dict>) {
    (forall i :: 0 <= i < |es| ==> (Get(es[i], "name").Some? && Get(es[i], "name").value.JStr?
                                  && Recordable(Get(es[i], "name").value.s)))
    && (forall i, j :: 0 <= i < |es| && 0 <= j < |es| && i != j ==> Get(es[i], "name") != Get(es[j], "name"))
  }

  /** Updating an entity under any key keeps its name: the key `name` is only ever written with the name itself. */
  lemma PutKeepsName(d: Dict, key: string, v: string)
    requires Get(d, "name") == Some(JStr(v))
    ensures Get(Put(d, key, JStr(v)), "name") == Some(JStr(v))
  {
    if key != "name" {
      PutOther(d, key, JStr(v), "name");
    }
  }

  /** A recorded value is a name afterwards; the names are the old ones plus `v`. */
  lemma RecordNames(es: seq<Dict>, key: string, v: string, w: string)
    ensures Named(Record(es, key, v), w) <==> Named(es, w) || w == v
  {
    var r := Record(es, key, v);
    match FindByName(es, v)
    case Some(i) =>
      PutKeepsName(es[i], key, v);
      if Named(es, w) {
        var j :| 0 <= j < |es| && Get(es[j], "name") == Some(JStr(w));
        assert Get(r[j], "name") == Some(JStr(w));
      }
      if Named(r, w) {
        var j :| 0 <= j < |r| && Get(r[j], "name") == Some(JStr(w));
        if j != i {
          assert Get(es[j], "name") == Some(JStr(w));
        }
      }
      if w == v {
        assert Get(r[i], "name") == Some(JStr(w));
      }
    case None =>
      var e := Put([("name", JStr(v))], key, JStr(v));
      PutKeepsName([("name", JStr(v))], key, v);
      assert Get(r[|es|], "name") == Some(JStr(v));
      if Named(es, w) {
        var j :| 0 <= j < |es| && Get(es[j], "name") == Some(JStr(w));
        assert Get(r[j], "name") == Some(JStr(w));
      }
      if Named(r, w) {
        var j :| 0 <= j < |r| && Get(r[j], "name") == Some(JStr(w));
        if j < |es| {
          assert Get(es[j], "name") == Some(JStr(w));
        }
      }
  }

  /** Recording keeps the names unique. */
  lemma RecordUnique(es: seq<Dict>, key: string, v: string)
    requires NamesUnique(es) && Recordable(v)
    ensures NamesUnique(Record(es, key, v))
  {
    var r := Record(es, key, v);
    match FindByName(es, v)
    case Some(i) =>
      PutKeepsName(es[i], key, v);
      assert forall j :: 0 <= j < |r| ==> Get(r[j], "name") == Get(es[j], "name");
    case None =>
      PutKeepsName([("name", JStr(v))], key, v);
      assert forall j :: 0 <= j < |es| ==> r[j] == es[j];
      assert Get(r[|es|], "name") == Some(JStr(v));
  }

  /** The state of the entity loop: the current category (`None` before the first header) and the dict. */
  datatype EntityScan = EntityScan(current: Option<Category>, entities: Entities)

  const EntityStart: EntityScan := EntityScan(None, NoEntities)

  /** What one line of the reply is to the entity loop, after `strip()`. */
  datatype EntityLine =
    | EntityBlank
    | EntityHeader(category: Category)
    | EntityEntry(key: string, value: string)
    | EntityOther

  /** The test chain of the loop body: blank, then the six headers, then a `key: value` line. */
  function EntityLineOf(raw: string): EntityLine {
    var line := Strip(raw);
    if line == "" then EntityBlank
    else if HeaderOf(line).Some? then EntityHeader(HeaderOf(line).value)
    else if ':' in line then EntityEntry(KeyOf(line), ValueOf(line))
    else EntityOther
  }

  /** One iteration of the entity loop; a key:value line counts only once a header was seen. */
  function StepEntity(s: EntityScan, l: EntityLine): EntityScan {
    match l
    case EntityHeader(c) => s.(current := Some(c))
    case EntityEntry(key, value) =>
      if s.current.Some? && Recordable(value) then
        var c := s.current.value;
        s.(entities := s.entities.With(c, Record(s.entities.Of(c), key, value)))
      else s
    case _ => s
  }

  /** The entity loop over the classified lines `ls`, starting from `s`. */
  function ScanEntityLines(s: EntityScan, ls: seq<EntityLine>): EntityScan
    decreases |ls|
  {
    if ls == [] then s
    else StepEntity(ScanEntityLines(s, ls[..|ls| - 1]), ls[|ls| - 1])
  }

  function EntityLinesOf(lines: seq<string>): seq<EntityLine> {
    seq(|lines|, i requires 0 <= i < |lines| => EntityLineOf(lines[i]))
  }

  /** `_parse_entity_response`. */
  function ParsedEntities(response: string): Entities {
    ScanEntityLines(EntityStart, EntityLinesOf(Split(response, '\n'))).entities
  }

  lemma ScanEntitySnoc(s: EntityScan, ls: seq<EntityLine>, i: nat)
    requires i < |ls|
    ensures ScanEntityLines(s, ls[..i + 1]) == StepEntity(ScanEntityLines(s, ls[..i]), ls[i])
  {
    assert ls[..i + 1][..i] == ls[..i];
  }

  /** Scanning `a + b` is scanning `b` from where `a` left off. */
  lemma {:induction false} ScanEntityAppend(s: EntityScan, a: seq<EntityLine>, b: seq<EntityLine>)
    ensures ScanEntityLines(s, a + b) == ScanEntityLines(ScanEntityLines(s, a), b)
    decreases |b|
  {
    if b == [] {
      assert a + b == a;
    } else {
      assert (a + b)[..|a + b| - 1] == a + b[..|b| - 1];
      ScanEntityAppend(s, a, b[..|b| - 1]);
    }
  }

  /** No line of `ls` is a header. */
  predicate HeaderFree(ls: seq<EntityLine>) {
    forall i :: 0 <= i < |ls| ==> !ls[i].EntityHeader?
  }

  lemma {:induction false} HeaderFreeIdle(ls: seq<EntityLine>)
    requires HeaderFree(ls)
    ensures ScanEntityLines(EntityStart, ls) == EntityStart
    decreases |ls|
  {
    if ls != [] {
      HeaderFreeIdle(ls[..|ls| - 1]);
    }
  }

  /** Lines before the first header are ignored, whatever they hold. */
  lemma BeforeHeaderIgnored(a: seq<EntityLine>, b: seq<EntityLine>)
    requires HeaderFree(a)
    ensures ScanEntityLines(EntityStart, a + b) == ScanEntityLines(EntityStart, b)
  {
    ScanEntityAppend(EntityStart, a, b);
    HeaderFreeIdle(a);
  }

  /** Every category's names are unique. */
  predicate AllUnique(e: Entities) {
    forall c: Category :: NamesUnique(e.Of(c))
  }

  lemma {:induction false} ScanUnique(ls: seq<EntityLine>)
    ensures AllUnique(ScanEntityLines(EntityStart, ls).entities)
    decreases |ls|
  {
    if ls != [] {
      ScanUnique(ls[..|ls| - 1]);
      var s := ScanEntityLines(EntityStart, ls[..|ls| - 1]);
      match ls[|ls| - 1]
      case EntityEntry(key, value) =>
        if s.current.Some? && Recordable(value) {
          RecordUnique(s.entities.Of(s.current.value), key, value);
        }
      case _ =>
    }
  }

  /** `_parse_entity_response` yields, in every category, entities with distinct, recordable names. */
  lemma ParsedNamesUnique(response: string, c: Category)
    ensures NamesUnique(ParsedEntities(response).Of(c))
  {
    ScanUnique(EntityLinesOf(Split(response, '\n')));
  }

  /** Names, once recorded, survive the rest of the scan. */
  lemma {:induction false} ScanKeepsNames(ls: seq<EntityLine>, i: nat, c: Category, w: string)
    requires i <= |ls| && Named(ScanEntityLines(EntityStart, ls[..i]).entities.Of(c), w)
    ensures Named(ScanEntityLines(EntityStart, ls).entities.Of(c), w)
    decreases |ls| - i
  {
    if i == |ls| {
      assert ls[..i] == ls;
    } else {
      var p := ScanEntityLines(EntityStart, ls[..i]);
      ScanEntitySnoc(EntityStart, ls, i);
      match ls[i]
      case EntityEntry(key, value) =>
        if p.current.Some? && Recordable(value) {
          RecordNames(p.entities.Of(p.current.value), key, value, w);
        }
        ScanKeepsNames(ls, i + 1, c, w);
      case _ =>
        ScanKeepsNames(ls, i + 1, c, w);
    }
  }

  lemma StepRecords(p: EntityScan, l: EntityLine, c: Category)
    requires l.EntityEntry? && Recordable(l.value) && p.current == Some(c)
    ensures Named(StepEntity(p, l).entities.Of(c), l.value)
  {
    RecordNames(p.entities.Of(c), l.key, l.value, l.value);
  }

  /**
   * A key:value line met while category `c` is current, whose value is recordable, leaves an
   * entity named by that value in `c`'s list of the result.
   */
  lemma {:induction false} ValueRecorded(ls: seq<EntityLine>, k: nat, c: Category)
    requires k < |ls| && ls[k].EntityEntry? && Recordable(ls[k].value)
    requires ScanEntityLines(EntityStart, ls[..k]).current == Some(c)
    ensures Named(ScanEntityLines(EntityStart, ls).entities.Of(c), ls[k].value)
  {
    ScanEntitySnoc(EntityStart, ls, k);
    StepRecords(ScanEntityLines(EntityStart, ls[..k]), ls[k], c);
    ScanKeepsNames(ls, k + 1, c, ls[k].value);
  }

  /** The loop that looks for the entity named `v`, breaking at the first hit. */
  method FindEntity(es: seq<Dict>, v: string) returns (found: Option<nat>)
    ensures found == FindByName(es, v)
  {
    found := None;
    var i := 0;
    while i < |es|
      invariant 0 <= i <= |es|
      invariant forall j :: 0 <= j < i ==> Get(es[j], "name") != Some(JStr(v))
    {
      if Get(es[i], "name") == Some(JStr(v)) {
        found := Some(i);
        break;
      }
      i := i + 1;
    }
    if found.None? {
      assert !Named(es, v);
    }
  }

  /** `_parse_entity_response`: classify the lines, then run the loop over them. */
  method ParseEntityResponse(response: string) returns (entities: Entities)
    ensures entities == ParsedEntities(response)
  {
    var ls := EntityLinesOf(Split(response, '\n'));
    entities := ScanEntities(ls);
  }

  /** The loop carrying `current_type`. */
  method ScanEntities(ls: seq<EntityLine>) returns (entities: Entities)
    ensures entities == ScanEntityLines(EntityStart, ls).entities
  {
    entities := NoEntities;
    var current: Option<Category> := None;
    var i := 0;
    while i < |ls|
      invariant 0 <= i <= |ls|
      invariant EntityScan(current, entities) == ScanEntityLines(EntityStart, ls[..i])
    {
      ScanEntitySnoc(EntityStart, ls, i);
      match ls[i] {
        case EntityHeader(c) =>
          current := Some(c);
        case EntityEntry(key, value) =>
          if current.Some? && Recordable(value) {
            var es := entities.Of(current.value);
            var existing := FindEntity(es, value);
            if existing.Some? {
              es := es[existing.value := Put(es[existing.value], key, JStr(value))];
            } else {
              es := es + [Put([("name", JStr(value))], key, JStr(value))];
            }
            entities := entities.With(current.value, es);
          }
        case _ =>
      }
      i := i + 1;
    }
    assert ls[..|ls|] == ls;
  }

  // -------------------------------------------------------- relationships

  /** A relationship dict; each key is present or absent. */
  datatype Relation = Relation(
    relType: Option<string>, from: Option<string>, to: Option<string>,
    description: Option<string>, confidence: Option<Decimal>)

  /** `{}`, which is falsy and never emitted. */
  const NoRelation: Relation := Relation(None, None, None, None, None)

  const TypeTag: string := "关系类型:"
  const FromTag: string := "主体:"
  const ToTag: string := "客体:"
  const DescriptionTag: string := "关系描述:"
  const ConfidenceTag: string := "置信度:"
  const DefaultConfidence: Decimal := Tenths(5)

  /** What one line of the reply is to the relationship loop, after `strip()`; the payload is the trimmed text after the first `':'`. */
  datatype RelationLine =
    | RelationBlank
    | TypeLine(value: string)
    | FromLine(value: string)
    | ToLine(value: string)
    | DescriptionLine(value: string)
    | ConfidenceLine(value: string)
    | RelationOther

  /**
   * The test chain of the loop body.  Every tag holds a `':'`, so a line without one matches
   * no tag.
   */
  function RelationLineOf(raw: string): RelationLine {
    var line := Strip(raw);
    if line == "" then RelationBlank
    else if ':' !in line then RelationOther
    else if Contains(line, TypeTag) then TypeLine(ValueOf(line))
    else if Contains(line, FromTag) then FromLine(ValueOf(line))
    else if Contains(line, ToTag) then ToLine(ValueOf(line))
    else if Contains(line, DescriptionTag) then DescriptionLine(ValueOf(line))
    else if Contains(line, ConfidenceTag) then ConfidenceLine(ValueOf(line))
    else RelationOther
  }

  /** The tag text itself guarantees a `':'` in any line holding it. */
  lemma TagHasColon(line: string, tag: string)
    requires ':' in tag && Contains(line, tag)
    ensures ':' in line
  {
    ContainsIffOccurs(line, tag);
    var i :| OccursAt(line, tag, i);
    var j :| 0 <= j < |tag| && tag[j] == ':';
    assert line[i..i + |tag|][j] == line[i + j];
  }

  /** A line holding `关系类型:` is a type line. */
  lemma TypeTagLine(raw: string)
    requires Contains(Strip(raw), TypeTag)
    ensures RelationLineOf(raw).TypeLine?
  {
    TagHasColon(Strip(raw), TypeTag);
  }

  /** The state of the relationship loop: the emitted records and the one being filled. */
  datatype RelationScan = RelationScan(done: seq<Relation>, current: Relation)

  /** `if current_relationship: relationships.append(current_relationship)`. */
  function Flush(done: seq<Relation>, current: Relation): seq<Relation> {
    if current == NoRelation then done else done + [current]
  }

  /**
   * One iteration of the relationship loop.  `parseFloat` is Python's `float` on the field
   * text, `None` where it raises.
   */
  function StepRelation(s: RelationScan, l: RelationLine, parseFloat: string -> Option<Decimal>): RelationScan {
    match l
    case RelationBlank => RelationScan(Flush(s.done, s.current), NoRelation)
    case TypeLine(v) => RelationScan(Flush(s.done, s.current), NoRelation.(relType := Some(v)))
    case FromLine(v) => s.(current := s.current.(from := Some(v)))
    case ToLine(v) => s.(current := s.current.(to := Some(v)))
    case DescriptionLine(v) => s.(current := s.current.(description := Some(v)))
    case ConfidenceLine(v) =>
      var x := match parseFloat(v) case Some(x) => x case None => DefaultConfidence;
      s.(current := s.current.(confidence := Some(x)))
    case RelationOther => s
  }

  function ScanRelationLines(ls: seq<RelationLine>, parseFloat: string -> Option<Decimal>): RelationScan
    decreases |ls|
  {
    if ls == [] then RelationScan([], NoRelation)
    else StepRelation(ScanRelationLines(ls[..|ls| - 1], parseFloat), ls[|ls| - 1], parseFloat)
  }

  function RelationLinesOf(lines: seq<string>): seq<RelationLine> {
    seq(|lines|, i requires 0 <= i < |lines| => RelationLineOf(lines[i]))
  }

  /** `_parse_relationship_response`: the scan, then the final flush. */
  function ParsedRelations(response: string, parseFloat: string -> Option<Decimal>): seq<Relation> {
    var s := ScanRelationLines(RelationLinesOf(Split(response, '\n')), parseFloat);
    Flush(s.done, s.current)
  }

  lemma ScanRelationSnoc(ls: seq<RelationLine>, i: nat, parseFloat: string -> Option<Decimal>)
    requires i < |ls|
    ensures ScanRelationLines(ls[..i + 1], parseFloat)
         == StepRelation(ScanRelationLines(ls[..i], parseFloat), ls[i], parseFloat)
  {
    assert ls[..i + 1][..i] == ls[..i];
  }

  /** No record of `rs` is the empty one. */
  predicate NoneEmpty(rs: seq<Relation>) {
    forall i :: 0 <= i < |rs| ==> rs[i] != NoRelation
  }

  lemma FlushNoneEmpty(done: seq<Relation>, current: Relation)
    requires NoneEmpty(done)
    ensures NoneEmpty(Flush(done, current))
  {
  }

  /** The relationship types recorded, in order. */
  function TypesOf(rs: seq<Relation>): seq<string>
    decreases |rs|
  {
    if rs == [] then []
    else TypesOf(rs[..|rs| - 1]) + (match rs[|rs| - 1].relType case Some(t) => [t] case None => [])
  }

  /** The values of the type lines, in order. */
  function TypeLines(ls: seq<RelationLine>): seq<string>
    decreases |ls|
  {
    if ls == [] then []
    else TypeLines(ls[..|ls| - 1]) + (match ls[|ls| - 1] case TypeLine(v) => [v] case _ => [])
  }

  lemma FlushTypes(done: seq<Relation>, current: Relation)
    ensures TypesOf(Flush(done, current)) ==
      TypesOf(done) + (match current.relType case Some(t) => [t] case None => [])
  {
    if current != NoRelation {
      assert (done + [current])[..|done|] == done;
    }
  }

  /** One iteration keeps the emitted records non-empty and adds the type of a type line. */
  lemma StepRelationFacts(p: RelationScan, l: RelationLine, parseFloat: string -> Option<Decimal>)
    requires NoneEmpty(p.done)
    ensures var s := StepRelation(p, l, parseFloat);
      NoneEmpty(s.done)
      && TypesOf(Flush(s.done, s.current)) == TypesOf(Flush(p.done, p.current)) + (match l case TypeLine(v) => [v] case _ => [])
  {
    var s := StepRelation(p, l, parseFloat);
    FlushTypes(p.done, p.current);
    FlushTypes(s.done, s.current);
    FlushNoneEmpty(p.done, p.current);
    match l
    case RelationBlank =>
      FlushTypes(Flush(p.done, p.current), NoRelation);
    case TypeLine(v) =>
    case RelationOther =>
    case _ =>
      assert s.done == p.done && s.current.relType == p.current.relType;
      assert p.current == NoRelation ==> s.current != NoRelation;
  }

  /** Every emitted record is non-empty; the types emitted so far plus the current one equal the type lines read. */
  lemma {:induction false} ScanRelationFacts(ls: seq<RelationLine>, parseFloat: string -> Option<Decimal>)
    ensures var s := ScanRelationLines(ls, parseFloat);
      NoneEmpty(s.done) && TypesOf(Flush(s.done, s.current)) == TypeLines(ls)
    decreases |ls|
  {
    if ls != [] {
      var prefix := ls[..|ls| - 1];
      ScanRelationFacts(prefix, parseFloat);
      var p := ScanRelationLines(prefix, parseFloat);
      StepRelationFacts(p, ls[|ls| - 1], parseFloat);
    }
  }

  /**
   * `_parse_relationship_response` never emits an empty record, and the types of the
   * emitted records are exactly the values of the `关系类型:` lines, in order: each such line
   * starts exactly one record.
   */
  lemma ParsedRelationsFacts(response: string, parseFloat: string -> Option<Decimal>)
    ensures var rs := ParsedRelations(response, parseFloat);
      NoneEmpty(rs) && TypesOf(rs) == TypeLines(RelationLinesOf(Split(response, '\n')))
  {
    var ls := RelationLinesOf(Split(response, '\n'));
    ScanRelationFacts(ls, parseFloat);
    var s := ScanRelationLines(ls, parseFloat);
    FlushNoneEmpty(s.done, s.current);
  }

  /** `_parse_relationship_response`: classify the lines, then run the loop over them. */
  method ParseRelationshipResponse(response: string, parseFloat: string -> Option<Decimal>)
    returns (relationships: seq<Relation>)
    ensures relationships == ParsedRelations(response, parseFloat)
  {
    var ls := RelationLinesOf(Split(response, '\n'));
    relationships := ScanRelations(ls, parseFloat);
  }

  /** The loop carrying `current_relationship`, then the final flush. */
  method ScanRelations(ls: seq<RelationLine>, parseFloat: string -> Option<Decimal>) returns (relationships: seq<Relation>)
    ensures var s := ScanRelationLines(ls, parseFloat); relationships == Flush(s.done, s.current)
  {
    relationships := [];
    var current := NoRelation;
    var i := 0;
    while i < |ls|
      invariant 0 <= i <= |ls|
      invariant RelationScan(relationships, current) == ScanRelationLines(ls[..i], parseFloat)
    {
      ScanRelationSnoc(ls, i, parseFloat);
      match ls[i] {
        case RelationBlank =>
          if current != NoRelation {
            relationships := relationships + [current];
            current := NoRelation;
          }
        case TypeLine(v) =>
          if current != NoRelation {
            relationships := relationships + [current];
          }
          current := NoRelation.(relType := Some(v));
        case FromLine(v) => current := current.(from := Some(v));
        case ToLine(v) => current := current.(to := Some(v));
        case DescriptionLine(v) => current := current.(description := Some(v));
        case ConfidenceLine(v) =>
          var x := parseFloat(v);
          current := current.(confidence := Some(if x.Some? then x.value else DefaultConfidence));
        case RelationOther =>
      }
      i := i + 1;
    }
    if current != NoRelation {
      relationships := relationships + [current];
    }
    assert ls[..|ls|] == ls;
  }
}
