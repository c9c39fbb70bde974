/**
 * `split_pr_data_from_file`: every entry of a PR JSON file is cut into chunks, and each chunk
 * becomes a record carrying its text, its form item, its position within the item, an id of
 * the form `form-item-chunkNNNN`, the file's source, a content type taken from the item name,
 * the first industry the chunk mentions and the brand keywords it contains.
 */
module Chunking {
  import opened Wrappers
  import opened Strs
  import opened Json
  import opened Topics

  // --------------------------------------------------------- content type

  /** `determine_content_type`: the item name's topic key, or `general`; the chunk plays no part. */
  function ContentType(item: string): (t: string)
    ensures TopicOf(item).Some? ==> t == TopicOf(item).value
    ensures TopicOf(item).None? ==> t == "general"
  {
    match TopicOf(item)
    case Some(key) => key
    case None => "general"
  }

  /** An item filed under a topic key gets that key back as its content type. */
  lemma KeyContentType(i: nat)
    requires i < |TopicRules|
    ensures ContentType(TopicRules[i].key) == TopicRules[i].key
  {
    TopicKeysFixed(i);
  }

  // ------------------------------------------------------------- industry

  const Industries: seq<string> := ["科技", "金融", "零售", "汽车", "食品", "时尚", "医疗", "教育", "旅游"]

  /** The position of the first industry from `i` on that the chunk mentions. */
  function FirstIndustryFrom(chunk: string, i: nat): (r: Option<nat>)
    requires i <= |Industries|
    ensures r.Some? ==>
      i <= r.value < |Industries| && Contains(chunk, Industries[r.value])
      && forall j :: i <= j < r.value ==> !Contains(chunk, Industries[j])
    ensures r.None? ==> forall j :: i <= j < |Industries| ==> !Contains(chunk, Industries[j])
    decreases |Industries| - i
  {
    if i == |Industries| then None
    else if Contains(chunk, Industries[i]) then Some(i)
    else FirstIndustryFrom(chunk, i + 1)
  }

  /** `extract_industry_info`. */
  function IndustryOf(chunk: string): (r: string)
    ensures r == "unknown" || r in Industries
    ensures r in Industries ==>
      exists i :: 0 <= i < |Industries| && r == Industries[i] && Contains(chunk, r)
        && forall j :: 0 <= j < i ==> !Contains(chunk, Industries[j])
    ensures r == "unknown" ==> forall j :: 0 <= j < |Industries| ==> !Contains(chunk, Industries[j])
  {
    match FirstIndustryFrom(chunk, 0)
    case Some(i) => Industries[i]
    case None =>
      assert "unknown" !in Industries by { UnknownNoIndustry(); }
      "unknown"
  }

  lemma UnknownNoIndustry()
    ensures "unknown" !in Industries
  {
    forall i | 0 <= i < |Industries| ensures Industries[i] != "unknown" {
      assert Industries[i][0] != 'u';
    }
  }

  // --------------------------------------------------------------- brands

  const BrandKeywords: seq<string> := ["品牌", "brand", "公司", "企业"]

  /** The words that occur in `s`, in list order. */
  function Present(words: seq<string>, s: string): seq<string> {
    if words == [] then []
    else
      var w := words[|words| - 1];
      Present(words[..|words| - 1], s) + (if Contains(s, w) then [w] else [])
  }

  /** A word is reported exactly when it is in the list and occurs. */
  lemma {:induction false} PresentMember(words: seq<string>, s: string, x: string)
    ensures x in Present(words, s) <==> x in words && Contains(s, x)
  {
    if words != [] {
      var init := words[..|words| - 1];
      PresentMember(init, s, x);
      assert words == init + [words[|words| - 1]];
    }
  }

  /** Reporting keeps the list order: it commutes with concatenation. */
  lemma {:induction false} PresentAppend(a: seq<string>, b: seq<string>, s: string)
    ensures Present(a + b, s) == Present(a, s) + Present(b, s)
    decreases |b|
  {
    if b == [] {
      assert a + b == a;
    } else {
      assert (a + b)[..|a + b| - 1] == a + b[..|b| - 1];
      PresentAppend(a, b[..|b| - 1], s);
    }
  }

  predicate Distinct(xs: seq<string>) {
    forall i, j :: 0 <= i < j < |xs| ==> xs[i] != xs[j]
  }

  /** A list without repeats is reported without repeats. */
  lemma {:induction false} PresentDistinct(words: seq<string>, s: string)
    requires Distinct(words)
    ensures Distinct(Present(words, s))
  {
    if words != [] {
      var init := words[..|words| - 1];
      var w := words[|words| - 1];
      PresentDistinct(init, s);
      PresentMember(init, s, w);
      assert w !in init by {
        forall j | 0 <= j < |init| ensures init[j] != w { assert init[j] == words[j]; }
      }
    }
  }

  /** `extract_brand_mentions`. */
  method ExtractBrandMentions(chunk: string) returns (brands: seq<string>)
    ensures brands == Present(BrandKeywords, Lower(chunk))
  {
    brands := [];
    for i := 0 to |BrandKeywords|
      invariant brands == Present(BrandKeywords[..i], Lower(chunk))
    {
      var keyword := BrandKeywords[i];
      assert BrandKeywords[..i + 1][..i] == BrandKeywords[..i];
      if Contains(Lower(chunk), keyword) {
        brands := brands + [keyword];
      }
    }
    assert BrandKeywords[..|BrandKeywords|] == BrandKeywords;
  }

  /** The brand list holds each keyword found in the lower-cased chunk once, in keyword order. */
  lemma BrandMentionsFacts(chunk: string)
    ensures var bs := Present(BrandKeywords, Lower(chunk));
      Distinct(bs) && forall x :: x in bs <==> x in BrandKeywords && Contains(Lower(chunk), x)
  {
    assert Distinct(BrandKeywords) by {
      assert BrandKeywords[0][0] == '品' && BrandKeywords[1][0] == 'b';
      assert BrandKeywords[2][0] == '公' && BrandKeywords[3][0] == '企';
    }
    PresentDistinct(BrandKeywords, Lower(chunk));
    forall x ensures x in Present(BrandKeywords, Lower(chunk)) <==> x in BrandKeywords && Contains(Lower(chunk), x) {
      PresentMember(BrandKeywords, Lower(chunk), x);
    }
  }

  // ---------------------------------------------------------------- ids

  /** `f'{form_name}-{item}-chunk{chunk_seq_id:04d}'`. */
  function ChunkId(form: string, item: string, k: nat): string {
    form + "-" + item + "-chunk" + ZeroPad4(k)
  }

  /** Two strings ending in a non-digit, each followed by digits, are equal when the results are. */
  lemma DigitTail(a: string, x: string, b: string, y: string)
    requires a != [] && b != [] && !IsDigit(a[|a| - 1]) && !IsDigit(b[|b| - 1])
    requires AllDigits(x) && AllDigits(y) && a + x == b + y
    ensures a == b && x == y
  {
    var s := a + x;
    assert a == s[..|a|] && b == s[..|b|];
    assert x == s[|a|..] && y == s[|b|..];
  }

  /** Within one form, ids tell the chunks apart: equal ids mean the same item and position. */
  lemma ChunkIdInjective(form: string, item1: string, k1: nat, item2: string, k2: nat)
    requires ChunkId(form, item1, k1) == ChunkId(form, item2, k2)
    ensures item1 == item2 && k1 == k2
  {
    var a := form + "-" + item1 + "-chunk";
    var b := form + "-" + item2 + "-chunk";
    assert a[|a| - 1] == 'k' && b[|b| - 1] == 'k';
    DigitTail(a, ZeroPad4(k1), b, ZeroPad4(k2));
    ZeroPad4Value(k1);
    ZeroPad4Value(k2);
    assert item1 == a[|form| + 1..|a| - 6];
    assert item2 == b[|form| + 1..|b| - 6];
  }

  // ------------------------------------------------------------ form name

  /** `file[file.rindex('/') + 1:file.rindex('.')]`, or `None` where `rindex` raises. */
  function FormName(file: string): (r: Option<string>)
    ensures r.Some? <==> '/' in file && '.' in file
    ensures r.Some? ==> '/' !in r.value
  {
    if '/' in file && '.' in file then
      var r := Slice(file, LastIndexOf(file, '/') + 1, LastIndexOf(file, '.'));
      assert forall i :: 0 <= i < |r| ==> r[i] in file[LastIndexOf(file, '/') + 1..];
      Some(r)
    else None
  }

  /** The file `dir/base.ext` has form name `base`. */
  lemma FormNameOf(dir: string, base: string, ext: string)
    requires '/' !in base && '/' !in ext && '.' !in ext
    ensures FormName(dir + "/" + base + "." + ext) == Some(base)
  {
    var file := dir + "/" + base + "." + ext;
    var p, q := |dir|, |dir| + 1 + |base|;
    assert file[p] == '/' && file[q] == '.';
    assert file[p + 1..] == base + "." + ext;
    assert file[q + 1..] == ext;
    assert '/' !in base + "." + ext;
    assert LastIndexOf(file, '/') == p;
    assert LastIndexOf(file, '.') == q;
    assert file[p + 1..q] == base;
  }

  // ------------------------------------------------------------- records

  /** The text of a form entry: a string as is, a list's items joined by newlines, anything else through `str()`. */
  function ItemText(v: Json, show: Json -> string): string {
    match v
    case JStr(s) => s
    case JArr(xs) => Join(seq(|xs|, i requires 0 <= i < |xs| => if xs[i].JStr? then xs[i].s else show(xs[i])), "\n")
    case _ => show(v)
  }

  /** The record of the `k`-th chunk of an item, given the brand keywords found in the chunk. */
  function Record(form: string, item: string, k: nat, chunk: string, source: Json, brands: seq<string>): Dict {
    [ ("text", JStr(chunk)),
      ("formItem", JStr(item)),
      ("chunkSeqId", JNum(k)),
      ("chunkId", JStr(ChunkId(form, item, k))),
      ("source", source),
      ("content_type", JStr(ContentType(item))),
      ("industry", JStr(IndustryOf(chunk))),
      ("brand_mentioned", JArr(Strings(brands))) ]
  }

  function Strings(xs: seq<string>): (js: seq<Json>)
    ensures |js| == |xs| && forall i :: 0 <= i < |xs| ==> js[i] == JStr(xs[i])
  {
    seq(|xs|, i requires 0 <= i < |xs| => JStr(xs[i]))
  }

  /** The records of an item's chunks, numbered from 0. */
  function ItemRecords(form: string, item: string, chunks: seq<string>, source: Json): (rs: seq<Dict>)
    ensures |rs| == |chunks|
  {
    Numbered(chunks, (k: nat, c: string) => Record(form, item, k, c, source, Present(BrandKeywords, Lower(c))))
  }

  /** `mk(k, chunks[k])` for each position `k`, built chunk by chunk. */
  function Numbered<T>(chunks: seq<string>, mk: (nat, string) -> T): (rs: seq<T>)
    ensures |rs| == |chunks|
  {
    if chunks == [] then [] else Numbered(chunks[..|chunks| - 1], mk) + [mk(|chunks| - 1, chunks[|chunks| - 1])]
  }

  lemma {:induction false} NumberedAt<T>(chunks: seq<string>, mk: (nat, string) -> T, k: nat)
    requires k < |chunks|
    ensures Numbered(chunks, mk)[k] == mk(k, chunks[k])
  {
    var n := |chunks| - 1;
    if k < n {
      NumberedAt(chunks[..n], mk, k);
    }
  }

  /** The `k`-th record of an item is that of its `k`-th chunk, numbered `k`. */
  lemma {:induction false} ItemRecordAt(form: string, item: string, chunks: seq<string>, source: Json, k: nat)
    requires k < |chunks|
    ensures ItemRecords(form, item, chunks, source)[k] == Record(form, item, k, chunks[k], source, Present(BrandKeywords, Lower(chunks[k])))
  {
    NumberedAt(chunks, (k: nat, c: string) => Record(form, item, k, c, source, Present(BrandKeywords, Lower(c))), k);
  }

  /** The records of every entry of the file, entry after entry. */
  function AllRecords(form: string, entries: Dict, split: string -> seq<string>, show: Json -> string, source: Json): seq<Dict> {
    if entries == [] then []
    else
      var e := entries[|entries| - 1];
      AllRecords(form, entries[..|entries| - 1], split, show, source) + ItemRecords(form, e.0, split(ItemText(e.1, show)), source)
  }

  /** The number of chunks over all entries. */
  function ChunkCount(entries: Dict, split: string -> seq<string>, show: Json -> string): nat {
    if entries == [] then 0
    else ChunkCount(entries[..|entries| - 1], split, show) + |split(ItemText(entries[|entries| - 1].1, show))|
  }

  /** One record per chunk. */
  lemma {:induction false} AllRecordsCount(form: string, entries: Dict, split: string -> seq<string>, show: Json -> string, source: Json)
    ensures |AllRecords(form, entries, split, show, source)| == ChunkCount(entries, split, show)
  {
    if entries != [] {
      AllRecordsCount(form, entries[..|entries| - 1], split, show, source);
    }
  }

  /** One more chunk: the inner loop's step. */
  lemma ItemRecordsStep(form: string, item: string, chunks: seq<string>, source: Json, k: nat)
    requires k < |chunks|
    ensures ItemRecords(form, item, chunks[..k + 1], source)
      == ItemRecords(form, item, chunks[..k], source) + [Record(form, item, k, chunks[k], source, Present(BrandKeywords, Lower(chunks[k])))]
  {
    assert chunks[..k + 1][..k] == chunks[..k];
  }

  /** One more entry: the outer loop's step. */
  lemma AllRecordsStep(form: string, entries: Dict, split: string -> seq<string>, show: Json -> string, source: Json, j: nat)
    requires j < |entries|
    ensures AllRecords(form, entries[..j + 1], split, show, source)
      == AllRecords(form, entries[..j], split, show, source) + ItemRecords(form, entries[j].0, split(ItemText(entries[j].1, show)), source)
  {
    assert entries[..j + 1][..j] == entries[..j];
  }

  /**
   * The inner loop of `split_pr_data_from_file` over one item's chunks.  The form name is taken
   * from the file name at every chunk; `None` stands for the `ValueError` `rindex` raises when
   * the name lacks a `/` or a `.`, which only happens once there is a chunk.
   */
  method ChunkRecords(file: string, item: string, chunks: seq<string>, source: Json) returns (rs: Option<seq<Dict>>)
    ensures chunks == [] ==> rs == Some([])
    ensures chunks != [] && FormName(file).None? ==> rs == None
    ensures FormName(file).Some? ==> rs == Some(ItemRecords(FormName(file).value, item, chunks, source))
  {
    ghost var form := if FormName(file).Some? then FormName(file).value else "";
    var records: seq<Dict> := [];
    var chunkSeqId := 0;
    while chunkSeqId < |chunks|
      invariant chunkSeqId <= |chunks|
      invariant FormName(file).Some? ==> records == ItemRecords(form, item, chunks[..chunkSeqId], source)
      invariant FormName(file).None? ==> chunkSeqId == 0 && records == []
    {
      var chunk := chunks[chunkSeqId];
      var formName := FormName(file);
      if formName.None? {
        return None;
      }
      ItemRecordsStep(form, item, chunks, source, chunkSeqId);
      var brands := ExtractBrandMentions(chunk);
      records := records + [Record(formName.value, item, chunkSeqId, chunk, source, brands)];
      chunkSeqId := chunkSeqId + 1;
    }
    assert chunks[..chunkSeqId] == chunks;
    return Some(records);
  }

  /**
   * `split_pr_data_from_file`.  `loaded` is what `json.load` returned (`None` when the file
   * could not be opened or parsed), `split` is the text splitter and `show` is `str()`; the
   * empty list stands for both the error value and a file without chunks.
   */
  method SplitPrDataFromFile(file: string, loaded: Option<Json>, split: string -> seq<string>, show: Json -> string)
    returns (r: seq<Dict>)
    ensures (loaded.None? || !loaded.value.JObj?) ==> r == []
    ensures loaded.Some? && loaded.value.JObj? ==>
      var d := loaded.value.members;
      var source := GetOr(d, "Source", JStr(file));
      r == match FormName(file)
        case Some(form) => AllRecords(form, d, split, show, source)
        case None => []
  {
    if loaded.None? || !loaded.value.JObj? {
      return [];
    }
    var fileAsObject := loaded.value.members;
    var source := GetOr(fileAsObject, "Source", JStr(file));
    ghost var form := if FormName(file).Some? then FormName(file).value else "";
    var chunksWithMetadata: seq<Dict> := [];
    var j := 0;
    while j < |fileAsObject|
      invariant j <= |fileAsObject|
      invariant chunksWithMetadata == if FormName(file).Some? then AllRecords(form, fileAsObject[..j], split, show, source) else []
    {
      AllRecordsStep(form, fileAsObject, split, show, source, j);
      var item := fileAsObject[j].0;
      var itemTextChunks := split(ItemText(fileAsObject[j].1, show));
      var records := ChunkRecords(file, item, itemTextChunks, source);
      if records.None? {
        return [];
      }
      chunksWithMetadata := chunksWithMetadata + records.value;
      j := j + 1;
    }
    assert fileAsObject[..j] == fileAsObject;
    return chunksWithMetadata;
  }
}
