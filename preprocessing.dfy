/**
 * `extract_text_from_content`: the text a document reader returned becomes one tagged line per
 * non-blank input line.  Each line is stripped and written as `Section: <line>` when the
 * file type's title rule accepts it, and as `Content: <line>` otherwise.  The caller passes
 * the file's extension without its dot as the type.
 */
module Preprocessing {
  import opened Wrappers
  import opened Strs

  /** The title rule a file type selects. */
  datatype TitleRule = DocumentRule | HtmlRule | TableRule | NoRule

  function RuleOf(fileType: string): TitleRule {
    if fileType in ["pdf", "docx", "pptx"] then DocumentRule
    else if fileType == "html" then HtmlRule
    else if fileType in ["excel", "csv"] then TableRule
    else NoRule
  }

  const DocumentWords: seq<string> := ["品牌", "案例", "策略", "传播", "营销", "分析"]
  const HtmlWords: seq<string> := ["品牌", "案例", "策略"]

  /** The `is_title` flag for a stripped line. */
  predicate IsTitle(line: string, fileType: string) {
    match RuleOf(fileType)
    case DocumentRule =>
      |line| < 100 && (EndsWith(line, "：") || EndsWith(line, ":") || AnyIn(DocumentWords, line))
    case HtmlRule => |line| < 100 && AnyIn(HtmlWords, line)
    case TableRule => Contains(line, "Sheet:") || StartsWith(line, "Unnamed:")
    case NoRule => false
  }

  /** Only a table accepts a title of 100 characters or more. */
  lemma LongTitles(line: string, fileType: string)
    requires |line| >= 100 && IsTitle(line, fileType)
    ensures RuleOf(fileType) == TableRule
  {
  }

  /** The output line for a stripped, non-blank input line. */
  function Tagged(line: string, fileType: string): string {
    (if IsTitle(line, fileType) then "Section: " else "Content: ") + line
  }

  /** Every line stripped. */
  function StripAll(lines: seq<string>): (ss: seq<string>)
    ensures |ss| == |lines| && forall i :: 0 <= i < |lines| ==> ss[i] == Strip(lines[i])
  {
    if lines == [] then [] else StripAll(lines[..|lines| - 1]) + [Strip(lines[|lines| - 1])]
  }

  /** The non-empty strings, in order. */
  function NonEmpty(ss: seq<string>): seq<string> {
    if ss == [] then []
    else NonEmpty(ss[..|ss| - 1]) + (if ss[|ss| - 1] == "" then [] else [ss[|ss| - 1]])
  }

  /** The stripped non-blank lines, in order. */
  function Kept(lines: seq<string>): seq<string> {
    NonEmpty(StripAll(lines))
  }

  /** The output line for each kept line. */
  function Tags(ks: seq<string>, fileType: string): (ts: seq<string>)
    ensures |ts| == |ks| && forall i :: 0 <= i < |ks| ==> ts[i] == Tagged(ks[i], fileType)
  {
    if ks == [] then [] else Tags(ks[..|ks| - 1], fileType) + [Tagged(ks[|ks| - 1], fileType)]
  }

  /** The loop's output list: one tagged line per kept line, in order. */
  function TaggedLines(lines: seq<string>, fileType: string): seq<string> {
    Tags(Kept(lines), fileType)
  }

  /** One more line: the loop's step. */
  lemma TaggedLinesStep(lines: seq<string>, i: nat)
    requires i < |lines|
    ensures var t := Strip(lines[i]);
      Kept(lines[..i + 1]) == Kept(lines[..i]) + (if t == "" then [] else [t])
  {
    var ss := StripAll(lines[..i + 1]);
    assert ss[..i] == StripAll(lines[..i]);
  }

  /** Keeping the non-empty strings commutes with concatenation. */
  lemma {:induction false} NonEmptyAppend(a: seq<string>, b: seq<string>)
    ensures NonEmpty(a + b) == NonEmpty(a) + NonEmpty(b)
    decreases |b|
  {
    if b == [] {
      assert a + b == a;
    } else {
      assert (a + b)[..|a + b| - 1] == a + b[..|b| - 1];
      NonEmptyAppend(a, b[..|b| - 1]);
    }
  }

  lemma {:induction false} StripAllAppend(a: seq<string>, b: seq<string>)
    ensures StripAll(a + b) == StripAll(a) + StripAll(b)
    decreases |b|
  {
    if b == [] {
      assert a + b == a;
    } else {
      var b', x := b[..|b| - 1], b[|b| - 1];
      assert (a + b)[..|a + b| - 1] == a + b' && (a + b)[|a + b| - 1] == x;
      StripAllAppend(a, b');
      SnocAssoc(StripAll(a), StripAll(b'), [Strip(x)]);
    }
  }

  lemma SnocAssoc(p: seq<string>, q: seq<string>, r: seq<string>)
    ensures (p + q) + r == p + (q + r)
  {
  }

  /** Keeping commutes with concatenation: lines keep their order. */
  lemma KeptAppend(a: seq<string>, b: seq<string>)
    ensures Kept(a + b) == Kept(a) + Kept(b)
  {
    StripAllAppend(a, b);
    NonEmptyAppend(StripAll(a), StripAll(b));
  }

  /** A single line is kept as its stripped self exactly when it is not blank. */
  lemma KeptOne(line: string)
    ensures Kept([line]) == if Strip(line) == "" then [] else [Strip(line)]
  {
    assert [line][..0] == [];
    var ss := StripAll([line]);
    assert ss == [Strip(line)];
    assert ss[..0] == [];
    assert NonEmpty(ss[..0]) == [];
    assert NonEmpty(ss) == NonEmpty(ss[..0]) + (if ss[0] == "" then [] else [ss[0]]);
  }

  /** Every string kept is non-empty and one of the input strings. */
  lemma {:induction false} NonEmptyFacts(ss: seq<string>)
    ensures forall i :: 0 <= i < |NonEmpty(ss)| ==> NonEmpty(ss)[i] != "" && NonEmpty(ss)[i] in ss
  {
    if ss != [] {
      var init := ss[..|ss| - 1];
      NonEmptyFacts(init);
      assert forall x :: x in init ==> x in ss;
    }
  }

  /** Nothing is kept exactly when every string is empty. */
  lemma {:induction false} NonEmptyEmpty(ss: seq<string>)
    ensures NonEmpty(ss) == [] <==> forall i :: 0 <= i < |ss| ==> ss[i] == ""
  {
    if ss != [] {
      var init := ss[..|ss| - 1];
      NonEmptyEmpty(init);
      assert forall i :: 0 <= i < |init| ==> init[i] == ss[i];
    }
  }

  /** Every kept line is non-empty and stripped, and holds no newline when the input lines hold none. */
  lemma KeptFacts(lines: seq<string>)
    ensures forall i :: 0 <= i < |Kept(lines)| ==> Kept(lines)[i] != "" && IsStripped(Kept(lines)[i])
    ensures (forall i :: 0 <= i < |lines| ==> '\n' !in lines[i]) ==>
      forall i :: 0 <= i < |Kept(lines)| ==> '\n' !in Kept(lines)[i]
  {
    var ss := StripAll(lines);
    NonEmptyFacts(ss);
    forall i | 0 <= i < |lines|
      ensures '\n' in ss[i] ==> '\n' in lines[i]
    {
      StripSlice(lines[i]);
    }
  }

  /** Nothing is kept exactly when every line is blank. */
  lemma KeptEmptyIffBlank(lines: seq<string>)
    ensures Kept(lines) == [] <==> forall i :: 0 <= i < |lines| ==> Strip(lines[i]) == ""
  {
    NonEmptyEmpty(StripAll(lines));
  }

  /** The extensions the directory walk accepts, with their dots. */
  const SupportedExtensions: seq<string> :=
    [".pdf", ".xlsx", ".xls", ".csv", ".docx", ".doc", ".pptx", ".ppt", ".html", ".htm", ".json", ".txt"]

  /**
   * The walk passes `file_ext[1:]`, so the readers' own names `excel` never arrive: of the
   * supported extensions, `xlsx`, `xls`, `doc`, `ppt`, `htm`, `json` and `txt` select no title
   * rule and give only `Content:` lines.
   */
  lemma ExtensionRules(i: nat)
    requires i < |SupportedExtensions|
    ensures var ext := SupportedExtensions[i][1..];
      RuleOf(ext) == NoRule <==> ext in ["xlsx", "xls", "doc", "ppt", "htm", "json", "txt"]
  {
    var ext := SupportedExtensions[i][1..];
    if i == 0 { assert ext == "pdf"; }
    else if i == 1 { assert ext == "xlsx"; }
    else if i == 2 { assert ext == "xls"; }
    else if i == 3 { assert ext == "csv"; }
    else if i == 4 { assert ext == "docx"; }
    else if i == 5 { assert ext == "doc"; }
    else if i == 6 { assert ext == "pptx"; }
    else if i == 7 { assert ext == "ppt"; }
    else if i == 8 { assert ext == "html"; }
    else if i == 9 { assert ext == "htm"; }
    else if i == 10 { assert ext == "json"; }
    else { assert ext == "txt"; }
  }

  /** `extract_text_from_content`. */
  method ExtractTextFromContent(content: string, fileType: string) returns (r: Option<string>)
    ensures content == "" ==> r == None
    ensures content != "" ==> r == Some(Join(TaggedLines(Split(content, '\n'), fileType), "\n"))
  {
    if content == "" {
      return None;
    }
    var lines := Split(content, '\n');
    var textContent: seq<string> := [];
    var i := 0;
    while i < |lines|
      invariant i <= |lines|
      invariant textContent == TaggedLines(lines[..i], fileType)
    {
      TaggedLinesStep(lines, i);
      ghost var ks := Kept(lines[..i]);
      var line := Strip(lines[i]);
      if line != "" {
        assert (ks + [line])[..|ks|] == ks;
        var isTitle := IsTitle(line, fileType);
        if isTitle {
          textContent := textContent + ["Section: " + line];
        } else {
          textContent := textContent + ["Content: " + line];
        }
      }
      i := i + 1;
    }
    assert lines[..i] == lines;
    return Some(Join(textContent, "\n"));
  }

  /** Content made only of blank lines gives the empty text. */
  lemma BlankContent(content: string, fileType: string)
    requires forall i :: 0 <= i < |Split(content, '\n')| ==> Strip(Split(content, '\n')[i]) == ""
    ensures Join(TaggedLines(Split(content, '\n'), fileType), "\n") == ""
  {
    KeptEmptyIffBlank(Split(content, '\n'));
  }

  /** The tagged lines hold no newline when the input lines hold none. */
  lemma TaggedNoNewline(lines: seq<string>, fileType: string)
    requires forall i :: 0 <= i < |lines| ==> '\n' !in lines[i]
    ensures forall i :: 0 <= i < |TaggedLines(lines, fileType)| ==> '\n' !in TaggedLines(lines, fileType)[i]
  {
    var ts := TaggedLines(lines, fileType);
    KeptFacts(lines);
    var ks := Kept(lines);
    forall i | 0 <= i < |ts| ensures '\n' !in ts[i] {
      var prefix := if IsTitle(ks[i], fileType) then "Section: " else "Content: ";
      assert ts[i] == prefix + ks[i];
      assert '\n' !in prefix;
      assert '\n' !in ks[i];
    }
  }

  /** Splitting the output at newlines gives the tagged lines back, when there are any. */
  lemma TaggedRoundTrip(content: string, fileType: string)
    requires TaggedLines(Split(content, '\n'), fileType) != []
    ensures var ts := TaggedLines(Split(content, '\n'), fileType);
      Split(Join(ts, "\n"), '\n') == ts
  {
    TaggedNoNewline(Split(content, '\n'), fileType);
    SplitJoin(TaggedLines(Split(content, '\n'), fileType), '\n');
  }
}
