/**
 * `parse_pr_text_to_json`: a cleaned PR text becomes a flat dict.  Citation markers such as
 * `[12]` are deleted, the text is cut before every line that starts with `Section:`, and
 * each piece becomes at most one entry: a `Section: <name>` piece is filed under its topic
 * key (or its own name) with the stripped text after the header line as value, and a piece
 * starting with `Title:` or `Content:` fills `title` or `content`.  A later piece overwrites
 * an earlier one with the same key.
 */
module Txt2Json {
  import opened Wrappers
  import opened Strs
  import opened Json
  import opened Topics

  // ------------------------------------------------------------ citations

  /** Length of the leading run of Unicode decimal digits. */
  function DigitRun(s: string): (n: nat)
    ensures n <= |s|
    ensures forall i :: 0 <= i < n ==> IsDecimal(s[i])
    ensures n < |s| ==> !IsDecimal(s[n])
  {
    if s == [] || !IsDecimal(s[0]) then 0 else 1 + DigitRun(s[1..])
  }

  /** `s` starts with a citation marker `[digits]` of length `n`. */
  predicate MarkerAt(s: string, n: nat) {
    3 <= n <= |s| && s[0] == '[' && s[n - 1] == ']' && forall i :: 1 <= i < n - 1 ==> IsDecimal(s[i])
  }

  /** Length of the citation marker `\[\d+\]` at the front of `s`, or 0 when there is none. */
  function MarkerLen(s: string): (n: nat)
    ensures n == 0 || MarkerAt(s, n)
    ensures forall m: nat :: MarkerAt(s, m) ==> m == n
  {
    if s != [] && s[0] == '[' then
      var d := DigitRun(s[1..]);
      if d > 0 && 1 + d < |s| && s[1 + d] == ']' then
        assert forall i :: 1 <= i < d + 1 ==> s[i] == s[1..][i - 1];
        MarkerLenUnique(s, d);
        d + 2
      else
        MarkerMissing(s, d);
        0
    else 0
  }

  lemma MarkerLenUnique(s: string, d: nat)
    requires s != [] && d == DigitRun(s[1..]) && 1 + d < |s| && s[1 + d] == ']'
    ensures forall m: nat :: MarkerAt(s, m) ==> m == d + 2
  {
    forall m: nat | MarkerAt(s, m) ensures m == d + 2 {
      assert s[m - 1] == s[1..][m - 2];
    }
  }

  lemma MarkerMissing(s: string, d: nat)
    requires s != [] && d == DigitRun(s[1..]) && !(d > 0 && 1 + d < |s| && s[1 + d] == ']')
    ensures forall m: nat :: !MarkerAt(s, m)
  {
    forall m: nat | MarkerAt(s, m) ensures false {
    }
  }

  /** `re.sub(r'\[\d+\]', '', s)`: one left-to-right pass deleting each marker it meets. */
  function RemoveCitations(s: string): (r: string)
    ensures |r| <= |s|
    decreases |s|
  {
    if s == [] then []
    else
      var n := MarkerLen(s);
      if n > 0 then RemoveCitations(s[n..]) else [s[0]] + RemoveCitations(s[1..])
  }

  /** No citation marker starts anywhere in `s`. */
  predicate CitationFree(s: string) {
    forall i :: 0 <= i < |s| ==> MarkerLen(s[i..]) == 0
  }

  /** The pass changes a text exactly when the text holds a marker. */
  lemma {:induction false} RemoveCitationsIdentity(s: string)
    ensures RemoveCitations(s) == s <==> CitationFree(s)
    decreases |s|
  {
    if s != [] {
      assert s[0..] == s;
      assert forall i :: 1 <= i < |s| ==> s[i..] == s[1..][i - 1..];
      RemoveCitationsIdentity(s[1..]);
      if MarkerLen(s) > 0 {
        assert |RemoveCitations(s)| < |s|;
      } else {
        if RemoveCitations(s) == s {
          assert RemoveCitations(s[1..]) == s[1..];
        }
      }
    }
  }

  /** A marker at the front goes, and nothing else with it. */
  lemma MarkerRemoved(ds: string, rest: string)
    requires ds != [] && forall i :: 0 <= i < |ds| ==> IsDecimal(ds[i])
    ensures RemoveCitations("[" + ds + "]" + rest) == RemoveCitations(rest)
  {
    var s := "[" + ds + "]" + rest;
    assert forall i :: 1 <= i < |ds| + 1 ==> s[i] == ds[i - 1];
    assert MarkerAt(s, |ds| + 2);
    assert MarkerLen(s) == |ds| + 2;
    assert s[|ds| + 2..] == rest;
  }

  /** A marker in full-width digits, such as `[１]`, goes as well. */
  lemma FullWidthMarkerRemoved(rest: string)
    ensures RemoveCitations("[\U{FF11}]" + rest) == RemoveCitations(rest)
  {
    FullWidthDecimal('\U{FF11}');
    MarkerRemoved("\U{FF11}", rest);
    assert "[\U{FF11}]" + rest == "[" + "\U{FF11}" + "]" + rest;
  }

  /** A character that cannot be part of a marker. */
  predicate Plain(c: char) {
    c != '[' && c != ']' && !IsDecimal(c)
  }

  /** The characters of `s` that cannot be part of a marker, in order. */
  function PlainPart(s: string): string {
    if s == [] then [] else (if Plain(s[0]) then [s[0]] else []) + PlainPart(s[1..])
  }

  lemma {:induction false} PlainPartAppend(a: string, b: string)
    ensures PlainPart(a + b) == PlainPart(a) + PlainPart(b)
    decreases |a|
  {
    if a != [] {
      assert (a + b)[1..] == a[1..] + b;
      PlainPartAppend(a[1..], b);
    } else {
      assert a + b == b;
    }
  }

  lemma {:induction false} PlainPartOfMarker(s: string, n: nat)
    requires MarkerAt(s, n)
    ensures PlainPart(s[..n]) == []
  {
    var i := n;
    while i > 0
      invariant 0 <= i <= n
      invariant PlainPart(s[i..n]) == []
    {
      i := i - 1;
      assert s[i..n][1..] == s[i + 1..n];
    }
  }

  /** Deleting the markers keeps every other character, in order. */
  lemma {:induction false} RemoveCitationsKeepsPlain(s: string)
    ensures PlainPart(RemoveCitations(s)) == PlainPart(s)
    decreases |s|
  {
    if s != [] {
      var n := MarkerLen(s);
      if n > 0 {
        RemoveCitationsKeepsPlain(s[n..]);
        SkipMarkerKeepsPlain(s, n, RemoveCitations(s[n..]));
      } else {
        RemoveCitationsKeepsPlain(s[1..]);
        CopyKeepsPlain(s, RemoveCitations(s[1..]));
      }
    }
  }

  lemma SkipMarkerKeepsPlain(s: string, n: nat, r: string)
    requires MarkerAt(s, n) && n <= |s| && PlainPart(r) == PlainPart(s[n..])
    ensures PlainPart(r) == PlainPart(s)
  {
    PlainPartOfMarker(s, n);
    assert s == s[..n] + s[n..];
    PlainPartAppend(s[..n], s[n..]);
  }

  lemma CopyKeepsPlain(s: string, r: string)
    requires s != [] && PlainPart(r) == PlainPart(s[1..])
    ensures PlainPart([s[0]] + r) == PlainPart(s)
  {
    PlainPartAppend([s[0]], r);
  }

  // ------------------------------------------------------------- sections

  const SectionTag := "Section:"

  /** `re.split(r'\n(?=Section:)', s)` cuts at position `i`. */
  predicate BreakAt(s: string, i: int) {
    0 <= i < |s| && s[i] == '\n' && StartsWith(s[i + 1..], SectionTag)
  }

  /** `re.split(r'\n(?=Section:)', s)`: the pieces between the newlines that precede `Section:`. */
  function SplitSections(s: string): (ps: seq<string>)
    ensures |ps| >= 1
    decreases |s|
  {
    if s == [] then [""]
    else
      var rest := SplitSections(s[1..]);
      if BreakAt(s, 0) then [""] + rest else [[s[0]] + rest[0]] + rest[1..]
  }

  /** The first piece is a prefix of the text, and it reaches past any newline-free prefix of it. */
  lemma {:induction false} FirstPiece(s: string, k: nat)
    requires k <= |s| && '\n' !in s[..k]
    ensures var p := SplitSections(s)[0]; k <= |p| <= |s| && p == s[..|p|]
    decreases |s|
  {
    if s != [] {
      var rest := SplitSections(s[1..]);
      if BreakAt(s, 0) {
        assert k == 0;
      } else {
        var k' := if k > 0 then k - 1 else 0;
        assert s[1..][..k'] == s[1..k' + 1];
        assert '\n' !in s[1..][..k'] by {
          forall j | 0 <= j < k' ensures s[1..][..k'][j] != '\n' { assert s[1..][..k'][j] == s[..k][j + 1]; }
        }
        FirstPiece(s[1..], k');
        assert SplitSections(s)[0] == [s[0]] + rest[0];
        ConsPrefix(s, rest[0]);
      }
    }
  }

  lemma ConsPrefix(s: string, p: string)
    requires s != [] && |p| < |s| && p == s[1..][..|p|]
    ensures [s[0]] + p == s[..|p| + 1]
  {
    assert s[..|p| + 1] == [s[0]] + s[1..][..|p|];
  }

  /** Joining the pieces with the newlines the split consumed gives the text back. */
  lemma {:induction false} JoinSections(s: string)
    ensures Join(SplitSections(s), "\n") == s
    decreases |s|
  {
    if s != [] {
      var rest := SplitSections(s[1..]);
      JoinSections(s[1..]);
      if BreakAt(s, 0) {
        assert ([""] + rest)[1..] == rest;
        assert s == "\n" + s[1..];
      } else if |rest| == 1 {
        assert [[s[0]] + rest[0]] + rest[1..] == [[s[0]] + rest[0]];
      } else {
        var ps := [[s[0]] + rest[0]] + rest[1..];
        assert ps[1..] == rest[1..];
        assert Join(rest, "\n") == rest[0] + "\n" + Join(rest[1..], "\n");
      }
    }
  }

  /** Every piece but the first starts with `Section:`, and no piece holds a cut of its own. */
  lemma {:induction false} SectionPieces(s: string)
    ensures var ps := SplitSections(s);
      (forall i :: 1 <= i < |ps| ==> StartsWith(ps[i], SectionTag))
      && (forall i, j :: 0 <= i < |ps| && 0 <= j < |ps[i]| ==> !BreakAt(ps[i], j))
    decreases |s|
  {
    if s != [] {
      var rest := SplitSections(s[1..]);
      SectionPieces(s[1..]);
      if BreakAt(s, 0) {
        FirstPiece(s[1..], |SectionTag|);
        assert s[1..][..|SectionTag|] == SectionTag;
        var ps := [""] + rest;
        assert forall i :: 1 <= i < |ps| ==> ps[i] == rest[i - 1];
      } else {
        FirstPiece(s[1..], 0);
        var p := [s[0]] + rest[0];
        forall j | 0 <= j < |p| ensures !BreakAt(p, j) {
          if j > 0 {
            assert p[j..] == rest[0][j - 1..];
            assert !BreakAt(rest[0], j - 1);
          }
        }
        var ps := [p] + rest[1..];
        assert forall i :: 1 <= i < |ps| ==> ps[i] == rest[i];
      }
    }
  }

  // -------------------------------------------------------------- entries

  const HeaderTag := "Section: "
  const TitleTag := "Title:"
  const ContentTag := "Content:"
  const TitleKey := "title"
  const ContentKey := "content"

  /** Length of the first line: the characters before the first newline. */
  function LineLen(s: string): (n: nat)
    ensures n <= |s| && '\n' !in s[..n]
    ensures n < |s| ==> s[n] == '\n'
  {
    if s == [] || s[0] == '\n' then 0
    else
      var n := 1 + LineLen(s[1..]);
      assert s[..n] == [s[0]] + s[1..][..n - 1];
      n
  }

  /**
   * The group of `re.match(r'Section: (.+)', p)`: the rest of the first line after the tag,
   * when it is not empty.
   */
  function HeaderName(p: string): (name: Option<string>)
    ensures name.Some? <==> StartsWith(p, HeaderTag) && |p| > |HeaderTag| && p[|HeaderTag|] != '\n'
    ensures name.Some? ==>
      var n := |HeaderTag| + |name.value|;
      name.value != [] && '\n' !in name.value && n <= |p| && p[..n] == HeaderTag + name.value
      && (n < |p| ==> p[n] == '\n')
  {
    if StartsWith(p, HeaderTag) && |p| > |HeaderTag| && p[|HeaderTag|] != '\n' then
      var rest := p[|HeaderTag|..];
      var name := rest[..LineLen(rest)];
      assert p[..|HeaderTag| + |name|] == p[..|HeaderTag|] + name;
      Some(name)
    else None
  }

  /** The key a section name is filed under: its topic's key, or the name itself. */
  function SectionKey(name: string): (k: string)
    ensures TopicOf(name).Some? ==> k == TopicOf(name).value
    ensures TopicOf(name).None? ==> k == name
  {
    match TopicOf(name)
    case Some(key) => key
    case None => name
  }

  datatype Entry = Entry(key: string, value: string)

  /** The dict entry one piece makes, if any. */
  function EntryOf(p: string): (e: Option<Entry>)
    ensures e.Some? ==> IsStripped(e.value.value)
    ensures Strip(p) == "" ==> e.None?
    ensures Strip(p) != "" && HeaderName(p).Some? ==>
      var name := HeaderName(p).value;
      e == Some(Entry(SectionKey(name), SectionBody(p, name)))
    ensures Strip(p) != "" && HeaderName(p).None? ==>
      (e.Some? <==> StartsWith(Strip(p), TitleTag) || StartsWith(Strip(p), ContentTag))
      && (e.Some? ==> e.value.key == if StartsWith(Strip(p), TitleTag) then TitleKey else ContentKey)
  {
    var t := Strip(p);
    if t == "" then None
    else match HeaderName(p)
      case Some(name) => Some(Entry(SectionKey(name), SectionBody(p, name)))
      case None => TaggedEntry(t)
  }

  /** The stripped text after a piece's `Section: <name>` header line starts. */
  function SectionBody(p: string, name: string): (b: string)
    ensures IsStripped(b)
  {
    if |HeaderTag| + |name| <= |p| then Strip(p[|HeaderTag| + |name|..]) else ""
  }

  /** The entry a stripped piece without a section header makes: `Title:` and `Content:` pieces only. */
  function TaggedEntry(t: string): (e: Option<Entry>)
    ensures e.Some? <==> StartsWith(t, TitleTag) || StartsWith(t, ContentTag)
    ensures e.Some? ==> IsStripped(e.value.value)
    ensures e.Some? ==> e.value.key == if StartsWith(t, TitleTag) then TitleKey else ContentKey
  {
    if StartsWith(t, TitleTag) then Some(Entry(TitleKey, TagValue(t, TitleTag)))
    else if StartsWith(t, ContentTag) then Some(Entry(ContentKey, TagValue(t, ContentTag)))
    else None
  }

  /** The value of a `Title:` or `Content:` piece: every occurrence of the tag removed, then stripped. */
  function TagValue(t: string, tag: string): (v: string)
    requires tag != []
    ensures IsStripped(v)
  {
    Strip(Replace(t, tag, ""))
  }

  /** The entries the pieces make, piece by piece. */
  function Entries(ps: seq<string>): (es: seq<Option<Entry>>)
    ensures |es| == |ps| && forall i :: 0 <= i < |ps| ==> es[i] == EntryOf(ps[i])
  {
    seq(|ps|, i requires 0 <= i < |ps| => EntryOf(ps[i]))
  }

  /** The dict after writing the entries `es` in order. */
  function Fill(es: seq<Option<Entry>>): Dict {
    if es == [] then []
    else
      var d := Fill(es[..|es| - 1]);
      match es[|es| - 1]
      case Some(e) => Put(d, e.key, JStr(e.value))
      case None => d
  }

  /** Entry `x` is written under `k`. */
  predicate Writes(x: Option<Entry>, k: string) {
    x.Some? && x.value.key == k
  }

  /** A key is in the dict exactly when some entry is written under it. */
  lemma {:induction false} FillHasKey(es: seq<Option<Entry>>, k: string)
    ensures Get(Fill(es), k).None? <==> forall i :: 0 <= i < |es| ==> !Writes(es[i], k)
  {
    if es != [] {
      var init := es[..|es| - 1];
      FillHasKey(init, k);
      assert forall i :: 0 <= i < |init| ==> init[i] == es[i];
      match es[|es| - 1]
      case Some(e) =>
        if e.key != k { PutOther(Fill(init), e.key, JStr(e.value), k); }
      case None =>
    }
  }

  /** The value under a key is that of the last entry written under it. */
  lemma {:induction false} FillLast(es: seq<Option<Entry>>, k: string, i: nat)
    requires i < |es| && Writes(es[i], k)
    requires forall j :: i < j < |es| ==> !Writes(es[j], k)
    ensures Get(Fill(es), k) == Some(JStr(es[i].value.value))
  {
    var init := es[..|es| - 1];
    if i < |es| - 1 {
      assert forall j :: i < j < |init| ==> init[j] == es[j];
      FillLast(init, k, i);
      match es[|es| - 1]
      case Some(e) => PutOther(Fill(init), e.key, JStr(e.value), k);
      case None =>
    }
  }

  /** Writing one more piece. */
  lemma FillStep(ps: seq<string>, i: nat)
    requires i < |ps|
    ensures Fill(Entries(ps[..i + 1])) ==
      match EntryOf(ps[i])
      case Some(e) => Put(Fill(Entries(ps[..i])), e.key, JStr(e.value))
      case None => Fill(Entries(ps[..i]))
  {
    assert Entries(ps[..i + 1])[..i] == Entries(ps[..i]);
  }

  /** The body of the `parse_pr_text_to_json` loop: one piece written into the dict. */
  method WritePiece(d0: Dict, section: string) returns (d: Dict)
    ensures d == match EntryOf(section) case Some(e) => Put(d0, e.key, JStr(e.value)) case None => d0
  {
    d := d0;
    var t := Strip(section);
    if t != "" {
      match HeaderName(section) {
        case Some(name) =>
          d := Put(d, SectionKey(name), JStr(SectionBody(section, name)));
        case None =>
          if StartsWith(t, TitleTag) {
            d := Put(d, TitleKey, JStr(TagValue(t, TitleTag)));
          } else if StartsWith(t, ContentTag) {
            d := Put(d, ContentKey, JStr(TagValue(t, ContentTag)));
          }
      }
    }
  }

  /** `parse_pr_text_to_json`. */
  method ParsePrTextToJson(text: string) returns (d: Dict)
    ensures d == Fill(Entries(SplitSections(RemoveCitations(text))))
  {
    var cleaned := RemoveCitations(text);
    var sections := SplitSections(cleaned);
    d := [];
    var i := 0;
    while i < |sections|
      invariant i <= |sections|
      invariant d == Fill(Entries(sections[..i]))
    {
      FillStep(sections, i);
      d := WritePiece(d, sections[i]);
      i := i + 1;
    }
    assert sections[..i] == sections;
  }
}
