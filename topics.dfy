/**
 * The topic keywords shared by the text-to-JSON converter and the chunker: a section or form
 * item whose name mentions a topic is filed under that topic's key.  Both try the groups in
 * the same order (brand, strategy, campaign, media, audience, results) and take the first
 * match; a Chinese keyword is looked up in the name as written, an English one in the
 * lower-cased name.
 */
module Topics {
  import opened Wrappers
  import opened Strs

  /** A topic: its key, its Chinese keywords and its (lower-case) English keywords. */
  datatype Rule = Rule(key: string, words: seq<string>, lowerWords: seq<string>)

  const BrandRule := Rule("brand_info", ["品牌"], ["brand"])
  const StrategyRule := Rule("strategy", ["策略"], ["strategy"])
  const CampaignRule := Rule("campaign", ["活动"], ["campaign"])
  const MediaRule := Rule("media", ["媒体"], ["media"])
  const AudienceRule := Rule("audience", ["受众"], ["audience"])
  const ResultsRule := Rule("results", ["效果"], ["result", "kpi"])

  /** The topics in the order the source tries them. */
  const TopicRules: seq<Rule> := [BrandRule, StrategyRule, CampaignRule, MediaRule, AudienceRule, ResultsRule]

  /** The rule's test: `'品牌' in name or 'brand' in name.lower()` and the like. */
  predicate Matches(r: Rule, name: string) {
    AnyIn(r.words, name) || AnyIn(r.lowerWords, Lower(name))
  }

  /** The position of the first rule from `i` on that matches `name`. */
  function FirstMatchFrom(rules: seq<Rule>, name: string, i: nat): (r: Option<nat>)
    requires i <= |rules|
    ensures r.Some? ==>
      i <= r.value < |rules| && Matches(rules[r.value], name)
      && forall j :: i <= j < r.value ==> !Matches(rules[j], name)
    ensures r.None? ==> forall j :: i <= j < |rules| ==> !Matches(rules[j], name)
    decreases |rules| - i
  {
    if i == |rules| then None
    else if Matches(rules[i], name) then Some(i)
    else FirstMatchFrom(rules, name, i + 1)
  }

  /** The key of the first topic the name mentions, if any. */
  function TopicOf(name: string): (t: Option<string>)
    ensures t.Some? <==> exists i :: 0 <= i < |TopicRules| && Matches(TopicRules[i], name)
    ensures t.Some? ==>
      exists i :: 0 <= i < |TopicRules| && t.value == TopicRules[i].key && Matches(TopicRules[i], name)
        && forall j :: 0 <= j < i ==> !Matches(TopicRules[j], name)
  {
    match FirstMatchFrom(TopicRules, name, 0)
    case Some(i) => Some(TopicRules[i].key)
    case None => None
  }

  /** A rule with one keyword of each kind misses a lower-case name lacking a character of each. */
  lemma MissesRule(r: Rule, name: string, x: nat)
    requires Lower(name) == name && |r.words| == 1 && |r.lowerWords| == 1
    requires r.words[0] != [] && r.words[0][0] !in name
    requires x < |r.lowerWords[0]| && r.lowerWords[0][x] !in name
    ensures !Matches(r, name)
  {
    MissingCharNotContained(name, r.words[0], 0);
    MissingCharNotContained(name, r.lowerWords[0], x);
  }

  /** A lower-case name starting with a rule's first English keyword matches the rule. */
  lemma HitsRule(r: Rule, name: string)
    requires Lower(name) == name && |r.lowerWords| > 0 && StartsWith(name, r.lowerWords[0])
    ensures Matches(r, name)
  {
    assert Contains(name, r.lowerWords[0]);
  }

  /** The key of rule `i` is matched by rule `i` and missed by every earlier rule. */
  predicate FirstFor(i: nat, key: string)
    requires i < |TopicRules|
  {
    Matches(TopicRules[i], key) && forall j :: 0 <= j < i ==> !Matches(TopicRules[j], key)
  }

  /**
   * For a lower-case name lacking the first character of every Chinese keyword: rule `i`
   * comes first when the name starts with its English keyword and lacks `b` (brand), `y`
   * (strategy), `p` (campaign), `m` (media) and `a` (audience) as far as earlier rules go.
   */
  lemma FirstByLetters(i: nat, key: string)
    requires i < |TopicRules| && Lower(key) == key && StartsWith(key, TopicRules[i].lowerWords[0])
    requires forall j :: 0 <= j < i ==> TopicRules[j].words[0][0] !in key
    requires i > 0 ==> 'b' !in key
    requires i > 1 ==> 'y' !in key
    requires i > 2 ==> 'p' !in key
    requires i > 3 ==> 'm' !in key
    requires i > 4 ==> 'a' !in key
    ensures FirstFor(i, key)
  {
    HitsRule(TopicRules[i], key);
    forall j | 0 <= j < i
      ensures !Matches(TopicRules[j], key)
    {
      var x := if j == 1 then 7 else if j == 2 then 3 else 0;
      MissesRule(TopicRules[j], key, x);
    }
  }

  /** The keys hold no upper-case letter. */
  lemma KeyNoUpper(i: nat)
    requires i < |TopicRules|
    ensures NoUpper(TopicRules[i].key)
  {
    if i == 0 { assert NoUpper("brand_info"); }
    else if i == 1 { assert NoUpper("strategy"); }
    else if i == 2 { assert NoUpper("campaign"); }
    else if i == 3 { assert NoUpper("media"); }
    else if i == 4 { assert NoUpper("audience"); }
    else { assert NoUpper("results"); }
  }

  /** Each key starts with its rule's first English keyword. */
  lemma KeyStarts(i: nat)
    requires i < |TopicRules|
    ensures StartsWith(TopicRules[i].key, TopicRules[i].lowerWords[0])
  {
    if i == 0 { assert StartsWith("brand_info", "brand"); }
    else if i == 1 { assert StartsWith("strategy", "strategy"); }
    else if i == 2 { assert StartsWith("campaign", "campaign"); }
    else if i == 3 { assert StartsWith("media", "media"); }
    else if i == 4 { assert StartsWith("audience", "audience"); }
    else { assert StartsWith("results", "result"); }
  }

  /** No key holds the first character of an earlier rule's Chinese keyword. */
  lemma KeyLacksChinese(i: nat, j: nat)
    requires j < i < |TopicRules|
    ensures TopicRules[j].words[0][0] !in TopicRules[i].key
  {
    var c := TopicRules[j].words[0][0];
    assert c in "品策活媒受";
    var key := TopicRules[i].key;
    assert forall k :: 0 <= k < |key| ==> 'a' <= key[k] <= 'z' || key[k] == '_';
  }

  /** `b` of brand, `y` of strategy, `p` of campaign, `m` of media and `a` of audience. */
  const MissingLetters := "bypma"

  /** No key holds the missing letter of an earlier rule's English keyword. */
  lemma KeyLacksLetter(i: nat, j: nat)
    requires j < i < |TopicRules|
    ensures MissingLetters[j] !in TopicRules[i].key
  {
    if i == 1 { assert 'b' !in "strategy"; }
    else if i == 2 { assert "by" == MissingLetters[..2]; assert forall k :: 0 <= k < 8 ==> "campaign"[k] !in "by"; }
    else if i == 3 { assert "byp" == MissingLetters[..3]; assert forall k :: 0 <= k < 5 ==> "media"[k] !in "byp"; }
    else if i == 4 { assert "bypm" == MissingLetters[..4]; assert forall k :: 0 <= k < 8 ==> "audience"[k] !in "bypm"; }
    else { assert forall k :: 0 <= k < 7 ==> "results"[k] !in MissingLetters; }
  }

  /** The letters of the earlier English keywords that a key lacks. */
  lemma KeyLacksLetters(i: nat)
    requires i < |TopicRules|
    ensures var key := TopicRules[i].key;
      (i > 0 ==> 'b' !in key) && (i > 1 ==> 'y' !in key) && (i > 2 ==> 'p' !in key)
      && (i > 3 ==> 'm' !in key) && (i > 4 ==> 'a' !in key)
  {
    if i > 0 { KeyLacksLetter(i, 0); }
    if i > 1 { KeyLacksLetter(i, 1); }
    if i > 2 { KeyLacksLetter(i, 2); }
    if i > 3 { KeyLacksLetter(i, 3); }
    if i > 4 { KeyLacksLetter(i, 4); }
  }

  /**
   * A topic key names its own topic: a section filed under `strategy` is classified as
   * `strategy` again when its key is read back as a name.  No earlier rule's keywords occur
   * in a later key: each lacks a character of the key (`b` of brand, `y` of strategy, `p` of
   * campaign, `m` of media, `a` of audience, and the first character of each Chinese word).
   */
  lemma TopicKeysFixed(i: nat)
    requires i < |TopicRules|
    ensures TopicOf(TopicRules[i].key) == Some(TopicRules[i].key)
  {
    var key := TopicRules[i].key;
    KeyNoUpper(i);
    LowerOfNoUpper(key);
    KeyStarts(i);
    KeyLacksLetters(i);
    forall j | 0 <= j < i
      ensures TopicRules[j].words[0][0] !in key
    {
      KeyLacksChinese(i, j);
    }
    FirstByLetters(i, key);
    var r := FirstMatchFrom(TopicRules, key, 0);
    assert r.Some? && r.value == i;
  }
}
