/**
 * The issue matcher (src/lib/matcher.ts): a rule-based scorer that rates
 * one issue against one developer profile, and a ranker that keeps the
 * qualifying issues, best first.
 *
 * The scorer adds up six independent bonuses. Each bonus that fires adds
 * one reason. A total below the threshold means "no match".
 *
 *   rule       fires when                                           points
 *   language   the repository language is one of the skills         30
 *   labels     some lower-cased label overlaps an interest          20 per label
 *   topics     some repository topic overlaps an interest           15 per topic
 *   title      an interest keyword occurs in the lower-cased title  10 per keyword
 *   body       an interest keyword occurs in the lower-cased body    5 per keyword
 *   beginner   beginner profile, "good first issue" label           40
 *
 * The rules are stated once as specification functions (Points, Fires,
 * Reason, Match). The method MatchIssueToProfile then computes the same
 * result the way the source does: a score accumulator and a growing list
 * of reasons, updated by one block per rule (one method per block here).
 */
module Matcher {
  import opened Wrappers
  import opened Text
  import opened Seqs
  import opened GithubIssues
  import opened Profiles

  /** Results scoring below this are dropped. */
  const Threshold: nat := 30


  /** The result of a successful match. */
  datatype MatchResult = MatchResult(issue: Issue, score: nat, reasons: seq<string>)

  // ---------------------------------------------------------------------
  // The per-rule pieces: pure filters over labels, topics and keywords
  // ---------------------------------------------------------------------

  /**
   * Bidirectional containment between a label or topic and an interest:
   * the text contains the lower-cased interest, or the lower-cased
   * interest contains the text. The text itself is taken as given.
   */
  predicate Overlaps(text: string, interest: string): (overlap: bool)
    ensures text == Lower(interest) ==> overlap
    ensures interest == "" ==> overlap
    ensures text == "" ==> overlap
  {
    Contains(text, Lower(interest)) || Contains(Lower(interest), text)
  }

  /**
   * `interests.some(interest => Overlaps(text, interest))`: never for no
   * interests, always when one interest is empty.
   */
  predicate OverlapsSomeInterest(text: string, interests: seq<string>): (some: bool)
    ensures interests == [] ==> !some
    ensures "" in interests ==> some
  {
    exists k :: 0 <= k < |interests| && Overlaps(text, interests[k])
  }

  /** The items (labels or topics) that overlap some interest, duplicates kept. */
  function OverlappingItems(items: seq<string>, interests: seq<string>): seq<string> {
    Filter(items, OverlapsAny(interests))
  }

  /** The filter callback of the label and topic rules. */
  function OverlapsAny(interests: seq<string>): string -> bool {
    x => OverlapsSomeInterest(x, interests)
  }

  /** The label names, lower-cased, in order. */
  function LowerNames(labels: seq<Label>): (r: seq<string>)
    ensures |r| == |labels|
    ensures forall k :: 0 <= k < |labels| ==> r[k] == Lower(labels[k].name)
  {
    if labels == [] then [] else [Lower(labels[0].name)] + LowerNames(labels[1..])
  }

  /** Lower-casing label names distributes over concatenation. */
  lemma {:induction false} LowerNamesAppend(a: seq<Label>, b: seq<Label>)
    ensures LowerNames(a + b) == LowerNames(a) + LowerNames(b)
  {
    if a == [] {
      assert a + b == b;
    } else {
      assert (a + b)[0] == a[0];
      assert (a + b)[1..] == a[1..] + b;
      LowerNamesAppend(a[1..], b);
      assert LowerNames(a + b) == [Lower(a[0].name)] + (LowerNames(a[1..]) + LowerNames(b));
    }
  }

  /**
   * `interests.flatMap(i => i.toLowerCase().split(" "))`: every interest
   * yields at least one keyword, and keywords repeat as often as they occur.
   */
  function Keywords(interests: seq<string>): (r: seq<string>)
    ensures |r| >= |interests|
  {
    if interests == [] then [] else SplitOnSpace(Lower(interests[0])) + Keywords(interests[1..])
  }

  /** Keywords hold no space and no upper-case letter. */
  lemma {:induction false} KeywordsShape(interests: seq<string>)
    ensures forall k :: 0 <= k < |Keywords(interests)| ==>
              ' ' !in Keywords(interests)[k] && IsLowerCase(Keywords(interests)[k])
  {
    if interests != [] {
      var first := SplitOnSpace(Lower(interests[0]));
      var rest := Keywords(interests[1..]);
      KeywordsShape(interests[1..]);
      SplitOnSpaceJoin(Lower(interests[0]));
      LowerIsLowerCase(interests[0]);
      SplitPiecesLowerCase(Lower(interests[0]));
      forall k | 0 <= k < |first + rest|
        ensures ' ' !in (first + rest)[k] && IsLowerCase((first + rest)[k])
      {
        if k >= |first| {
          assert (first + rest)[k] == rest[k - |first|];
        }
      }
    }
  }

  /** The keywords of a list of interests are those of each interest in turn. */
  lemma {:induction false} KeywordsAppend(a: seq<string>, b: seq<string>)
    ensures Keywords(a + b) == Keywords(a) + Keywords(b)
  {
    if a == [] {
      assert a + b == b;
    } else {
      assert (a + b)[0] == a[0];
      assert (a + b)[1..] == a[1..] + b;
      KeywordsAppend(a[1..], b);
    }
  }

  /** The keywords that occur in text, duplicates kept. */
  function KeywordsIn(keywords: seq<string>, text: string): seq<string> {
    Filter(keywords, OccursIn(text))
  }

  /** Some keyword is found in text exactly when one of them occurs there. */
  lemma KeywordsFound(keywords: seq<string>, text: string)
    ensures |KeywordsIn(keywords, text)| > 0 <==> exists k :: 0 <= k < |keywords| && Contains(text, keywords[k])
  {
    FilterNonEmpty(keywords, OccursIn(text));
    assert forall k :: 0 <= k < |keywords| ==> (OccursIn(text)(keywords[k]) <==> Contains(text, keywords[k]));
  }

  /** The filter callback of the title and body rules. */
  function OccursIn(text: string): string -> bool {
    k => Contains(text, k)
  }

  /** The repository language is truthy (present and non-empty) and one of the skills. */
  predicate LanguageMatches(issue: Issue, profile: Profile) {
    var language := issue.repository.language;
    language.Some? && language.value != "" && language.value in profile.skills
  }

  /** The body is truthy: present and non-empty. */
  predicate HasBody(issue: Issue) {
    issue.body.Some? && issue.body.value != ""
  }

  /** Some lower-cased label reads "good first issue" or "good-first-issue". */
  predicate IsLabeledGoodFirstIssue(issue: Issue) {
    var labels := LowerNames(issue.labels);
    "good first issue" in labels || "good-first-issue" in labels
  }

  function MatchedLabels(issue: Issue, profile: Profile): seq<string> {
    OverlappingItems(LowerNames(issue.labels), profile.interests)
  }

  function MatchedTopics(topics: seq<string>, profile: Profile): seq<string> {
    OverlappingItems(topics, profile.interests)
  }

  function TitleMatches(issue: Issue, profile: Profile): seq<string> {
    KeywordsIn(Keywords(profile.interests), Lower(issue.title))
  }

  function BodyMatches(body: string, profile: Profile): seq<string> {
    KeywordsIn(Keywords(profile.interests), Lower(body))
  }

  // ---------------------------------------------------------------------
  // The six rules
  // ---------------------------------------------------------------------

  datatype Rule = LanguageRule | LabelRule | TopicRule | TitleRule | BodyRule | BeginnerRule

  /** The rules in the order the scorer applies them (and lists their reasons). */
  const Rules: seq<Rule> := [LanguageRule, LabelRule, TopicRule, TitleRule, BodyRule, BeginnerRule]

  /**
   * The guard under which the source adds a rule's points and reason: the
   * `length > 0` tests on the filtered lists.
   */
  predicate Fires(rule: Rule, issue: Issue, profile: Profile) {
    match rule
    case LanguageRule => LanguageMatches(issue, profile)
    case LabelRule => |MatchedLabels(issue, profile)| > 0
    case TopicRule =>
      (match issue.repository.topics
       case None => false
       case Some(topics) => |MatchedTopics(topics, profile)| > 0)
    case TitleRule => |TitleMatches(issue, profile)| > 0
    case BodyRule => HasBody(issue) && |BodyMatches(issue.body.value, profile)| > 0
    case BeginnerRule => profile.experienceLevel == Beginner && IsLabeledGoodFirstIssue(issue)
  }

  /**
   * The filtered lists are non-empty exactly when some label, topic or
   * keyword qualifies.
   */
  lemma FiresWhen(rule: Rule, issue: Issue, profile: Profile)
    ensures rule == LabelRule ==>
              (Fires(rule, issue, profile)
               <==> exists k :: 0 <= k < |issue.labels|
                      && OverlapsSomeInterest(Lower(issue.labels[k].name), profile.interests))
    ensures rule == TopicRule ==>
              (Fires(rule, issue, profile)
               <==> issue.repository.topics.Some?
                    && exists k :: 0 <= k < |issue.repository.topics.value|
                         && OverlapsSomeInterest(issue.repository.topics.value[k], profile.interests))
    ensures rule == TitleRule ==>
              (Fires(rule, issue, profile)
               <==> exists k :: 0 <= k < |Keywords(profile.interests)|
                      && Contains(Lower(issue.title), Keywords(profile.interests)[k]))
    ensures rule == BodyRule ==>
              (Fires(rule, issue, profile)
               <==> HasBody(issue)
                    && exists k :: 0 <= k < |Keywords(profile.interests)|
                         && Contains(Lower(issue.body.value), Keywords(profile.interests)[k]))
  {
    match rule
    case LabelRule =>
      FilterNonEmpty(LowerNames(issue.labels), OverlapsAny(profile.interests));
    case TopicRule =>
      if issue.repository.topics.Some? {
        FilterNonEmpty(issue.repository.topics.value, OverlapsAny(profile.interests));
      }
    case TitleRule =>
      TextMatches(issue.title, profile);
    case BodyRule =>
      if HasBody(issue) {
        TextMatches(issue.body.value, profile);
      }
    case _ =>
  }

  /** Some keyword matches a text exactly when one of them occurs in it, lower-cased. */
  lemma TextMatches(text: string, profile: Profile)
    ensures |BodyMatches(text, profile)| > 0
            <==> exists k :: 0 <= k < |Keywords(profile.interests)|
                   && Contains(Lower(text), Keywords(profile.interests)[k])
  {
    var keywords, lowered := Keywords(profile.interests), Lower(text);
    KeywordsFound(keywords, lowered);
    assert BodyMatches(text, profile) == KeywordsIn(keywords, lowered);
    if |BodyMatches(text, profile)| > 0 {
      var k :| 0 <= k < |keywords| && Contains(lowered, keywords[k]);
    }
  }

  /**
   * What a rule adds to the score: something exactly when it fires; the
   * flat bonuses are 30 and 40, the others a multiple of their per-item
   * bonus.
   */
  function Points(rule: Rule, issue: Issue, profile: Profile): (points: nat)
    ensures points > 0 <==> Fires(rule, issue, profile)
    ensures rule == LanguageRule ==> points == 0 || points == 30
    ensures rule == BeginnerRule ==> points == 0 || points == 40
    ensures rule == BeginnerRule && profile.experienceLevel != Beginner ==> points == 0
  {
    match rule
    case LanguageRule => if LanguageMatches(issue, profile) then 30 else 0
    case LabelRule => |MatchedLabels(issue, profile)| * 20
    case TopicRule =>
      (match issue.repository.topics
       case None => 0
       case Some(topics) => |MatchedTopics(topics, profile)| * 15)
    case TitleRule => |TitleMatches(issue, profile)| * 10
    case BodyRule => if HasBody(issue) then |BodyMatches(issue.body.value, profile)| * 5 else 0
    case BeginnerRule =>
      if profile.experienceLevel == Beginner && IsLabeledGoodFirstIssue(issue) then 40 else 0
  }

  /** The per-match rules add a fixed number of points for every match. */
  lemma PointsPerMatch(rule: Rule, issue: Issue, profile: Profile)
    ensures rule == LabelRule ==> Points(rule, issue, profile) % 20 == 0
    ensures rule == TopicRule ==> Points(rule, issue, profile) % 15 == 0
    ensures rule == TitleRule ==> Points(rule, issue, profile) % 10 == 0
    ensures rule == BodyRule ==> Points(rule, issue, profile) % 5 == 0
  {
    var points := Points(rule, issue, profile);
    match rule
    case LabelRule =>
      var count := |MatchedLabels(issue, profile)|;
      assert points == count * 20 && (count * 20) % 20 == 0;
    case TopicRule =>
      if issue.repository.topics.Some? {
        var count := |MatchedTopics(issue.repository.topics.value, profile)|;
        assert points == count * 15 && (count * 15) % 15 == 0;
      }
    case TitleRule =>
      var count := |TitleMatches(issue, profile)|;
      assert points == count * 10 && (count * 10) % 10 == 0;
    case BodyRule =>
      if HasBody(issue) {
        var count := |BodyMatches(issue.body.value, profile)|;
        assert points == count * 5 && (count * 5) % 5 == 0;
      }
    case _ =>
  }

  /** The reason texts, one per rule. */
  function LanguageReason(language: string): string {
    "Repository uses " + language + ", which is in your skills"
  }

  function LabelsReason(matchedLabels: seq<string>): string {
    "Issue has labels (" + Join(matchedLabels, ", ") + ") that match your interests"
  }

  function TopicsReason(matchedTopics: seq<string>): string {
    "Repository has topics (" + Join(matchedTopics, ", ") + ") that match your interests"
  }

  const TitleReason := "Issue title contains keywords related to your interests"
  const BodyReason := "Issue description contains keywords related to your interests"
  const BeginnerReason := "Issue is explicitly labeled as \"good first issue\", perfect for your experience level"

  /**
   * The reason text a rule contributes when it fires. The language reason
   * names the language; the label and topic reasons name every matched
   * label and topic.
   */
  function Reason(rule: Rule, issue: Issue, profile: Profile): (reason: string)
    ensures rule == LanguageRule ==> Contains(reason, issue.repository.language.GetOr(""))
    ensures rule == LabelRule ==>
              forall k :: 0 <= k < |MatchedLabels(issue, profile)| ==> Contains(reason, MatchedLabels(issue, profile)[k])
    ensures rule == TopicRule ==>
              forall k :: 0 <= k < |MatchedTopics(issue.repository.topics.GetOr([]), profile)| ==>
                Contains(reason, MatchedTopics(issue.repository.topics.GetOr([]), profile)[k])
  {
    match rule
    case LanguageRule =>
      var language := issue.repository.language.GetOr("");
      NamesPart("Repository uses ", [language], ", which is in your skills");
      LanguageReason(language)
    case LabelRule =>
      NamesParts("Issue has labels (", MatchedLabels(issue, profile), ") that match your interests");
      LabelsReason(MatchedLabels(issue, profile))
    case TopicRule =>
      var topics := MatchedTopics(issue.repository.topics.GetOr([]), profile);
      NamesParts("Repository has topics (", topics, ") that match your interests");
      TopicsReason(topics)
    case TitleRule => TitleReason
    case BodyRule => BodyReason
    case BeginnerRule => BeginnerReason
  }

  /** A text made of a prefix, the joined parts and a suffix names every part. */
  lemma NamesParts(before: string, parts: seq<string>, after: string)
    ensures forall k :: 0 <= k < |parts| ==> Contains(before + Join(parts, ", ") + after, parts[k])
  {
    JoinContainsParts(parts, ", ");
    forall k | 0 <= k < |parts| ensures Contains(before + Join(parts, ", ") + after, parts[k]) {
      ContainsWithin(before, Join(parts, ", "), after, parts[k]);
    }
  }

  /** A text made of a prefix, one part and a suffix names that part. */
  lemma NamesPart(before: string, parts: seq<string>, after: string)
    requires |parts| == 1
    ensures Contains(before + parts[0] + after, parts[0])
  {
    NamesParts(before, parts, after);
  }

  /** The running score once the first n rule blocks have run. */
  function ScoreAfter(n: nat, issue: Issue, profile: Profile): nat
    requires n <= |Rules|
  {
    if n == 0 then 0 else ScoreAfter(n - 1, issue, profile) + Points(Rules[n - 1], issue, profile)
  }

  /** The running list of reasons once the first n rule blocks have run. */
  function ReasonsAfter(n: nat, issue: Issue, profile: Profile): seq<string>
    requires n <= |Rules|
  {
    if n == 0 then [] else ReasonsAfter(n - 1, issue, profile) + ReasonPart(Rules[n - 1], issue, profile)
  }

  /** The rules among the given ones that fire, in order. */
  function FiredRules(rules: seq<Rule>, issue: Issue, profile: Profile): seq<Rule> {
    Filter(rules, FiresFor(issue, profile))
  }

  /** The rules that fire, as a filter callback. */
  function FiresFor(issue: Issue, profile: Profile): Rule -> bool {
    r => Fires(r, issue, profile)
  }

  /** The reason of each of the given rules, in order. */
  function ReasonsOf(rules: seq<Rule>, issue: Issue, profile: Profile): (r: seq<string>)
    ensures |r| == |rules|
    ensures forall k :: 0 <= k < |rules| ==> r[k] == Reason(rules[k], issue, profile)
  {
    if rules == [] then [] else [Reason(rules[0], issue, profile)] + ReasonsOf(rules[1..], issue, profile)
  }

  /** What a rule adds to the reasons: at most one reason, present exactly when the rule fires. */
  function ReasonPart(rule: Rule, issue: Issue, profile: Profile): (part: seq<string>)
    ensures |part| <= 1
    ensures part != [] <==> Fires(rule, issue, profile)
    ensures forall k :: 0 <= k < |part| ==> part[k] == Reason(rule, issue, profile)
  {
    if Fires(rule, issue, profile) then [Reason(rule, issue, profile)] else []
  }

  /**
   * The total score of an issue for a profile: the points of the rules,
   * added in source order. It is zero exactly when no rule fires, and at
   * least the points of every single rule (so never negative).
   */
  function TotalScore(issue: Issue, profile: Profile): (total: nat)
    ensures total == 0 <==> FiredRules(Rules, issue, profile) == []
    ensures forall rule :: Points(rule, issue, profile) <= total
  {
    ScoreAfterBounds(|Rules|, issue, profile);
    EveryRuleListed();
    assert Rules[..|Rules|] == Rules;
    ScoreAfter(|Rules|, issue, profile)
  }

  /**
   * The reasons of the rules, pushed in source order: the reasons of the
   * rules that fire, one each, in rule order (so at most six).
   */
  function AllReasons(issue: Issue, profile: Profile): (reasons: seq<string>)
    ensures reasons == ReasonsOf(FiredRules(Rules, issue, profile), issue, profile)
    ensures |reasons| <= |Rules|
  {
    ReasonsAreFiredRules(|Rules|, issue, profile);
    assert Rules[..|Rules|] == Rules;
    ReasonsAfter(|Rules|, issue, profile)
  }

  /** The total written out rule by rule, in source order. */
  lemma TotalInSourceOrder(issue: Issue, profile: Profile)
    ensures TotalScore(issue, profile)
            == Points(LanguageRule, issue, profile) + Points(LabelRule, issue, profile)
               + Points(TopicRule, issue, profile) + Points(TitleRule, issue, profile)
               + Points(BodyRule, issue, profile) + Points(BeginnerRule, issue, profile)
  {
    assert |Rules| == 6;
    assert ScoreAfter(6, issue, profile) == ScoreAfter(5, issue, profile) + Points(BeginnerRule, issue, profile);
    assert ScoreAfter(5, issue, profile) == ScoreAfter(4, issue, profile) + Points(BodyRule, issue, profile);
    assert ScoreAfter(4, issue, profile) == ScoreAfter(3, issue, profile) + Points(TitleRule, issue, profile);
    assert ScoreAfter(3, issue, profile) == ScoreAfter(2, issue, profile) + Points(TopicRule, issue, profile);
    assert ScoreAfter(2, issue, profile) == ScoreAfter(1, issue, profile) + Points(LabelRule, issue, profile);
    assert ScoreAfter(1, issue, profile) == Points(LanguageRule, issue, profile);
  }

  /** The reasons written out rule by rule, in source order. */
  lemma ReasonsInSourceOrder(issue: Issue, profile: Profile)
    ensures AllReasons(issue, profile)
            == ReasonPart(LanguageRule, issue, profile) + ReasonPart(LabelRule, issue, profile)
               + ReasonPart(TopicRule, issue, profile) + ReasonPart(TitleRule, issue, profile)
               + ReasonPart(BodyRule, issue, profile) + ReasonPart(BeginnerRule, issue, profile)
  {
    assert |Rules| == 6;
    assert ReasonsAfter(6, issue, profile) == ReasonsAfter(5, issue, profile) + ReasonPart(BeginnerRule, issue, profile);
    assert ReasonsAfter(5, issue, profile) == ReasonsAfter(4, issue, profile) + ReasonPart(BodyRule, issue, profile);
    assert ReasonsAfter(4, issue, profile) == ReasonsAfter(3, issue, profile) + ReasonPart(TitleRule, issue, profile);
    assert ReasonsAfter(3, issue, profile) == ReasonsAfter(2, issue, profile) + ReasonPart(TopicRule, issue, profile);
    assert ReasonsAfter(2, issue, profile) == ReasonsAfter(1, issue, profile) + ReasonPart(LabelRule, issue, profile);
    assert ReasonsAfter(1, issue, profile) == ReasonPart(LanguageRule, issue, profile);
  }

  /** Every rule is applied. */
  lemma EveryRuleListed()
    ensures forall rule :: rule in Rules
  {
    forall rule ensures rule in Rules {
      var k := match rule
        case LanguageRule => 0 case LabelRule => 1 case TopicRule => 2
        case TitleRule => 3 case BodyRule => 4 case BeginnerRule => 5;
      assert Rules[k] == rule;
    }
  }

  /**
   * The specification of `matchIssueToProfile`: null exactly below the
   * threshold; otherwise the input issue, its total score, and one reason
   * per fired rule, in rule order (so at most six).
   */
  function Match(issue: Issue, profile: Profile): (r: Option<MatchResult>)
    ensures r.None? <==> TotalScore(issue, profile) < Threshold
    ensures r.Some? ==>
              && r.value.issue == issue
              && r.value.score == TotalScore(issue, profile) >= Threshold
              && r.value.reasons == ReasonsOf(FiredRules(Rules, issue, profile), issue, profile)
              && |r.value.reasons| == |FiredRules(Rules, issue, profile)| <= 6
  {
    var score := TotalScore(issue, profile);
    if score < Threshold then None
    else Some(MatchResult(issue, score, AllReasons(issue, profile)))
  }

  // ---------------------------------------------------------------------
  // The scorer, computed step by step as the source does
  // ---------------------------------------------------------------------

  /** `matchIssueToProfile(issue, profile)`: the six rule blocks in turn, then the threshold. */
  method MatchIssueToProfile(issue: Issue, profile: Profile) returns (r: Option<MatchResult>)
    ensures r == Match(issue, profile)
  {
    var reasons: seq<string> := [];
    var score: nat := 0;
    score, reasons := ScoreLanguage(issue, profile, score, reasons);
    var issueLabels := LowerNames(issue.labels);
    score, reasons := ScoreLabels(issue, profile, issueLabels, score, reasons);
    score, reasons := ScoreTopics(issue, profile, score, reasons);
    var interestKeywords := Keywords(profile.interests);
    score, reasons := ScoreTitle(issue, profile, interestKeywords, score, reasons);
    score, reasons := ScoreBody(issue, profile, interestKeywords, score, reasons);
    score, reasons := ScoreBeginner(issue, profile, issueLabels, score, reasons);
    if score < Threshold {
      return None;
    }
    return Some(MatchResult(issue, score, reasons));
  }

  /** The language block: 30 points when the repository language is one of the skills. */
  method ScoreLanguage(issue: Issue, profile: Profile, score: nat, reasons: seq<string>)
    returns (score': nat, reasons': seq<string>)
    ensures score' == score + Points(LanguageRule, issue, profile)
    ensures reasons' == reasons + ReasonPart(LanguageRule, issue, profile)
    ensures score == ScoreAfter(0, issue, profile) && reasons == ReasonsAfter(0, issue, profile) ==>
              score' == ScoreAfter(1, issue, profile) && reasons' == ReasonsAfter(1, issue, profile)
  {
    score', reasons' := score, reasons;
    var language := issue.repository.language;
    if language.Some? && language.value != "" && language.value in profile.skills {
      score' := score' + 30;
      reasons' := reasons' + [LanguageReason(language.value)];
    }
  }

  /** The label block: 20 points per lower-cased label overlapping an interest. */
  method ScoreLabels(issue: Issue, profile: Profile, issueLabels: seq<string>, score: nat, reasons: seq<string>)
    returns (score': nat, reasons': seq<string>)
    requires issueLabels == LowerNames(issue.labels)
    ensures score' == score + Points(LabelRule, issue, profile)
    ensures reasons' == reasons + ReasonPart(LabelRule, issue, profile)
    ensures score == ScoreAfter(1, issue, profile) && reasons == ReasonsAfter(1, issue, profile) ==>
              score' == ScoreAfter(2, issue, profile) && reasons' == ReasonsAfter(2, issue, profile)
  {
    score', reasons' := score, reasons;
    var matchedLabels := OverlappingItems(issueLabels, profile.interests);
    if |matchedLabels| > 0 {
      score' := score' + |matchedLabels| * 20;
      reasons' := reasons' + [LabelsReason(matchedLabels)];
    }
  }

  /** The topic block: 15 points per repository topic overlapping an interest, if there are topics. */
  method ScoreTopics(issue: Issue, profile: Profile, score: nat, reasons: seq<string>)
    returns (score': nat, reasons': seq<string>)
    ensures score' == score + Points(TopicRule, issue, profile)
    ensures reasons' == reasons + ReasonPart(TopicRule, issue, profile)
    ensures score == ScoreAfter(2, issue, profile) && reasons == ReasonsAfter(2, issue, profile) ==>
              score' == ScoreAfter(3, issue, profile) && reasons' == ReasonsAfter(3, issue, profile)
  {
    score', reasons' := score, reasons;
    if issue.repository.topics.Some? {
      var matchedTopics := OverlappingItems(issue.repository.topics.value, profile.interests);
      if |matchedTopics| > 0 {
        score' := score' + |matchedTopics| * 15;
        reasons' := reasons' + [TopicsReason(matchedTopics)];
      }
    }
  }

  /** The title block: 10 points per interest keyword occurring in the lower-cased title. */
  method ScoreTitle(issue: Issue, profile: Profile, interestKeywords: seq<string>, score: nat, reasons: seq<string>)
    returns (score': nat, reasons': seq<string>)
    requires interestKeywords == Keywords(profile.interests)
    ensures score' == score + Points(TitleRule, issue, profile)
    ensures reasons' == reasons + ReasonPart(TitleRule, issue, profile)
    ensures score == ScoreAfter(3, issue, profile) && reasons == ReasonsAfter(3, issue, profile) ==>
              score' == ScoreAfter(4, issue, profile) && reasons' == ReasonsAfter(4, issue, profile)
  {
    score', reasons' := score, reasons;
    var titleMatches := KeywordsIn(interestKeywords, Lower(issue.title));
    if |titleMatches| > 0 {
      score' := score' + |titleMatches| * 10;
      reasons' := reasons' + [TitleReason];
    }
  }

  /** The body block: 5 points per interest keyword occurring in the lower-cased body, if it is truthy. */
  method ScoreBody(issue: Issue, profile: Profile, interestKeywords: seq<string>, score: nat, reasons: seq<string>)
    returns (score': nat, reasons': seq<string>)
    requires interestKeywords == Keywords(profile.interests)
    ensures score' == score + Points(BodyRule, issue, profile)
    ensures reasons' == reasons + ReasonPart(BodyRule, issue, profile)
    ensures score == ScoreAfter(4, issue, profile) && reasons == ReasonsAfter(4, issue, profile) ==>
              score' == ScoreAfter(5, issue, profile) && reasons' == ReasonsAfter(5, issue, profile)
  {
    score', reasons' := score, reasons;
    if issue.body.Some? && issue.body.value != "" {
      var bodyMatches := KeywordsIn(interestKeywords, Lower(issue.body.value));
      if |bodyMatches| > 0 {
        score' := score' + |bodyMatches| * 5;
        reasons' := reasons' + [BodyReason];
      }
    }
  }

  /** The experience block: 40 points for a beginner when a label reads "good first issue". */
  method ScoreBeginner(issue: Issue, profile: Profile, issueLabels: seq<string>, score: nat, reasons: seq<string>)
    returns (score': nat, reasons': seq<string>)
    requires issueLabels == LowerNames(issue.labels)
    ensures score' == score + Points(BeginnerRule, issue, profile)
    ensures reasons' == reasons + ReasonPart(BeginnerRule, issue, profile)
    ensures score == ScoreAfter(5, issue, profile) && reasons == ReasonsAfter(5, issue, profile) ==>
              score' == ScoreAfter(6, issue, profile) && reasons' == ReasonsAfter(6, issue, profile)
  {
    score', reasons' := score, reasons;
    if profile.experienceLevel == Beginner {
      if "good first issue" in issueLabels || "good-first-issue" in issueLabels {
        score' := score' + 40;
        reasons' := reasons' + [BeginnerReason];
      }
    }
  }

  // ---------------------------------------------------------------------
  // Properties of the scorer
  // ---------------------------------------------------------------------

  /** The reasons are the reasons of the rules that fired, each once, in rule order. */
  lemma {:induction false} ReasonsAreFiredRules(n: nat, issue: Issue, profile: Profile)
    requires n <= |Rules|
    ensures ReasonsAfter(n, issue, profile) == ReasonsOf(FiredRules(Rules[..n], issue, profile), issue, profile)
  {
    if n > 0 {
      var before, rule := Rules[..n - 1], Rules[n - 1];
      ReasonsAreFiredRules(n - 1, issue, profile);
      PrefixSnoc(Rules, n);
      FilterAppend(before, [rule], FiresFor(issue, profile));
      ReasonsOfAppend(FiredRules(before, issue, profile), FiredRules([rule], issue, profile), issue, profile);
      ReasonPartFired(rule, issue, profile);
    }
  }

  /** A rule's reason part is the reasons of the rule, kept when it fires. */
  lemma ReasonPartFired(rule: Rule, issue: Issue, profile: Profile)
    ensures ReasonPart(rule, issue, profile) == ReasonsOf(FiredRules([rule], issue, profile), issue, profile)
  {
    assert FiredRules([rule], issue, profile) == if Fires(rule, issue, profile) then [rule] else [];
  }

  /** The reasons of consecutive rule lists concatenate. */
  lemma {:induction false} ReasonsOfAppend(a: seq<Rule>, b: seq<Rule>, issue: Issue, profile: Profile)
    ensures ReasonsOf(a + b, issue, profile) == ReasonsOf(a, issue, profile) + ReasonsOf(b, issue, profile)
  {
    var l, ra, rb := ReasonsOf(a + b, issue, profile), ReasonsOf(a, issue, profile), ReasonsOf(b, issue, profile);
    forall k | 0 <= k < |l| ensures l[k] == (ra + rb)[k] {
      if k >= |a| {
        assert (a + b)[k] == b[k - |a|];
      }
    }
  }

  /** The running score is zero exactly when none of its rules fired, and at least each of their points. */
  lemma {:induction false} ScoreAfterBounds(n: nat, issue: Issue, profile: Profile)
    requires n <= |Rules|
    ensures ScoreAfter(n, issue, profile) == 0 <==> |FiredRules(Rules[..n], issue, profile)| == 0
    ensures forall rule :: rule in Rules[..n] ==> ScoreAfter(n, issue, profile) >= Points(rule, issue, profile)
  {
    if n > 0 {
      ScoreAfterBounds(n - 1, issue, profile);
      PrefixSnoc(Rules, n);
      FilterAppend(Rules[..n - 1], [Rules[n - 1]], FiresFor(issue, profile));
    }
  }

  /** Either flat bonus alone is enough to clear the threshold. */
  lemma FlatBonusClearsThreshold(issue: Issue, profile: Profile)
    requires Fires(LanguageRule, issue, profile) || Fires(BeginnerRule, issue, profile)
    ensures Match(issue, profile).Some?
  {
    assert Points(LanguageRule, issue, profile) <= TotalScore(issue, profile);
    assert Points(BeginnerRule, issue, profile) <= TotalScore(issue, profile);
  }

  /** A single matching topic, with nothing else firing, stays below the threshold. */
  lemma SingleTopicIsExcluded(issue: Issue, profile: Profile)
    requires issue.repository.topics.Some?
    requires |MatchedTopics(issue.repository.topics.value, profile)| == 1
    requires forall rule :: rule != TopicRule ==> !Fires(rule, issue, profile)
    ensures TotalScore(issue, profile) == 15
    ensures Match(issue, profile) == None
  {
    TotalInSourceOrder(issue, profile);
  }

  /** Without interests, only the language and beginner bonuses can fire. */
  lemma NoInterestsOnlyFlatBonuses(issue: Issue, profile: Profile)
    requires profile.interests == []
    ensures Points(LabelRule, issue, profile) == 0
    ensures Points(TopicRule, issue, profile) == 0
    ensures Points(TitleRule, issue, profile) == 0
    ensures Points(BodyRule, issue, profile) == 0
  {
    FilterNonEmpty(LowerNames(issue.labels), OverlapsAny(profile.interests));
    if issue.repository.topics.Some? {
      FilterNonEmpty(issue.repository.topics.value, OverlapsAny(profile.interests));
    }
  }

  /**
   * An empty interest splits into one empty keyword, and the empty string
   * occurs in every text: the title rule fires for every issue, and the
   * body rule for every issue with a body.
   */
  lemma EmptyInterestMatchesEveryText(issue: Issue, profile: Profile)
    requires "" in profile.interests
    ensures Fires(TitleRule, issue, profile)
    ensures HasBody(issue) ==> Fires(BodyRule, issue, profile)
  {
    var kw := Keywords(profile.interests);
    EmptyInterestYieldsEmptyKeyword(profile.interests);
    var k :| 0 <= k < |kw| && kw[k] == "";
    assert OccursAt(Lower(issue.title), "", 0);
    FilterNonEmpty(kw, OccursIn(Lower(issue.title)));
    if HasBody(issue) {
      assert OccursAt(Lower(issue.body.value), "", 0);
      FilterNonEmpty(kw, OccursIn(Lower(issue.body.value)));
    }
  }

  lemma {:induction false} EmptyInterestYieldsEmptyKeyword(interests: seq<string>)
    requires "" in interests
    ensures "" in Keywords(interests)
  {
    if interests[0] == "" {
      assert SplitOnSpace(Lower("")) == [""];
    } else {
      assert interests == [interests[0]] + interests[1..];
      EmptyInterestYieldsEmptyKeyword(interests[1..]);
    }
  }

  /**
   * Duplicate labels are not merged: adding one more label adds 20 points
   * exactly when that label, lower-cased, overlaps some interest.
   */
  lemma LabelsCountedWithRepeats(issue: Issue, profile: Profile, lbl: Label)
    ensures Points(LabelRule, issue.(labels := issue.labels + [lbl]), profile)
            == Points(LabelRule, issue, profile)
               + (if OverlapsSomeInterest(Lower(lbl.name), profile.interests) then 20 else 0)
  {
    var more := issue.(labels := issue.labels + [lbl]);
    var name, p := Lower(lbl.name), OverlapsAny(profile.interests);
    LowerNamesAppend(issue.labels, [lbl]);
    assert LowerNames([lbl]) == [name] by {
      assert [lbl][1..] == [];
    }
    assert Filter([name], p) == if p(name) then [name] else [] by {
      assert [name][1..] == [];
    }
    FilterAppend(LowerNames(issue.labels), [name], p);
    assert MatchedLabels(more, profile) == MatchedLabels(issue, profile) + Filter([name], p);
  }

  /**
   * Keywords are not merged either: one more interest adds 10 points for
   * each of its keywords found in the title, even one already counted for
   * another interest.
   */
  lemma TitleCountsEveryKeyword(issue: Issue, profile: Profile, interest: string)
    ensures Points(TitleRule, issue, profile.(interests := profile.interests + [interest]))
            == Points(TitleRule, issue, profile)
               + |KeywordsIn(SplitOnSpace(Lower(interest)), Lower(issue.title))| * 10
  {
    var more := profile.(interests := profile.interests + [interest]);
    KeywordsAppend(profile.interests, [interest]);
    assert Keywords([interest]) == SplitOnSpace(Lower(interest)) by {
      assert [interest][1..] == [];
    }
    FilterAppend(Keywords(profile.interests), SplitOnSpace(Lower(interest)), OccursIn(Lower(issue.title)));
  }

  /** Without topics the topic rule adds nothing; without a truthy body the body rule adds nothing. */
  lemma AbsentFieldsSkipRules(issue: Issue, profile: Profile)
    ensures issue.repository.topics.None? ==>
              Points(TopicRule, issue, profile) == 0 && ReasonPart(TopicRule, issue, profile) == []
    ensures !HasBody(issue) ==>
              Points(BodyRule, issue, profile) == 0 && ReasonPart(BodyRule, issue, profile) == []
  {
  }
}
