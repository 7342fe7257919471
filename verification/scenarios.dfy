/**
 * Worked cases of the matcher's behaviour: a language-only match, a
 * decisive beginner bonus, a combined score of 65, and the case rules of
 * the label and topic rules.
 */
module Scenarios {
  import opened Wrappers
  import opened Text
  import opened GithubIssues
  import opened Profiles
  import opened Matcher

  /**
   * A profile without interests whose only skill is the repository's
   * language matches every such issue with 30 points and the language
   * reason alone, whatever its labels, topics, title and body.
   */
  lemma LanguageOnlyMatch(issue: Issue, profile: Profile)
    requires profile.skills == ["Go"] && profile.interests == [] && profile.experienceLevel == Advanced
    requires issue.repository.language == Some("Go")
    ensures Match(issue, profile) == Some(MatchResult(issue, 30, [LanguageReason("Go")]))
  {
    NoInterestsOnlyFlatBonuses(issue, profile);
    assert Points(BeginnerRule, issue, profile) == 0;
    assert LanguageMatches(issue, profile);
    OnlyOneRule(issue, profile, LanguageRule);
  }

  /**
   * A beginner whose skills and interests miss the issue entirely still
   * matches a "good first issue" with 40 points and that one reason.
   */
  lemma BeginnerBonusDecides(issue: Issue, profile: Profile)
    requires profile.experienceLevel == Beginner
    requires exists k :: 0 <= k < |issue.labels| && Lower(issue.labels[k].name) == "good first issue"
    requires forall rule :: rule != BeginnerRule ==> !Fires(rule, issue, profile)
    ensures Match(issue, profile) == Some(MatchResult(issue, 40, [BeginnerReason]))
  {
    var k :| 0 <= k < |issue.labels| && Lower(issue.labels[k].name) == "good first issue";
    assert LowerNames(issue.labels)[k] == "good first issue";
    assert IsLabeledGoodFirstIssue(issue);
    OnlyOneRule(issue, profile, BeginnerRule);
  }

  /**
   * When a single flat-bonus rule fires, the result is that rule's points
   * and its reason alone.
   */
  lemma OnlyOneRule(issue: Issue, profile: Profile, rule: Rule)
    requires rule == LanguageRule || rule == BeginnerRule
    requires Fires(rule, issue, profile)
    requires forall other :: other != rule ==> !Fires(other, issue, profile)
    ensures Match(issue, profile)
            == Some(MatchResult(issue, if rule == LanguageRule then 30 else 40, [Reason(rule, issue, profile)]))
  {
    TotalInSourceOrder(issue, profile);
    ReasonsInSourceOrder(issue, profile);
    assert !Fires(LabelRule, issue, profile) && !Fires(TopicRule, issue, profile);
    assert !Fires(TitleRule, issue, profile) && !Fires(BodyRule, issue, profile);
    assert ReasonPart(rule, issue, profile) == [Reason(rule, issue, profile)];
    if rule == LanguageRule {
      assert !Fires(BeginnerRule, issue, profile);
    } else {
      assert !Fires(LanguageRule, issue, profile);
    }
    assert AllReasons(issue, profile) == [Reason(rule, issue, profile)];
    assert TotalScore(issue, profile) == if rule == LanguageRule then 30 else 40;
  }

  /**
   * Combined scoring: a known language (30), one label (20) and one topic
   * (15) that both read as the profile's one interest add up to 65, with
   * three reasons in rule order (for instance language "JavaScript" and
   * interest "documentation").
   */
  lemma CombinedScore(issue: Issue, profile: Profile, language: string, word: string)
    requires language != "" && profile.skills == [language] && issue.repository.language == Some(language)
    requires word != "" && IsLowerCase(word) && ' ' !in word
    requires profile.interests == [word] && profile.experienceLevel != Beginner
    requires issue.labels == [Label(word)] && issue.repository.topics == Some([word])
    requires !Contains(Lower(issue.title), word) && issue.body == None
    ensures TotalScore(issue, profile) == 65
    ensures Match(issue, profile)
            == Some(MatchResult(issue, 65, [LanguageReason(language), LabelsReason([word]), TopicsReason([word])]))
  {
    CombinedRules(issue, profile, language, word);
    TotalInSourceOrder(issue, profile);
    ReasonsInSourceOrder(issue, profile);
    assert TotalScore(issue, profile) == 65;
    assert AllReasons(issue, profile) == [LanguageReason(language), LabelsReason([word]), TopicsReason([word])];
  }

  /** Rule by rule, the combined case: language, label and topic fire, the others do not. */
  lemma CombinedRules(issue: Issue, profile: Profile, language: string, word: string)
    requires language != "" && profile.skills == [language] && issue.repository.language == Some(language)
    requires word != "" && IsLowerCase(word) && ' ' !in word
    requires profile.interests == [word] && profile.experienceLevel != Beginner
    requires issue.labels == [Label(word)] && issue.repository.topics == Some([word])
    requires !Contains(Lower(issue.title), word) && issue.body == None
    ensures Points(LanguageRule, issue, profile) == 30
    ensures Points(LabelRule, issue, profile) == 20
    ensures Points(TopicRule, issue, profile) == 15
    ensures Points(TitleRule, issue, profile) == 0
    ensures Points(BodyRule, issue, profile) == 0
    ensures Points(BeginnerRule, issue, profile) == 0
    ensures ReasonPart(LanguageRule, issue, profile) == [LanguageReason(language)]
    ensures ReasonPart(LabelRule, issue, profile) == [LabelsReason([word])]
    ensures ReasonPart(TopicRule, issue, profile) == [TopicsReason([word])]
  {
    LowerKeepsLowerCase(word);
    assert Overlaps(word, word) by {
      assert word <= word;
    }
    assert OverlapsSomeInterest(word, profile.interests) by {
      assert Overlaps(word, profile.interests[0]);
    }
    assert LowerNames(issue.labels) == [word] by {
      assert [Label(word)][1..] == [];
    }
    assert MatchedLabels(issue, profile) == [word] by {
      assert [word][1..] == [];
    }
    assert MatchedTopics(issue.repository.topics.value, profile) == [word] by {
      assert [word][1..] == [];
    }
    assert Keywords(profile.interests) == [word] by {
      SplitSpaceFree(word);
      assert profile.interests[1..] == [];
    }
    assert TitleMatches(issue, profile) == [] by {
      assert [word][1..] == [];
    }
  }

  /**
   * Labels are lower-cased before matching but topics are not: the label
   * "Web" matches the interest "web", the topic "Web" does not, and the
   * topic "web" matches the interest "Web".
   */
  lemma LabelsButNotTopicsAreLowerCased()
    ensures LowerNames([Label("Web")]) == ["web"]
    ensures Overlaps("web", "web")
    ensures !Overlaps("Web", "web")
    ensures Overlaps("web", "Web")
  {
    assert [Label("Web")][1..] == [];
    assert Lower("Web") == "web" by {
      LowerAt("Web");
    }
    LowerKeepsLowerCase("web");
    assert !Contains("Web", "web") by {
      assert "Web"[1..] == "eb" && "eb"[1..] == "b" && "b"[1..] == "";
    }
    assert !Contains("web", "Web") by {
      assert "web"[1..] == "eb" && "eb"[1..] == "b" && "b"[1..] == "";
    }
    assert Overlaps("web", "web");
  }
}
