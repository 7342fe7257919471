# TapBuddy issue matcher — a verified Dafny model

TapBuddy matches open-source "good first issues" to developer profiles. This
project models its decision core and proves properties about it.

- **The scorer.** `IssueMatcher.matchIssueToProfile` rates one GitHub issue
  against one profile with six independent bonuses:
  - the repository language is one of the skills (+30);
  - each lower-cased label that overlaps an interest (+20 per label);
  - each repository topic that overlaps an interest (+15 per topic);
  - each interest keyword found in the lower-cased title (+10 per keyword);
  - each interest keyword found in the lower-cased body (+5 per keyword);
  - a beginner profile and a "good first issue" label (+40).

  Each bonus that fires adds one reason. A total below 30 means "no match"
  (`null`).
- **The ranker.** `IssueMatcher.findMatchesForProfile` scores every
  candidate issue and drops the non-matches. It sorts the rest by score, best
  first (the JavaScript sort is stable, so ties keep input order), and keeps
  the first `limit` (default 5).
- **The profile table.** `ProfileDatabase` is an in-memory `Map` from email
  to profile. It supports upsert, lookup, enumeration in key insertion order,
  delete with a found flag, and bulk insertion of three sample profiles.

Layout:

- `wrappers.dfy`: `Option`.
- `text.dfy`: ASCII `toLowerCase`, `includes`, `split(" ")`, `join`, and
  their laws.
- `seqs.dfy`: `filter` and its laws.
- `github_issues.dfy`: the issue record shape.
- `profiles.dfy`: the profile record and `ProfileDatabase` as a class.
- `matcher.dfy`: the six rules as specification functions (`Points`, `Fires`,
  `Reason`, `Match`), and the imperative scorer `MatchIssueToProfile` proved
  equal to `Match`. The total and the reasons are defined once, as running
  folds over the rules in source order (`ScoreAfter`, `ReasonsAfter`). The
  scorer keeps a score accumulator and a reasons list grown block by block;
  each rule block of the source is one small method that advances the folds
  by one rule.
- `ranking.dfy`: the ranker as a map / filter / stable sort / slice pipeline.
- `scenarios.dfy`: worked cases (language-only match, decisive beginner
  bonus, combined score of 65, and the case rules of labels versus topics).

In these details the model follows the code exactly:

- **Language rule.** The language rule needs the language to be non-null
  *and non-empty*, because the source tests JavaScript truthiness.
- **Keyword split.** Keywords come from splitting on a single space `" "`,
  not on any whitespace. Two adjacent spaces, or a leading or trailing space,
  produce an empty keyword. The empty keyword occurs in every title and body
  (`Matcher.EmptyInterestMatchesEveryText`).
- **Empty interests.** An empty interests list yields no keywords. But an
  *empty interest string* yields one empty keyword, because `"".split(" ")`
  is `[""]`.

## Model

| member | source | states |
|---|---|---|
| `Text.Lower` | src/lib/matcher.ts:23 | `Lower` (ASCII `toLowerCase`) preserves the length of the string |
| `Text.LowerAt` | src/lib/matcher.ts:23 | lower-casing works character by character: an upper-case ASCII letter becomes its lower-case letter (code point + 32) and every other character is kept |
| `Text.LowerIsLowerCase` | src/lib/matcher.ts:26 | a lower-cased string holds no upper-case letter, and lower-casing is idempotent |
| `Text.LowerKeepsLowerCase` | src/lib/matcher.ts:26 | a string without upper-case letters is unchanged by lower-casing |
| `Text.Contains` | src/lib/matcher.ts:26 | `includes`: a needle that starts the text is found, so the empty needle is found in every string; a found needle is never longer than the text |
| `Text.ContainsWitness` | src/lib/matcher.ts:26 | a text that includes the needle has it at some position |
| `Text.OccursContains` | src/lib/matcher.ts:26 | a needle at any position is included |
| `Text.ContainsWithin` | src/lib/matcher.ts:32 | whatever a part of a text includes, the whole text includes |
| `Text.ContainsOccurs` | src/lib/matcher.ts:26 | `includes(needle)` holds exactly when the needle occurs at some position of the text (both directions) |
| `Text.JoinContainsParts` | src/lib/matcher.ts:32 | a joined list includes each of its parts |
| `Text.SplitOnSpace` | src/lib/matcher.ts:50 | `split(" ")` always yields at least one piece |
| `Text.SplitOnSpaceJoin` | src/lib/matcher.ts:50 | the pieces hold no space, and joining them with single spaces gives the string back |
| `Text.SplitJoin` | src/lib/matcher.ts:50 | splitting a space-joined list of space-free pieces returns those pieces (the other half of the round trip) |
| `Text.SplitSpaceFree` | src/lib/matcher.ts:50 | a space-free interest is a single keyword |
| `Text.SplitPrefix` | src/lib/matcher.ts:50 | a space-free word followed by a space is the first piece of the split |
| `Text.SplitPiecesLowerCase` | src/lib/matcher.ts:50 | the pieces of a lower-cased interest are lower-case |
| `Seqs.Filter` | src/lib/matcher.ts:24-28 | `filter` never lengthens its input |
| `Seqs.FilterElements` | src/lib/matcher.ts:24-28 | every kept element satisfies the callback and comes from the input |
| `Seqs.FilterMultiset` | src/lib/matcher.ts:37-41 | each element satisfying the callback is kept as often as it occurs (duplicates counted); the others are dropped |
| `Seqs.FilterAppend` | src/lib/matcher.ts:51-53 | filtering distributes over concatenation |
| `Seqs.FilterNonEmpty` | src/lib/matcher.ts:30 | a filter result is non-empty exactly when some element satisfies the callback |
| `Seqs.DistinctCardinality` | src/lib/db.ts:50-52 | a list without repetitions has as many distinct elements as positions |
| `Seqs.FilterKeepsDistinct` | src/lib/db.ts:60 | removing entries from a repetition-free key list keeps it repetition-free |
| `Seqs.DistinctTail` | src/lib/db.ts:16 | the tail of a repetition-free key list is repetition-free |
| `Seqs.DistinctCons` | src/lib/db.ts:16 | prefixing a new key keeps a key list repetition-free |
| `Profiles.Emails` | src/lib/db.ts:90 | the emails of a list of profiles, position by position |
| `Profiles.SaveAll` | src/lib/db.ts:90 | the table after `set(p.email, p)` for each profile in turn: no key is lost and the last profile saved sits under its email |
| `Profiles.OrderAfter` | src/lib/db.ts:55 | `Map` insertion order after those saves: the old order is kept as a prefix, and the keys are the old ones plus the saved emails |
| `Profiles.SaveAllStores` | src/lib/db.ts:90 | saving profiles with pairwise different emails stores each one under its email |
| `Profiles.SaveAllKeepsOthers` | src/lib/db.ts:90 | saving profiles leaves every key none of them uses exactly as it was (present or absent, same value) |
| `Profiles.SampleEmailsDistinct` | src/lib/db.ts:69-88 | the three sample emails are dev1@, dev2@ and dev3@example.com, pairwise different |
| `Profiles.SamplesSaved` | src/lib/db.ts:68-91 | after saving the samples each sample sits under its email and every other key is untouched |
| `Profiles.ValuesInOrder` | src/lib/db.ts:51 | the values read off along a key list, one per key, in order |
| `Profiles.OrderCoversTable` | src/lib/db.ts:50-52 | listing along the repetition-free key order yields as many values as keys, and every stored value |
| `Profiles.ProfileDatabase.constructor` | src/lib/db.ts:16-21 | a new table is empty and well formed (loading from storage not modelled) |
| `Profiles.ProfileDatabase.GetProfile` | src/lib/db.ts:46-48 | `get(email)` is present exactly when email is a key; it is the stored profile, whose email is that key |
| `Profiles.ProfileDatabase.GetAllProfiles` | src/lib/db.ts:50-52 | `Array.from(values())`: one value per key (length = map size), in key insertion order, every stored profile included |
| `Profiles.ProfileDatabase.SaveProfile` | src/lib/db.ts:54-57 | upsert: the profile is stored under its email, a new key goes last in the order, the size grows only for a new email, every other entry is unchanged, and the table stays well formed |
| `Profiles.ProfileDatabase.DeleteProfile` | src/lib/db.ts:59-65 | returns true exactly when the email was a key; afterwards it is absent, the size drops by one only then, the order loses just that key, other entries are unchanged |
| `Profiles.ProfileDatabase.SaveEach` | src/lib/db.ts:90 | `forEach(saveProfile)`: the table after saving each profile in turn, its key order, and well-formedness |
| `Profiles.ProfileDatabase.AddSampleProfiles` | src/lib/db.ts:68-91 | every sample is then found under its email with its skills, interests and level; every other key reads as before |
| `Matcher.LowerNames` | src/lib/matcher.ts:23 | one name per label, the k-th being the k-th label's name lower-cased |
| `Matcher.LowerNamesAppend` | src/lib/matcher.ts:23 | lower-casing label names distributes over concatenation |
| `Matcher.Overlaps` | src/lib/matcher.ts:26 | the `some` callback: a label or topic overlaps an interest when either includes the other (interest lower-cased); an empty interest or an empty text always overlaps, and so does a text equal to the lower-cased interest |
| `Matcher.OverlapsSomeInterest` | src/lib/matcher.ts:25-26 | `interests.some(...)`: never true without interests, always true when some interest is empty |
| `Matcher.Keywords` | src/lib/matcher.ts:50 | `flatMap` of lower-cased split interests: every interest yields at least one keyword |
| `Matcher.KeywordsShape` | src/lib/matcher.ts:50 | keywords hold no space and no upper-case letter |
| `Matcher.KeywordsAppend` | src/lib/matcher.ts:50 | `flatMap` keywords of a list are those of each interest in turn |
| `Matcher.KeywordsFound` | src/lib/matcher.ts:51-55 | the filtered keyword list is non-empty exactly when some keyword occurs in the text |
| `Matcher.TextMatches` | src/lib/matcher.ts:61-66 | a lower-cased text has keyword matches exactly when some keyword occurs in it |
| `Matcher.FiresWhen` | src/lib/matcher.ts:24-66 | the `length > 0` guards of `Fires`: the label rule fires exactly when some lower-cased label overlaps an interest, the topic rule when topics exist and one overlaps, the title and body rules when some keyword occurs in the lower-cased title or truthy body |
| `Matcher.Points` | src/lib/matcher.ts:17-79 | a rule adds points exactly when it fires; language adds 0 or 30, beginner 0 or 40 and nothing for a non-beginner |
| `Matcher.PointsPerMatch` | src/lib/matcher.ts:31-67 | label, topic, title and body points are multiples of 20, 15, 10 and 5 |
| `Matcher.Reason` | src/lib/matcher.ts:19-77 | the language reason names the language; the label and topic reasons name every matched label and topic |
| `Matcher.NamesParts` | src/lib/matcher.ts:32-45 | a reason built around the joined list names each listed item |
| `Matcher.NamesPart` | src/lib/matcher.ts:19 | a reason built around one item names it |
| `Matcher.ReasonPart` | src/lib/matcher.ts:19-77 | a rule pushes at most one reason, exactly when it fires, and that reason is the rule's |
| `Matcher.TotalScore` | src/lib/matcher.ts:14-79 | the score is zero exactly when no rule fires and at least each rule's points (never negative) |
| `Matcher.AllReasons` | src/lib/matcher.ts:13-77 | the reasons are those of the fired rules, one each, in rule order, so at most six |
| `Matcher.TotalInSourceOrder` | src/lib/matcher.ts:14-79 | the total is the language, label, topic, title, body and beginner points added in that order |
| `Matcher.ReasonsInSourceOrder` | src/lib/matcher.ts:13-77 | the reasons are pushed language, label, topic, title, body, beginner, in that order |
| `Matcher.EveryRuleListed` | src/lib/matcher.ts:16-79 | every rule block is applied |
| `Matcher.Match` | src/lib/matcher.ts:82-90 | null exactly when the total is below 30; a result carries the input issue, the total (at least 30), and one reason per fired rule in rule order (at most six) |
| `Matcher.ReasonsOf` | src/lib/matcher.ts:19-77 | the reason of each given rule, position by position |
| `Matcher.MatchIssueToProfile` | src/lib/matcher.ts:12-91 | the step-by-step scorer returns exactly the specification `Match`: null below 30, otherwise the issue, the six-rule total and the fired rules' reasons |
| `Matcher.ScoreLanguage` | src/lib/matcher.ts:17-20 | the language block adds exactly the language rule's points and reason; applied after the blocks before it, it advances the running score and reasons by one rule |
| `Matcher.ScoreLabels` | src/lib/matcher.ts:23-33 | the label block adds 20 per overlapping lower-cased label and one reason when any; applied after the blocks before it, it advances the running score and reasons by one rule |
| `Matcher.ScoreTopics` | src/lib/matcher.ts:36-47 | the topic block adds 15 per overlapping topic and one reason when any, nothing without topics; applied after the blocks before it, it advances the running score and reasons by one rule |
| `Matcher.ScoreTitle` | src/lib/matcher.ts:50-58 | the title block adds 10 per keyword found in the lower-cased title and one reason when any; applied after the blocks before it, it advances the running score and reasons by one rule |
| `Matcher.ScoreBody` | src/lib/matcher.ts:61-70 | the body block adds 5 per keyword found in a truthy lower-cased body and one reason when any; applied after the blocks before it, it advances the running score and reasons by one rule |
| `Matcher.ScoreBeginner` | src/lib/matcher.ts:73-79 | the experience block adds 40 and one reason for a beginner with a "good first issue" label; applied after the blocks before it, it advances the running score and reasons by one rule |
| `Matcher.ReasonsAreFiredRules` | src/lib/matcher.ts:19-77 | the reasons are exactly the reasons of the rules that fired, one each, in rule order |
| `Matcher.ReasonsOfAppend` | src/lib/matcher.ts:19-77 | reasons of consecutive rule lists concatenate |
| `Matcher.ReasonPartFired` | src/lib/matcher.ts:19-77 | a rule's reason part is the reason of the rule kept exactly when it fires |
| `Matcher.ScoreAfterBounds` | src/lib/matcher.ts:14-79 | a running score is zero exactly when none of its rules fired, and at least each of their points |
| `Matcher.FlatBonusClearsThreshold` | src/lib/matcher.ts:17-20 | the language bonus alone, or the beginner bonus alone, clears the threshold |
| `Matcher.SingleTopicIsExcluded` | src/lib/matcher.ts:36-47 | a single matching topic with nothing else firing scores 15 and is dropped |
| `Matcher.NoInterestsOnlyFlatBonuses` | src/lib/matcher.ts:23-70 | without interests the label, topic, title and body rules add nothing |
| `Matcher.EmptyInterestMatchesEveryText` | src/lib/matcher.ts:50-70 | an empty interest makes the title rule fire for every issue and the body rule for every issue with a body |
| `Matcher.EmptyInterestYieldsEmptyKeyword` | src/lib/matcher.ts:50 | an empty interest contributes the empty keyword |
| `Matcher.LabelsCountedWithRepeats` | src/lib/matcher.ts:24-31 | duplicate labels are not merged: one more label adds 20 exactly when it overlaps an interest |
| `Matcher.TitleCountsEveryKeyword` | src/lib/matcher.ts:50-56 | one more interest adds 10 for each of its keywords found in the title, even one already counted |
| `Matcher.AbsentFieldsSkipRules` | src/lib/matcher.ts:36-70 | no topics means no topic points or reason; a null or empty body means no body points or reason |
| `Ranking.Results` | src/lib/matcher.ts:95 | `map`: one scoring result per issue, the k-th being the result of scoring the k-th issue |
| `Ranking.Present` | src/lib/matcher.ts:96 | `filter(non-null)` never lengthens its input |
| `Ranking.Qualifying` | src/lib/matcher.ts:95-96 | map then filter: no more results than issues, none for no issues |
| `Ranking.QualifyingCons` | src/lib/matcher.ts:95-96 | the first issue contributes its result exactly when it reaches 30 |
| `Ranking.QualifyingIssues` | src/lib/matcher.ts:95-96 | the surviving results belong to exactly the issues that reach 30, one each, in input order |
| `Ranking.QualifyingAreMatches` | src/lib/matcher.ts:95-96 | each surviving result is what scoring its own issue returns |
| `Ranking.QualifyingCount` | src/lib/matcher.ts:95-96 | as many results as qualifying issues, each the non-null result of some input issue, each scoring at least 30 |
| `Ranking.InsertByScore` | src/lib/matcher.ts:97 | insertion adds exactly one element |
| `Ranking.SortByScore` | src/lib/matcher.ts:97 | the sort keeps the length |
| `Ranking.InsertMultiset` | src/lib/matcher.ts:97 | insertion adds the element and nothing else |
| `Ranking.InsertSorted` | src/lib/matcher.ts:97 | insertion into a sorted list keeps it sorted |
| `Ranking.InsertBounded` | src/lib/matcher.ts:97 | insertion keeps a common upper bound on scores |
| `Ranking.SortMultiset` | src/lib/matcher.ts:97 | the sort is a permutation of its input |
| `Ranking.SortSorted` | src/lib/matcher.ts:97 | the sort's output has non-increasing scores |
| `Ranking.InsertStable` | src/lib/matcher.ts:97 | insertion places the element after all higher scores and before all others |
| `Ranking.SortStable` | src/lib/matcher.ts:97 | stability: results of equal score keep their input order |
| `Ranking.StableSortIsUnique` | src/lib/matcher.ts:97 | any stable descending sort returns exactly this sort's output, so the choice of sorting algorithm does not matter |
| `Ranking.SameTiesSameOrder` | src/lib/matcher.ts:97 | two sorted lists with the same results per score are equal |
| `Ranking.NonEmptyAlike` | src/lib/matcher.ts:97 | lists with the same results per score are empty together |
| `Ranking.LeadingScore` | src/lib/matcher.ts:97 | a sorted list holding a result of some score starts at least that high |
| `Ranking.FindMatchesForProfile` | src/lib/matcher.ts:93-101 | `findMatchesForProfile`: no more results than issues, and no more than a non-negative limit; no issues or a zero limit give nothing |
| `Ranking.FindMatchesCount` | src/lib/matcher.ts:93-101 | `slice(0, limit)` on the qualifying results: for a limit of at least 0 the output holds min(limit, number of qualifying issues) results, each the non-null result of scoring some input issue |
| `Ranking.FindMatchesFromBack` | src/lib/matcher.ts:98 | `slice(0, limit)` with a negative limit counts from the back: the output holds all but the last -limit qualifying results, and none when there are no more than that |
| `Ranking.DefaultLimitBound` | src/lib/matcher.ts:93 | a call with the default limit returns at most five results |
| `Ranking.FindMatchesSorted` | src/lib/matcher.ts:97-98 | the output has non-increasing scores and is drawn from the qualifying results |
| `Ranking.SortedPrefix` | src/lib/matcher.ts:98 | a prefix of a sorted list is sorted and drawn from it |
| `Ranking.FindMatchesDropsNoBetter` | src/lib/matcher.ts:97-98 | every qualifying result left out scores no more than any result kept |
| `Ranking.BelowPrefix` | src/lib/matcher.ts:98 | in a sorted list whatever lies beyond a prefix scores no more than the prefix |
| `Ranking.FindMatchesKeepsTies` | src/lib/matcher.ts:97-98 | the output's results of any one score are a prefix of the qualifying results of that score, in input order |
| `Scenarios.LanguageOnlyMatch` | src/lib/matcher.ts:17-20 | skills ["Go"], no interests, advanced, repository language Go: score 30 with the language reason alone |
| `Scenarios.BeginnerBonusDecides` | src/lib/matcher.ts:73-79 | a beginner whom nothing else matches scores 40 with the one beginner reason on a "good first issue" |
| `Scenarios.OnlyOneRule` | src/lib/matcher.ts:82-90 | a lone flat bonus gives its points and its reason alone |
| `Scenarios.CombinedScore` | src/lib/matcher.ts:17-47 | a known language, one matching label and one matching topic score 30 + 20 + 15 = 65 with three reasons in rule order |
| `Scenarios.CombinedRules` | src/lib/matcher.ts:17-79 | in that case the rules give 30, 20, 15, 0, 0 and 0 points, with the language, label and topic reasons |
| `Scenarios.LabelsButNotTopicsAreLowerCased` | src/lib/matcher.ts:23-39 | the label "Web" matches the interest "web", the topic "Web" does not, and the topic "web" matches the interest "Web" |

## Left out

- Loading and saving the table in browser storage (`loadFromStorage`, `saveToStorage`, src/lib/db.ts:23-44). These are modelled as doing nothing, so a new table starts empty.
- Schema validation (`z.string().email()`, `.url()`) is a library's behaviour. Records are taken as already valid. Experience levels are a three-value datatype, so no other level can be stored.
- Fetching issues from GitHub or falling back to the mock list (src/lib/github-api.ts). Only the issue record shape is modelled. `github-api.ts` is not part of this model beyond that shape.
- The e-mail notification service and every React component are user interface or I/O, so they are left out.
- Text.Lower: covers ASCII letters only. JavaScript's `toLowerCase` also maps non-ASCII upper-case letters, which the model keeps unchanged.
- Ranking.FindMatchesForProfile: `limit` is modelled as an integer. A fractional JavaScript number is truncated by `slice`, which the model does not capture. The default of 5 is the constant `Ranking.DefaultLimit`, which a caller passes for a call that leaves the limit out; `Ranking.DefaultLimitBound` bounds such a call to five results.
- Ranking.SortByScore: the sort is an insertion sort. ES2019 requires `Array.prototype.sort` to be stable, and `Ranking.StableSortIsUnique` proves that any stable descending sort gives the same output.
- Matcher.MatchIssueToProfile: each rule block of the source is its own method (`ScoreLanguage` … `ScoreBeginner`) that threads the score and the reasons list through, instead of one body mutating shared locals. The order of the blocks and the computations inside each block are the source's.
- Issue identifiers, URLs and timestamps are carried as plain values. Nothing in the core inspects them.
