/**
 * The ranker of the issue matcher (`findMatchesForProfile`,
 * src/lib/matcher.ts): score every issue, drop the ones that do not match,
 * sort the results by score, best first, keeping ties in input order (the
 * JavaScript sort is stable), and keep the first `limit` of them.
 */
module Ranking {
  import opened Wrappers
  import opened Seqs
  import opened GithubIssues
  import opened Profiles
  import opened Matcher

  /** The limit a caller gets by leaving the argument out. */
  const DefaultLimit: int := 5

  /** A call that leaves the limit out returns at most five results. */
  lemma DefaultLimitBound(issues: seq<Issue>, profile: Profile)
    ensures |FindMatchesForProfile(issues, profile, DefaultLimit)| <= 5
  {
  }

  // ---------------------------------------------------------------------
  // map and filter
  // ---------------------------------------------------------------------

  /** `issues.map(issue => matchIssueToProfile(issue, profile))`. */
  function Results(issues: seq<Issue>, profile: Profile): (r: seq<Option<MatchResult>>)
    ensures |r| == |issues|
    ensures forall k :: 0 <= k < |issues| ==> r[k] == Match(issues[k], profile)
  {
    if issues == [] then [] else [Match(issues[0], profile)] + Results(issues[1..], profile)
  }

  /** `.filter(result => result !== null)`: the results that are present, in order. */
  function Present(os: seq<Option<MatchResult>>): (r: seq<MatchResult>)
    ensures |r| <= |os|
  {
    if os == [] then []
    else (if os[0].Some? then [os[0].value] else []) + Present(os[1..])
  }

  /** The results of the issues that match, in input order. */
  function Qualifying(issues: seq<Issue>, profile: Profile): (r: seq<MatchResult>)
    ensures |r| <= |issues|
    ensures issues == [] ==> r == []
  {
    Present(Results(issues, profile))
  }

  /** An issue qualifies when its total reaches the threshold. */
  function QualifiesFor(profile: Profile): Issue -> bool {
    (i: Issue) => TotalScore(i, profile) >= Threshold
  }

  /** The issue of each result, in order. */
  function IssuesOf(ms: seq<MatchResult>): seq<Issue> {
    seq(|ms|, j requires 0 <= j < |ms| => ms[j].issue)
  }

  lemma IssuesOfAppend(a: seq<MatchResult>, b: seq<MatchResult>)
    ensures IssuesOf(a + b) == IssuesOf(a) + IssuesOf(b)
  {
  }

  /** The first issue contributes its result if it qualifies, then come the others' results. */
  lemma QualifyingCons(issues: seq<Issue>, profile: Profile)
    requires issues != []
    ensures Qualifying(issues, profile)
            == (if TotalScore(issues[0], profile) >= Threshold then [Match(issues[0], profile).value] else [])
               + Qualifying(issues[1..], profile)
    ensures TotalScore(issues[0], profile) >= Threshold ==> Match(issues[0], profile).value.issue == issues[0]
  {
    var os := Results(issues, profile);
    assert os[0] == Match(issues[0], profile);
    assert os[1..] == Results(issues[1..], profile);
  }

  /** The issues of the qualifying results are the qualifying issues, in input order. */
  lemma {:induction false} QualifyingIssues(issues: seq<Issue>, profile: Profile)
    ensures IssuesOf(Qualifying(issues, profile)) == Filter(issues, QualifiesFor(profile))
  {
    if issues != [] {
      var tail := issues[1..];
      QualifyingIssues(tail, profile);
      var q, qt := Qualifying(issues, profile), Qualifying(tail, profile);
      var head := if TotalScore(issues[0], profile) >= Threshold then [Match(issues[0], profile).value] else [];
      var first := if QualifiesFor(profile)(issues[0]) then [issues[0]] else [];
      assert q == head + qt && IssuesOf(head) == first by {
        QualifyingCons(issues, profile);
      }
      IssuesOfAppend(head, qt);
      assert Filter(issues, QualifiesFor(profile)) == first + Filter(tail, QualifiesFor(profile));
    }
  }

  /** Each qualifying result is what scoring its own issue returns. */
  lemma {:induction false} QualifyingAreMatches(issues: seq<Issue>, profile: Profile)
    ensures forall j :: 0 <= j < |Qualifying(issues, profile)| ==>
              Match(Qualifying(issues, profile)[j].issue, profile) == Some(Qualifying(issues, profile)[j])
  {
    if issues != [] {
      var tail := issues[1..];
      QualifyingAreMatches(tail, profile);
      QualifyingCons(issues, profile);
      var q, qt := Qualifying(issues, profile), Qualifying(tail, profile);
      if TotalScore(issues[0], profile) >= Threshold {
        var m := Match(issues[0], profile).value;
        assert q == [m] + qt;
        forall j | 0 <= j < |q| ensures Match(q[j].issue, profile) == Some(q[j]) {
          if j > 0 {
            assert q[j] == qt[j - 1];
          }
        }
      } else {
        assert q == qt;
      }
    }
  }

  /** As many results as qualifying issues, each one the result of some input issue. */
  lemma QualifyingCount(issues: seq<Issue>, profile: Profile)
    ensures |Qualifying(issues, profile)| == |Filter(issues, QualifiesFor(profile))|
    ensures forall j :: 0 <= j < |Qualifying(issues, profile)| ==>
              exists k :: 0 <= k < |issues| && Match(issues[k], profile) == Some(Qualifying(issues, profile)[j])
    ensures forall j :: 0 <= j < |Qualifying(issues, profile)| ==> Qualifying(issues, profile)[j].score >= Threshold
  {
    var q := Qualifying(issues, profile);
    QualifyingIssues(issues, profile);
    QualifyingAreMatches(issues, profile);
    assert |IssuesOf(q)| == |q|;
    FilterElements(issues, QualifiesFor(profile));
    forall j | 0 <= j < |q|
      ensures exists k :: 0 <= k < |issues| && Match(issues[k], profile) == Some(q[j])
      ensures q[j].score >= Threshold
    {
      assert IssuesOf(q)[j] == q[j].issue;
      assert q[j].issue in issues;
      var k :| 0 <= k < |issues| && issues[k] == q[j].issue;
      assert Match(issues[k], profile) == Some(q[j]);
    }
  }

  // ---------------------------------------------------------------------
  // sort((a, b) => b.score - a.score), a stable sort
  // ---------------------------------------------------------------------

  /** Scores never increase along ms. */
  predicate SortedByScore(ms: seq<MatchResult>) {
    forall i, j :: 0 <= i < j < |ms| ==> ms[i].score >= ms[j].score
  }

  /** The results with score v, as a filter callback. */
  function ScoreIs(v: nat): MatchResult -> bool {
    (m: MatchResult) => m.score == v
  }

  /** Insert m before the first element whose score does not exceed m's. */
  function InsertByScore(m: MatchResult, t: seq<MatchResult>): (r: seq<MatchResult>)
    ensures |r| == |t| + 1
  {
    if t == [] || t[0].score <= m.score then [m] + t
    else [t[0]] + InsertByScore(m, t[1..])
  }

  /** Insertion sort by score, best first; of two equal scores the earlier one stays first. */
  function SortByScore(ms: seq<MatchResult>): (r: seq<MatchResult>)
    ensures |r| == |ms|
  {
    if ms == [] then [] else InsertByScore(ms[0], SortByScore(ms[1..]))
  }

  /** Insertion adds m and nothing else. */
  lemma {:induction false} InsertMultiset(m: MatchResult, t: seq<MatchResult>)
    ensures multiset(InsertByScore(m, t)) == multiset(t) + multiset{m}
  {
    if t != [] && t[0].score > m.score {
      InsertMultiset(m, t[1..]);
      assert t == [t[0]] + t[1..];
    }
  }

  /** Insertion into a sorted sequence keeps it sorted. */
  lemma {:induction false} InsertSorted(m: MatchResult, t: seq<MatchResult>)
    requires SortedByScore(t)
    ensures SortedByScore(InsertByScore(m, t))
  {
    if t != [] && t[0].score > m.score {
      var rest := InsertByScore(m, t[1..]);
      InsertSorted(m, t[1..]);
      InsertBounded(m, t[1..], t[0].score);
      assert InsertByScore(m, t) == [t[0]] + rest;
    }
  }

  /** Inserting below a bound into a sequence below that bound stays below it. */
  lemma {:induction false} InsertBounded(m: MatchResult, t: seq<MatchResult>, bound: nat)
    requires m.score <= bound
    requires forall i :: 0 <= i < |t| ==> t[i].score <= bound
    ensures forall i :: 0 <= i < |t| + 1 ==> InsertByScore(m, t)[i].score <= bound
  {
    if t != [] && t[0].score > m.score {
      InsertBounded(m, t[1..], bound);
      assert InsertByScore(m, t) == [t[0]] + InsertByScore(m, t[1..]);
    }
  }

  /** The sort is a permutation of its input. */
  lemma {:induction false} SortMultiset(ms: seq<MatchResult>)
    ensures multiset(SortByScore(ms)) == multiset(ms)
  {
    if ms != [] {
      SortMultiset(ms[1..]);
      InsertMultiset(ms[0], SortByScore(ms[1..]));
      assert ms == [ms[0]] + ms[1..];
    }
  }

  /** The sort's output is ordered by score, best first. */
  lemma {:induction false} SortSorted(ms: seq<MatchResult>)
    ensures SortedByScore(SortByScore(ms))
  {
    if ms != [] {
      SortSorted(ms[1..]);
      InsertSorted(ms[0], SortByScore(ms[1..]));
    }
  }

  /** Insertion puts m after every element of a higher score and before all others. */
  lemma {:induction false} InsertStable(m: MatchResult, t: seq<MatchResult>, v: nat)
    ensures Filter(InsertByScore(m, t), ScoreIs(v))
            == (if m.score == v then [m] else []) + Filter(t, ScoreIs(v))
  {
    if t != [] && t[0].score > m.score {
      InsertStable(m, t[1..], v);
      assert (InsertByScore(m, t))[1..] == InsertByScore(m, t[1..]);
    } else {
      assert (InsertByScore(m, t))[1..] == t;
    }
  }

  /** Stability: the results of any one score keep their input order. */
  lemma {:induction false} SortStable(ms: seq<MatchResult>, v: nat)
    ensures Filter(SortByScore(ms), ScoreIs(v)) == Filter(ms, ScoreIs(v))
  {
    if ms != [] {
      SortStable(ms[1..], v);
      InsertStable(ms[0], SortByScore(ms[1..]), v);
    }
  }

  /**
   * The sort's output is the only ordering by score that keeps ties in
   * input order: any stable descending sort of ms, whatever its method,
   * returns exactly SortByScore(ms).
   */
  lemma StableSortIsUnique(ms: seq<MatchResult>, r: seq<MatchResult>)
    requires SortedByScore(r)
    requires forall v: nat :: Filter(r, ScoreIs(v)) == Filter(ms, ScoreIs(v))
    ensures r == SortByScore(ms)
  {
    SortSorted(ms);
    forall v: nat ensures Filter(r, ScoreIs(v)) == Filter(SortByScore(ms), ScoreIs(v)) {
      SortStable(ms, v);
    }
    SameTiesSameOrder(r, SortByScore(ms));
  }

  /** Two sorted sequences that agree on the results of every score are equal. */
  lemma {:induction false} SameTiesSameOrder(a: seq<MatchResult>, b: seq<MatchResult>)
    requires SortedByScore(a) && SortedByScore(b)
    requires forall v: nat :: Filter(a, ScoreIs(v)) == Filter(b, ScoreIs(v))
    ensures a == b
    decreases |a| + |b|
  {
    if a != [] {
      NonEmptyAlike(a, b);
    }
    if b != [] {
      NonEmptyAlike(b, a);
    }
    if a != [] {
      var v := a[0].score;
      LeadingScore(a, b);
      LeadingScore(b, a);
      assert b[0].score == v;
      assert Filter(a, ScoreIs(v)) == [a[0]] + Filter(a[1..], ScoreIs(v));
      assert Filter(b, ScoreIs(v)) == [b[0]] + Filter(b[1..], ScoreIs(v));
      assert a[0] == b[0] by {
        assert Filter(a, ScoreIs(v))[0] == a[0] && Filter(b, ScoreIs(v))[0] == b[0];
      }
      forall w: nat ensures Filter(a[1..], ScoreIs(w)) == Filter(b[1..], ScoreIs(w)) {
        if w == v {
          assert Filter(a[1..], ScoreIs(w)) == Filter(a, ScoreIs(w))[1..];
          assert Filter(b[1..], ScoreIs(w)) == Filter(b, ScoreIs(w))[1..];
        } else {
          assert Filter(a, ScoreIs(w)) == Filter(a[1..], ScoreIs(w));
          assert Filter(b, ScoreIs(w)) == Filter(b[1..], ScoreIs(w));
        }
      }
      assert SortedByScore(a[1..]) && SortedByScore(b[1..]);
      SameTiesSameOrder(a[1..], b[1..]);
      assert a == [a[0]] + a[1..] && b == [b[0]] + b[1..];
    }
  }

  /** Agreeing on every score, a and b are empty together. */
  lemma NonEmptyAlike(a: seq<MatchResult>, b: seq<MatchResult>)
    requires a != []
    requires forall v: nat :: Filter(a, ScoreIs(v)) == Filter(b, ScoreIs(v))
    ensures b != []
  {
    assert Filter(a, ScoreIs(a[0].score)) != [] by {
      assert a == [a[0]] + a[1..];
    }
  }

  /** If b holds a result of a's leading score, b's leading score is at least as high. */
  lemma LeadingScore(a: seq<MatchResult>, b: seq<MatchResult>)
    requires a != [] && b != [] && SortedByScore(b)
    requires Filter(a, ScoreIs(a[0].score)) == Filter(b, ScoreIs(a[0].score))
    ensures b[0].score >= a[0].score
  {
    var v := a[0].score;
    assert Filter(a, ScoreIs(v)) != [] by {
      assert a == [a[0]] + a[1..];
    }
    FilterElements(b, ScoreIs(v));
    var x := Filter(b, ScoreIs(v))[0];
    assert x in b && x.score == v;
  }

  // ---------------------------------------------------------------------
  // slice(0, limit) and the pipeline
  // ---------------------------------------------------------------------

  /**
   * The end index `slice(0, end)` uses on a sequence of length len: a
   * negative end counts from the back, and the result is clamped to 0..len.
   */
  function SliceEnd(len: nat, end: int): (k: nat)
    ensures k <= len
  {
    if end < 0 then (if len + end <= 0 then 0 else len + end)
    else if end <= len then end
    else len
  }

  /** `findMatchesForProfile(issues, profile, limit)`. */
  function FindMatchesForProfile(issues: seq<Issue>, profile: Profile, limit: int): (r: seq<MatchResult>)
    ensures |r| <= |issues|
    ensures 0 <= limit ==> |r| <= limit
    ensures issues == [] || limit == 0 ==> r == []
  {
    var sorted := SortByScore(Qualifying(issues, profile));
    sorted[..SliceEnd(|sorted|, limit)]
  }

  /**
   * The output holds min(limit, number of qualifying issues) results for a
   * non-negative limit, each the result of scoring some input issue and
   * scoring at least the threshold.
   */
  lemma FindMatchesCount(issues: seq<Issue>, profile: Profile, limit: int)
    ensures 0 <= limit ==>
              |FindMatchesForProfile(issues, profile, limit)|
              == if limit <= |Filter(issues, QualifiesFor(profile))| then limit
                 else |Filter(issues, QualifiesFor(profile))|
    ensures |FindMatchesForProfile(issues, profile, limit)| <= |Filter(issues, QualifiesFor(profile))|
    ensures forall j :: 0 <= j < |FindMatchesForProfile(issues, profile, limit)| ==>
              exists k :: 0 <= k < |issues|
                && Match(issues[k], profile) == Some(FindMatchesForProfile(issues, profile, limit)[j])
  {
    var q := Qualifying(issues, profile);
    var sorted := SortByScore(q);
    var r := FindMatchesForProfile(issues, profile, limit);
    QualifyingCount(issues, profile);
    SortMultiset(q);
    forall j | 0 <= j < |r|
      ensures exists k :: 0 <= k < |issues| && Match(issues[k], profile) == Some(r[j])
    {
      assert r[j] == sorted[j];
      assert sorted[j] in multiset(q);
      var i :| 0 <= i < |q| && q[i] == r[j];
    }
  }

  /**
   * A negative limit counts from the back: the output holds all but the
   * last -limit qualifying results, and none when there are no more than that.
   */
  lemma FindMatchesFromBack(issues: seq<Issue>, profile: Profile, limit: int)
    requires limit < 0
    ensures |FindMatchesForProfile(issues, profile, limit)|
            == if |Filter(issues, QualifiesFor(profile))| + limit <= 0 then 0
               else |Filter(issues, QualifiesFor(profile))| + limit
  {
    QualifyingCount(issues, profile);
    SortMultiset(Qualifying(issues, profile));
  }

  /** The output is ordered by score, best first, and is drawn from the qualifying results. */
  lemma FindMatchesSorted(issues: seq<Issue>, profile: Profile, limit: int)
    ensures SortedByScore(FindMatchesForProfile(issues, profile, limit))
    ensures multiset(FindMatchesForProfile(issues, profile, limit)) <= multiset(Qualifying(issues, profile))
  {
    var q := Qualifying(issues, profile);
    var sorted := SortByScore(q);
    SortSorted(q);
    SortMultiset(q);
    SortedPrefix(sorted, SliceEnd(|sorted|, limit));
  }

  /** A prefix of a sorted sequence is sorted and draws on the sequence's elements. */
  lemma SortedPrefix(s: seq<MatchResult>, n: nat)
    requires SortedByScore(s) && n <= |s|
    ensures SortedByScore(s[..n])
    ensures multiset(s[..n]) <= multiset(s)
  {
    assert s == s[..n] + s[n..];
  }

  /** Every qualifying result left out scores no more than any result kept. */
  lemma FindMatchesDropsNoBetter(issues: seq<Issue>, profile: Profile, limit: int, x: MatchResult)
    requires x in multiset(Qualifying(issues, profile)) - multiset(FindMatchesForProfile(issues, profile, limit))
    ensures forall j :: 0 <= j < |FindMatchesForProfile(issues, profile, limit)| ==>
              x.score <= FindMatchesForProfile(issues, profile, limit)[j].score
  {
    var q := Qualifying(issues, profile);
    var sorted := SortByScore(q);
    var r := FindMatchesForProfile(issues, profile, limit);
    SortSorted(q);
    SortMultiset(q);
    assert r == sorted[..|r|];
    BelowPrefix(sorted, |r|, x);
  }

  /** In a sorted sequence, whatever lies beyond a prefix scores no more than the prefix. */
  lemma BelowPrefix(sorted: seq<MatchResult>, n: nat, x: MatchResult)
    requires SortedByScore(sorted) && n <= |sorted|
    requires x in multiset(sorted) - multiset(sorted[..n])
    ensures forall j :: 0 <= j < n ==> x.score <= sorted[j].score
  {
    var dropped := sorted[n..];
    assert sorted == sorted[..n] + dropped;
    assert x in multiset(dropped);
    var i :| 0 <= i < |dropped| && dropped[i] == x;
    assert sorted[n + i] == x;
  }

  /**
   * Ties keep input order: the output's results of any one score are a
   * prefix of the qualifying results of that score, in input order.
   */
  lemma FindMatchesKeepsTies(issues: seq<Issue>, profile: Profile, limit: int, v: nat)
    ensures Filter(FindMatchesForProfile(issues, profile, limit), ScoreIs(v))
            <= Filter(Qualifying(issues, profile), ScoreIs(v))
  {
    var q := Qualifying(issues, profile);
    var sorted := SortByScore(q);
    var r := FindMatchesForProfile(issues, profile, limit);
    SortStable(q, v);
    assert sorted == r + sorted[|r|..];
    FilterAppend(r, sorted[|r|..], ScoreIs(v));
  }
}
