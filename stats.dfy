/** How a finished session is folded into the durable profile (App.tsx,
    handleFinishPractice). The program computes in floating point and rounds with
    Math.round; here every quantity is an exact rational, and each rounding
    Math.round(p / q) is computed in integers as (2p + q) div (2q). */
module Stats {
  import opened Types

  /** Math.round on an exact real: the nearest integer, halves rounded up. */
  function Round(x: real): int {
    (x + 0.5).Floor
  }

  /** Math.round(p / q) for a positive divisor, in integer arithmetic. The
      contract says r is the nearest integer to p / q, ties going up:
      r - 1/2 <= p / q < r + 1/2, scaled by 2q. */
  function RoundDiv(p: int, q: int): (r: int)
    requires q > 0
    ensures 2 * q * r - q <= 2 * p < 2 * q * r + q
  {
    var d := 2 * q;
    var r := (2 * p + q) / d;
    assert 2 * p + q == d * r + (2 * p + q) % d;
    r
  }

  /** The integer rounding agrees with rounding the exact quotient. */
  lemma RoundDivIsRound(p: int, q: int)
    requires q > 0
    ensures RoundDiv(p, q) == Round(p as real / q as real)
  {
    var r := RoundDiv(p, q);
    var x := p as real / q as real;
    var d := 2 * q;
    CastMul(d, r);
    assert (d * r) as real - q as real <= 2.0 * p as real < (d * r) as real + q as real;
    assert p as real == x * q as real;
    assert d as real == 2.0 * q as real;
    RealCancel(r as real, x + 0.5, d as real);
    RealCancelStrict(x + 0.5, r as real + 1.0, d as real);
  }

  lemma CastMul(a: int, b: int)
    ensures (a * b) as real == a as real * b as real
  {}

  lemma RealCancel(a: real, b: real, k: real)
    requires k > 0.0 && a * k <= b * k
    ensures a <= b
  {}

  lemma RealCancelStrict(a: real, b: real, k: real)
    requires k > 0.0 && a * k < b * k
    ensures a < b
  {}

  /** Rounding p / k is at least lo when p / k is. */
  lemma RoundDivAtLeast(p: int, k: int, lo: int)
    requires k > 0 && lo * k <= p
    ensures lo <= RoundDiv(p, k)
  {
    var r := RoundDiv(p, k);
    if r < lo {
      MulMonotone(2 * r + 1, 2 * lo, k);
      assert false;
    }
  }

  /** Rounding p / k is at most hi when p / k is. */
  lemma RoundDivAtMost(p: int, k: int, hi: int)
    requires k > 0 && p <= hi * k
    ensures RoundDiv(p, k) <= hi
  {
    var r := RoundDiv(p, k);
    if r > hi {
      MulStrict(2 * hi, 2 * r - 1, k);
      assert false;
    }
  }

  /** Rounding p / k stays within [lo, hi] when p / k does. */
  lemma RoundDivBetween(p: int, k: int, lo: int, hi: int)
    requires k > 0
    requires lo * k <= p <= hi * k
    ensures lo <= RoundDiv(p, k) <= hi
  {
    RoundDivAtLeast(p, k, lo);
    RoundDivAtMost(p, k, hi);
  }

  lemma MulMonotone(a: int, b: int, k: int)
    requires k > 0 && a <= b
    ensures k * a <= k * b
  {}

  lemma MulStrict(a: int, b: int, k: int)
    requires k > 0 && a < b
    ensures k * a < k * b
  {}

  // ---------------------------------------------------------------------------
  // The category score of the practised category

  /** The score read for a category before the update; a missing entry reads
      as 0 (never attempted). */
  function PriorScore(stats: UserStats, cat: Category): (r: int)
    ensures Total(stats.categoryScores) ==> r == stats.categoryScores[cat]
    ensures cat !in stats.categoryScores ==> r == 0
  {
    if cat in stats.categoryScores then stats.categoryScores[cat] else 0
  }

  /** The new entry of the practised category: the rounded accuracy on a first
      attempt (a prior of 0), otherwise the rounded mean of the prior and the
      unrounded accuracy 100 * score / total. */
  function NewCategoryScore(prior: int, score: int, total: int): (r: int)
    requires total > 0
    // r is the nearest integer to 100 * score / total, ties going up
    ensures prior == 0 ==> 2 * total * r - total <= 200 * score < 2 * total * r + total
    // r is the nearest integer to (prior + 100 * score / total) / 2, ties going up
    ensures prior != 0 ==>
      4 * total * r - 2 * total <= 2 * (prior * total + 100 * score) < 4 * total * r + 2 * total
  {
    if prior == 0 then RoundDiv(100 * score, total)
    else RoundDiv(prior * total + 100 * score, 2 * total)
  }

  /** The integer formulas mean what the program computes over the reals:
      Math.round(accuracy) on a first attempt and
      Math.round((prior + accuracy) / 2) otherwise, with the accuracy unrounded. */
  lemma NewCategoryScoreIsBlend(prior: int, score: int, total: int)
    requires total > 0
    ensures var accuracy := (score as real / total as real) * 100.0;
      NewCategoryScore(prior, score, total)
        == if prior == 0 then Round(accuracy) else Round((prior as real + accuracy) / 2.0)
  {
    var t := total as real;
    var accuracy := (score as real / t) * 100.0;
    if prior == 0 {
      RoundDivIsRound(100 * score, total);
      assert (100 * score) as real / t == accuracy;
    } else {
      RoundDivIsRound(prior * total + 100 * score, 2 * total);
      var lhs := (prior * total + 100 * score) as real / (2 * total) as real;
      assert lhs * (2.0 * t) == (prior * total + 100 * score) as real;
      assert (prior as real + accuracy) / 2.0 * (2.0 * t) == (prior * total + 100 * score) as real;
      assert lhs == (prior as real + accuracy) / 2.0;
    }
  }

  /** A prior and a session both in range give a new entry in range. */
  lemma NewCategoryScoreBounds(prior: int, score: int, total: int)
    requires total > 0 && 0 <= score <= total && 0 <= prior <= 100
    ensures 0 <= NewCategoryScore(prior, score, total) <= 100
  {
    if prior == 0 {
      RoundDivBetween(100 * score, total, 0, 100);
    } else {
      MulMonotone(prior, 100, total);
      MulMonotone(0, prior, total);
      RoundDivBetween(prior * total + 100 * score, 2 * total, 0, 100);
    }
  }

  // ---------------------------------------------------------------------------
  // The overall average

  /** An entry counts as attempted when it is positive. */
  predicate IsAttempted(scores: map<Category, int>, c: Category) {
    c in scores && scores[c] > 0
  }

  /** How many of the categories in `cs` are attempted, and the sum of their
      entries: the length and the reduction of the filtered list of values. */
  function AttemptedCount(cs: seq<Category>, scores: map<Category, int>): nat {
    if |cs| == 0 then 0
    else (if IsAttempted(scores, cs[0]) then 1 else 0) + AttemptedCount(cs[1..], scores)
  }

  function AttemptedSum(cs: seq<Category>, scores: map<Category, int>): int {
    if |cs| == 0 then 0
    else (if IsAttempted(scores, cs[0]) then scores[cs[0]] else 0) + AttemptedSum(cs[1..], scores)
  }

  /** The rounded mean of all attempted entries, Mock included; 0 if none. */
  function AverageScore(scores: map<Category, int>): (r: int)
    // with n attempted entries summing to sum, r is the nearest integer to sum / n
    ensures var n := AttemptedCount(AllCategories, scores);
      n > 0 ==> 2 * n * r - n <= 2 * AttemptedSum(AllCategories, scores) < 2 * n * r + n
    ensures AttemptedCount(AllCategories, scores) == 0 ==> r == 0
  {
    var n := AttemptedCount(AllCategories, scores);
    if n > 0 then RoundDiv(AttemptedSum(AllCategories, scores), n) else 0
  }

  /** No category of `cs` is attempted exactly when the count is 0. */
  lemma {:induction false} AttemptedCountZero(cs: seq<Category>, scores: map<Category, int>)
    ensures AttemptedCount(cs, scores) == 0 <==> forall c :: c in cs ==> !IsAttempted(scores, c)
  {
    if |cs| > 0 {
      AttemptedCountZero(cs[1..], scores);
      forall c | c in cs
        ensures c == cs[0] || c in cs[1..]
      {
        var k :| 0 <= k < |cs| && cs[k] == c;
        if k > 0 {
          assert cs[1..][k - 1] == c;
        }
      }
      assert forall c :: c in cs[1..] ==> c in cs;
    }
  }

  /** If every attempted entry lies in [lo, hi], the sum of the attempted
      entries lies in [lo * count, hi * count]. */
  lemma {:induction false} AttemptedSumBetween(cs: seq<Category>, scores: map<Category, int>, lo: int, hi: int)
    requires forall c :: IsAttempted(scores, c) ==> lo <= scores[c] <= hi
    ensures lo * AttemptedCount(cs, scores) <= AttemptedSum(cs, scores) <= hi * AttemptedCount(cs, scores)
  {
    if |cs| > 0 {
      AttemptedSumBetween(cs[1..], scores, lo, hi);
      var n := AttemptedCount(cs[1..], scores);
      if IsAttempted(scores, cs[0]) {
        assert lo * (n + 1) == lo * n + lo;
        assert hi * (n + 1) == hi * n + hi;
      }
    }
  }

  /** Every attempted entry is at least 1, so the sum is at least the count. */
  lemma {:induction false} AttemptedSumAtLeastCount(cs: seq<Category>, scores: map<Category, int>)
    ensures AttemptedCount(cs, scores) <= AttemptedSum(cs, scores)
  {
    if |cs| > 0 {
      AttemptedSumAtLeastCount(cs[1..], scores);
    }
  }

  /** The average is 0 exactly when no entry has been attempted. */
  lemma AverageZeroIffUnattempted(scores: map<Category, int>)
    ensures AverageScore(scores) == 0 <==> forall c :: !IsAttempted(scores, c)
  {
    AllCategoriesExact();
    AttemptedCountZero(AllCategories, scores);
    var n := AttemptedCount(AllCategories, scores);
    if n > 0 {
      AttemptedSumAtLeastCount(AllCategories, scores);
      RoundDivAtLeast(AttemptedSum(AllCategories, scores), n, 1);
    }
  }

  /** When some entry has been attempted, the average lies between any lower
      and upper bound of the attempted entries. */
  lemma AverageBetween(scores: map<Category, int>, lo: int, hi: int)
    requires forall c :: IsAttempted(scores, c) ==> lo <= scores[c] <= hi
    requires exists c :: IsAttempted(scores, c)
    ensures lo <= AverageScore(scores) <= hi
  {
    AllCategoriesExact();
    AttemptedCountZero(AllCategories, scores);
    AttemptedSumBetween(AllCategories, scores, lo, hi);
    RoundDivBetween(AttemptedSum(AllCategories, scores), AttemptedCount(AllCategories, scores), lo, hi);
  }

  // ---------------------------------------------------------------------------
  // Folding one session into the profile

  /** The profile after a finished session of `total` questions with `score`
      correct, practised under `cat`. Only the entry of `cat` is rewritten; the
      counters rise by one session and `total` questions; the average is
      recomputed from the updated entries. The program divides by `total`
      without a guard, so a session with no questions is excluded. */
  function ApplySessionResult(stats: UserStats, cat: Category, score: int, total: int): (r: UserStats)
    requires total > 0
    ensures r.completedQuizzes == stats.completedQuizzes + 1
    ensures r.questionsAnswered == stats.questionsAnswered + total
    ensures r.categoryScores.Keys == stats.categoryScores.Keys + {cat}
    ensures r.categoryScores[cat] == NewCategoryScore(PriorScore(stats, cat), score, total)
    ensures forall c :: c != cat && c in stats.categoryScores ==> r.categoryScores[c] == stats.categoryScores[c]
    ensures r.averageScore == AverageScore(r.categoryScores)
  {
    var scores := stats.categoryScores[cat := NewCategoryScore(PriorScore(stats, cat), score, total)];
    UserStats(stats.completedQuizzes + 1, AverageScore(scores), scores, stats.questionsAnswered + total)
  }

  /** A profile whose entries and average are percentages. */
  predicate InRange(stats: UserStats) {
    && Total(stats.categoryScores)
    && (forall c :: 0 <= stats.categoryScores[c] <= 100)
    && 0 <= stats.averageScore <= 100
    && 0 <= stats.completedQuizzes
    && 0 <= stats.questionsAnswered
  }

  /** A session with 0 <= score <= total keeps every entry and the average in
      [0, 100]. */
  lemma ApplyKeepsInRange(stats: UserStats, cat: Category, score: int, total: int)
    requires InRange(stats)
    requires total > 0 && 0 <= score <= total
    ensures InRange(ApplySessionResult(stats, cat, score, total))
  {
    var r := ApplySessionResult(stats, cat, score, total);
    NewCategoryScoreBounds(PriorScore(stats, cat), score, total);
    assert forall c :: 0 <= r.categoryScores[c] <= 100;
    AverageZeroIffUnattempted(r.categoryScores);
    if exists c :: IsAttempted(r.categoryScores, c) {
      AverageBetween(r.categoryScores, 1, 100);
    }
  }

  lemma InitialInRange()
    ensures InRange(InitialStats())
  {}

  /** One finished session: its category, its score and its length. */
  datatype SessionResult = SessionResult(category: Category, score: int, total: int)

  predicate Completed(s: SessionResult) {
    s.total > 0 && 0 <= s.score <= s.total
  }

  /** The profile after the sessions, oldest first. */
  function ApplyAll(stats: UserStats, sessions: seq<SessionResult>): UserStats
    requires forall i :: 0 <= i < |sessions| ==> Completed(sessions[i])
  {
    if |sessions| == 0 then stats
    else
      var n := |sessions| - 1;
      var s := sessions[n];
      assert Completed(s);
      ApplySessionResult(ApplyAll(stats, sessions[..n]), s.category, s.score, s.total)
  }

  function TotalQuestions(sessions: seq<SessionResult>): int {
    if |sessions| == 0 then 0 else TotalQuestions(sessions[..|sessions| - 1]) + sessions[|sessions| - 1].total
  }

  /** Over any run of sessions the counters never decrease: one quiz per
      session and the sessions' lengths in questions. A profile in range stays
      in range. */
  lemma {:induction false} ApplyAllCounters(stats: UserStats, sessions: seq<SessionResult>)
    requires forall i :: 0 <= i < |sessions| ==> Completed(sessions[i])
    ensures ApplyAll(stats, sessions).completedQuizzes == stats.completedQuizzes + |sessions|
    ensures ApplyAll(stats, sessions).questionsAnswered == stats.questionsAnswered + TotalQuestions(sessions)
    ensures TotalQuestions(sessions) >= |sessions|
    ensures InRange(stats) ==> InRange(ApplyAll(stats, sessions))
  {
    if |sessions| > 0 {
      var n := |sessions| - 1;
      ApplyAllCounters(stats, sessions[..n]);
      var s := sessions[n];
      if InRange(stats) {
        ApplyKeepsInRange(ApplyAll(stats, sessions[..n]), s.category, s.score, s.total);
      }
    }
  }

  // ---------------------------------------------------------------------------
  // Worked cases

  /** From the initial profile, 4 of 5 in Mathematics gives 80, one quiz, five
      questions and an average of 80; then 2 of 5 blends to 60. */
  lemma MathTwoSessions()
    ensures var first := ApplySessionResult(InitialStats(), Math, 4, 5);
      && first.categoryScores[Math] == 80 && first.completedQuizzes == 1
      && first.questionsAnswered == 5 && first.averageScore == 80
      && var second := ApplySessionResult(first, Math, 2, 5);
      && second.categoryScores[Math] == 60 && second.completedQuizzes == 2
      && second.questionsAnswered == 10 && second.averageScore == 60
  {}

  /** A prior of 60 and 4 of 5 (accuracy 80) blend to 70. */
  lemma BlendExample()
    ensures NewCategoryScore(60, 4, 5) == 70
  {}

  /** Entries 80, 0 and 40: the unattempted 0 is left out and the mean is 60. */
  lemma AverageExample()
    ensures AverageScore(map[Reading := 80, Vocabulary := 0, Grammar := 40, Math := 0, Mock := 0]) == 60
  {}

  /** The composite category is blended as an entry of its own: a mock exam
      leaves the four subjects untouched. */
  lemma MockIsItsOwnEntry(stats: UserStats, score: int, total: int)
    requires Total(stats.categoryScores) && total > 0
    ensures var r := ApplySessionResult(stats, Mock, score, total);
      forall c :: c != Mock ==> r.categoryScores[c] == stats.categoryScores[c]
  {}

  /** A category whose only session scored 0% still reads as never attempted:
      a following perfect session gives 100, not the blend 50. */
  lemma ZeroScoreReadsAsUnattempted(stats: UserStats, cat: Category)
    requires PriorScore(stats, cat) == 0
    ensures var once := ApplySessionResult(stats, cat, 0, 5);
      && once.categoryScores[cat] == 0
      && ApplySessionResult(once, cat, 5, 5).categoryScores[cat] == 100
  {}
}
