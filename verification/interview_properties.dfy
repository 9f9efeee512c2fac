/** Bounds on the overall score, live and persisted. */
module InterviewProperties {
  import opened Wrappers
  import opened Js
  import opened InterviewModel
  import opened InterviewController

  /** A lower bound on every score gives a lower bound on the sum. */
  lemma {:induction false} TotalScoreAtLeast(answered: seq<QuestionEntry>, lo: real)
    requires forall k :: 0 <= k < |answered| ==> lo <= ScoreOrZero(answered[k])
    ensures (|answered| as real) * lo <= TotalScore(answered)
    decreases |answered|
  {
    if answered != [] {
      var rest := answered[1..];
      TotalScoreAtLeast(rest, lo);
      assert (|answered| as real) * lo == (|rest| as real) * lo + lo;
      assert lo <= ScoreOrZero(answered[0]);
    }
  }

  /** An upper bound on every score gives an upper bound on the sum. */
  lemma {:induction false} TotalScoreAtMost(answered: seq<QuestionEntry>, hi: real)
    requires forall k :: 0 <= k < |answered| ==> ScoreOrZero(answered[k]) <= hi
    ensures TotalScore(answered) <= (|answered| as real) * hi
    decreases |answered|
  {
    if answered != [] {
      var rest := answered[1..];
      TotalScoreAtMost(rest, hi);
      assert (|answered| as real) * hi == (|rest| as real) * hi + hi;
      assert ScoreOrZero(answered[0]) <= hi;
    }
  }

  /** With some entry answered, the live score times the answered count is the sum of the answered scores. */
  lemma LiveScoreTimesCount(qs: seq<QuestionEntry>, n: real, total: real)
    requires AnsweredQuestions(qs) != []
    requires n == |AnsweredQuestions(qs)| as real && total == TotalScore(AnsweredQuestions(qs))
    ensures LiveOverallScore(qs) * n == total
  {
    DivisionUndone(total, n, LiveOverallScore(qs));
  }

  /** Multiplying a quotient by its divisor gives back the dividend. */
  lemma DivisionUndone(total: real, n: real, q: real)
    requires n > 0.0 && q == total / n
    ensures q * n == total
  {
  }

  /** When every answered score lies in [lo, hi] and some entry is answered, so does the live score. */
  lemma {:induction false} AverageWithinBounds(qs: seq<QuestionEntry>, lo: real, hi: real)
    requires forall e :: e in qs && IsAnswered(e) ==> lo <= ScoreOrZero(e) <= hi
    requires AnsweredQuestions(qs) != []
    ensures lo <= LiveOverallScore(qs) <= hi
  {
    AnsweredScoresWithin(qs, lo, hi);
    MeanWithin(AnsweredQuestions(qs), lo, hi);
  }

  /** The mean score of a non-empty list whose scores lie in [lo, hi] lies there too. */
  lemma MeanWithin(answered: seq<QuestionEntry>, lo: real, hi: real)
    requires answered != []
    requires forall k :: 0 <= k < |answered| ==> lo <= ScoreOrZero(answered[k]) <= hi
    ensures lo <= TotalScore(answered) / (|answered| as real) <= hi
  {
    TotalScoreWithin(answered, lo, hi);
    DivisionBounds(TotalScore(answered), |answered| as real, lo, hi, TotalScore(answered) / (|answered| as real));
  }

  /** Every score of `answered` lies in [lo, hi], so their sum lies between |answered| * lo and |answered| * hi. */
  lemma {:induction false} TotalScoreWithin(answered: seq<QuestionEntry>, lo: real, hi: real)
    requires forall k :: 0 <= k < |answered| ==> lo <= ScoreOrZero(answered[k]) <= hi
    ensures (|answered| as real) * lo <= TotalScore(answered) <= (|answered| as real) * hi
  {
    TotalScoreAtLeast(answered, lo);
    TotalScoreAtMost(answered, hi);
  }

  /** A bound on the scores of the answered entries carries over to the answered list, index by index. */
  lemma AnsweredScoresWithin(qs: seq<QuestionEntry>, lo: real, hi: real)
    requires forall e :: e in qs && IsAnswered(e) ==> lo <= ScoreOrZero(e) <= hi
    ensures forall k :: 0 <= k < |AnsweredQuestions(qs)| ==> lo <= ScoreOrZero(AnsweredQuestions(qs)[k]) <= hi
  {
  }

  /** Dividing a total that lies between n * lo and n * hi by n > 0 gives a value between lo and hi. */
  lemma DivisionBounds(total: real, n: real, lo: real, hi: real, avg: real)
    requires n > 0.0 && n * lo <= total <= n * hi
    requires avg == total / n
    ensures lo <= avg <= hi
  {
  }

  /**
   * With evaluations scored from 1 to 10, as the evaluation service promises, the
   * persisted score lies in [1, 10]; being truthy, it is what the results and the
   * session list show.
   */
  lemma CompletedScoreIsShown(iv: Interview, overallFeedback: Option<string>, now: Time, id: InterviewId)
    requires forall e :: e in iv.questions && IsAnswered(e) ==> 1.0 <= ScoreOrZero(e) <= 10.0
    requires Complete(iv, overallFeedback, now).Success?
    ensures var c := Complete(iv, overallFeedback, now).value;
            && 1.0 <= c.overallScore.value <= 10.0
            && IsTruthyNumber(c.overallScore)
            && SummaryOf(id, c).score == Score(c.overallScore.value)
  {
    AverageWithinBounds(iv.questions, 1.0, 10.0);
  }

}
