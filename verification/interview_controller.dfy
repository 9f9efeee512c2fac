/**
 * The interview session lifecycle: creating a session, recording an answer at one
 * question index, projecting questions and results, completing a session and
 * listing a user's sessions. The collection of interview documents is the class
 * `InterviewStore`, whose methods update it in place; projections and the scoring
 * rule are functions of one document.
 */
module InterviewController {
  import opened Wrappers
  import opened Js
  import opened InterviewModel

  /** An error response: its HTTP status and its `message`. */
  datatype HttpError = HttpError(status: nat, message: string)

  /** One element of the `questions` list in the body of a create request. */
  datatype QuestionInput = QuestionInput(question: Option<string>, answer: Option<string>)

  /** The body of a create request, each field possibly absent. */
  datatype CreateBody = CreateBody(
    jobRole: Option<string>,
    jobDescription: Option<string>,
    questions: Option<seq<QuestionInput>>)

  /** The 201 response of a create request. */
  datatype Created = Created(interviewId: InterviewId, totalQuestions: nat)

  /** The question projection: no answer or evaluation data. */
  datatype QuestionPair = QuestionPair(question: string, correctAnswer: string)
  datatype QuestionsView = QuestionsView(jobRole: string, jobDescription: string, questions: seq<QuestionPair>)

  /** The results projection. */
  datatype ResultQuestion = ResultQuestion(question: string, candidateAnswer: string, aiEvaluation: AiEvaluation)
  datatype ResultsView = ResultsView(
    jobRole: string,
    completedAt: Option<Time>,
    overallScore: real,
    isCompleted: bool,
    totalQuestionsAnswered: nat,
    totalQuestions: nat,
    questions: seq<ResultQuestion>)

  /** The 200 response of a completion request. */
  datatype Completion = Completion(
    overallScore: real,
    completedAt: Time,
    isCompleted: bool,
    totalQuestionsAnswered: nat,
    totalQuestions: nat)

  /** A listed session's `score`: the stored number, or the string 'Not completed'. */
  datatype ListedScore = Score(value: real) | NotCompleted

  /** One element of a user's session list. */
  datatype Summary = Summary(
    id: InterviewId,
    jobRole: string,
    date: Time,
    completedAt: Option<Time>,
    score: ListedScore,
    isCompleted: bool)

  datatype Listing = Listing(message: string, interviews: seq<Summary>)

  const MissingFields := HttpError(400, "Missing required fields")
  const UserNotFound := HttpError(404, "User not found")
  const CreateFailed := HttpError(500, "Failed to create interview")
  const RecordOrQuestionNotFound := HttpError(404, "Interview record or question not found")
  const InterviewNotFound := HttpError(404, "Interview not found")
  const NotAuthorized := HttpError(403, "You are not authorized to view this interview")
  const NothingAnswered := HttpError(400, "At least one question must be answered before completing the interview")

  /** What the results show for an entry without a candidate answer. */
  const NotAnswered := "Not answered"
  /** What the results show for an entry without an evaluation. */
  const NotEvaluated := AiEvaluation(Some(0.0), Some("Not evaluated"), [], [])

  // ---------------------------------------------------------------------------
  // Creation

  /**
   * The `questions` of a new document, `{question, answer}` mapped to
   * `{originalQuestion, correctAnswer}`; absent when the save-time validation of
   * some entry fails.
   */
  function NewEntries(inputs: seq<QuestionInput>): (r: Option<seq<QuestionEntry>>)
    ensures r.Some? <==> forall i :: 0 <= i < |inputs| ==>
                           IsTruthyString(inputs[i].question) && IsTruthyString(inputs[i].answer)
    ensures r.Some? ==> |r.value| == |inputs|
    ensures r.Some? ==> forall i :: 0 <= i < |inputs| ==>
                          && r.value[i].originalQuestion == inputs[i].question.value
                          && r.value[i].correctAnswer == inputs[i].answer.value
                          && Unanswered(r.value[i]) && EntryConforms(r.value[i])
                          && r.value[i].aiEvaluation == Some(EmptyEvaluation)
    decreases |inputs|
  {
    if inputs == [] then Some([])
    else
      var first := NewEntry(inputs[0].question, inputs[0].answer);
      var rest := NewEntries(inputs[1..]);
      if first.Some? && rest.Some? then
        Some([first.value] + rest.value)
      else
        assert first.None? ==> !(IsTruthyString(inputs[0].question) && IsTruthyString(inputs[0].answer));
        assert rest.None? ==> exists i :: 1 <= i < |inputs| &&
                                !(IsTruthyString(inputs[i].question) && IsTruthyString(inputs[i].answer));
        None
  }

  // ---------------------------------------------------------------------------
  // Scoring

  /** An entry counts as answered only when its `aiEvaluation.score` is truthy: a score of 0 does not count. */
  predicate IsAnswered(e: QuestionEntry): (r: bool)
    ensures Unanswered(e) ==> !r
    ensures e.aiEvaluation.Some? && e.aiEvaluation.value.score == Some(0.0) ==> !r
  {
    e.aiEvaluation.Some? && IsTruthyNumber(e.aiEvaluation.value.score)
  }

  /** `q.aiEvaluation?.score || 0`. */
  function ScoreOrZero(e: QuestionEntry): (r: real)
    ensures r != 0.0 <==> IsAnswered(e)
    ensures IsAnswered(e) ==> Some(r) == e.aiEvaluation.value.score
  {
    if IsAnswered(e) then e.aiEvaluation.value.score.value else 0.0
  }

  /** The answered entries, in their order. */
  function AnsweredQuestions(qs: seq<QuestionEntry>): (r: seq<QuestionEntry>)
    ensures |r| <= |qs|
    ensures forall e :: e in r <==> e in qs && IsAnswered(e)
    decreases |qs|
  {
    if qs == [] then []
    else (if IsAnswered(qs[0]) then [qs[0]] else []) + AnsweredQuestions(qs[1..])
  }

  /** The answered list keeps every copy of an answered entry and no copy of any other. */
  lemma {:induction false} AnsweredCounts(qs: seq<QuestionEntry>)
    ensures forall e :: multiset(AnsweredQuestions(qs))[e] == if IsAnswered(e) then multiset(qs)[e] else 0
    decreases |qs|
  {
    if qs != [] {
      AnsweredCounts(qs[1..]);
      assert qs == [qs[0]] + qs[1..];
    }
  }

  /** The sum of the scores of `answered`. */
  function TotalScore(answered: seq<QuestionEntry>): real
    decreases |answered|
  {
    if answered == [] then 0.0 else ScoreOrZero(answered[0]) + TotalScore(answered[1..])
  }

  /** Entries without a truthy score add nothing to the sum: their score reads as 0. */
  lemma {:induction false} UnansweredAddNothing(entries: seq<QuestionEntry>)
    requires forall k :: 0 <= k < |entries| ==> !IsAnswered(entries[k])
    ensures TotalScore(entries) == 0.0
    decreases |entries|
  {
    if entries != [] {
      UnansweredAddNothing(entries[1..]);
    }
  }

  /** The live overall score: the average over the answered entries, 0 when none is answered. */
  function LiveOverallScore(qs: seq<QuestionEntry>): (r: real)
    ensures AnsweredQuestions(qs) == [] ==> r == 0.0
    ensures AnsweredQuestions(qs) != [] ==>
              r == TotalScore(AnsweredQuestions(qs)) / (|AnsweredQuestions(qs)| as real)
  {
    var answered := AnsweredQuestions(qs);
    if |answered| > 0 then TotalScore(answered) / (|answered| as real) else 0.0
  }

  lemma {:induction false} AnsweredAppend(a: seq<QuestionEntry>, b: seq<QuestionEntry>)
    ensures AnsweredQuestions(a + b) == AnsweredQuestions(a) + AnsweredQuestions(b)
    decreases |a|
  {
    if a != [] {
      assert (a + b)[1..] == a[1..] + b;
      AnsweredAppend(a[1..], b);
    } else {
      assert a + b == b;
    }
  }

  lemma {:induction false} TotalScoreAppend(a: seq<QuestionEntry>, b: seq<QuestionEntry>)
    ensures TotalScore(a + b) == TotalScore(a) + TotalScore(b)
    decreases |a|
  {
    if a != [] {
      assert (a + b)[1..] == a[1..] + b;
      TotalScoreAppend(a[1..], b);
    } else {
      assert a + b == b;
    }
  }

  /** An entry that is not answered changes neither the answered count nor the live score. */
  lemma UnansweredEntryIsIgnored(qs: seq<QuestionEntry>, e: QuestionEntry)
    requires !IsAnswered(e)
    ensures |AnsweredQuestions(qs + [e])| == |AnsweredQuestions(qs)|
    ensures LiveOverallScore(qs + [e]) == LiveOverallScore(qs)
  {
    AnsweredAppend(qs, [e]);
    assert AnsweredQuestions([e]) == [];
    assert AnsweredQuestions(qs + [e]) == AnsweredQuestions(qs);
  }

  /** An evaluation scored exactly 0 is excluded from the average, not counted as a zero. */
  lemma ZeroScoreIsExcluded(qs: seq<QuestionEntry>, e: QuestionEntry)
    requires e.aiEvaluation.Some? && e.aiEvaluation.value.score == Some(0.0)
    ensures |AnsweredQuestions(qs + [e])| == |AnsweredQuestions(qs)|
    ensures LiveOverallScore(qs + [e]) == LiveOverallScore(qs)
  {
    UnansweredEntryIsIgnored(qs, e);
  }

  // ---------------------------------------------------------------------------
  // Answer submission

  /**
   * The document after an answer is recorded at `index`: transcript (as both the
   * transcript and the candidate answer), evaluation and answer time of that entry
   * are overwritten; every other entry and every session field stays as it was.
   */
  function WithAnswer(iv: Interview, index: nat, transcript: string, evaluation: AiEvaluation, now: Time): (r: Interview)
    requires index < |iv.questions|
    ensures |r.questions| == |iv.questions|
    ensures && r.questions[index].audioTranscript == Some(transcript)
            && r.questions[index].candidateAnswer == Some(transcript)
            && r.questions[index].aiEvaluation == Some(evaluation)
            && r.questions[index].answeredAt == Some(now)
    ensures && r.questions[index].originalQuestion == iv.questions[index].originalQuestion
            && r.questions[index].correctAnswer == iv.questions[index].correctAnswer
    ensures forall j :: 0 <= j < |iv.questions| && j != index ==> r.questions[j] == iv.questions[j]
    ensures r == iv.(questions := r.questions)
  {
    var e := iv.questions[index];
    iv.(questions := iv.questions[index := e.(audioTranscript := Some(transcript),
                                             candidateAnswer := Some(transcript),
                                             aiEvaluation := Some(evaluation),
                                             answeredAt := Some(now))])
  }

  /** A second submission at the same index replaces the first one entirely. */
  lemma AnswerOverwrites(iv: Interview, index: nat, t1: string, e1: AiEvaluation, n1: Time,
                         t2: string, e2: AiEvaluation, n2: Time)
    requires index < |iv.questions|
    ensures WithAnswer(WithAnswer(iv, index, t1, e1, n1), index, t2, e2, n2) == WithAnswer(iv, index, t2, e2, n2)
  {
  }

  /** Answering a not yet answered entry with a truthy score adds exactly one to the answered count. */
  lemma AnsweringCountsOnce(iv: Interview, index: nat, transcript: string, evaluation: AiEvaluation, now: Time)
    requires index < |iv.questions|
    requires !IsAnswered(iv.questions[index])
    requires IsTruthyNumber(evaluation.score)
    ensures |AnsweredQuestions(WithAnswer(iv, index, transcript, evaluation, now).questions)|
            == |AnsweredQuestions(iv.questions)| + 1
  {
    var qs := iv.questions;
    var qs' := WithAnswer(iv, index, transcript, evaluation, now).questions;
    assert qs == qs[..index] + [qs[index]] + qs[index + 1..];
    assert qs' == qs[..index] + [qs'[index]] + qs[index + 1..];
    AnsweredAppend(qs[..index] + [qs[index]], qs[index + 1..]);
    AnsweredAppend(qs[..index], [qs[index]]);
    AnsweredAppend(qs[..index] + [qs'[index]], qs[index + 1..]);
    AnsweredAppend(qs[..index], [qs'[index]]);
    assert AnsweredQuestions([qs[index]]) == [];
    assert AnsweredQuestions([qs'[index]]) == [qs'[index]];
  }

  // ---------------------------------------------------------------------------
  // Projections

  /** The `{question, correctAnswer}` projection of the entries. */
  function QuestionsOf(iv: Interview): (r: QuestionsView)
    ensures r.jobRole == iv.jobRole && r.jobDescription == iv.jobDescription
    ensures |r.questions| == |iv.questions|
    ensures forall i :: 0 <= i < |iv.questions| ==>
              r.questions[i] == QuestionPair(iv.questions[i].originalQuestion, iv.questions[i].correctAnswer)
  {
    QuestionsView(iv.jobRole, iv.jobDescription,
                  seq(|iv.questions|, i requires 0 <= i < |iv.questions| =>
                    QuestionPair(iv.questions[i].originalQuestion, iv.questions[i].correctAnswer)))
  }

  /** Recording an answer never changes the question projection. */
  lemma AnswersDoNotChangeQuestions(iv: Interview, index: nat, transcript: string, evaluation: AiEvaluation, now: Time)
    requires index < |iv.questions|
    ensures QuestionsOf(WithAnswer(iv, index, transcript, evaluation, now)) == QuestionsOf(iv)
  {
    var a := QuestionsOf(WithAnswer(iv, index, transcript, evaluation, now));
    var b := QuestionsOf(iv);
    assert a.questions == b.questions;
  }

  /** One entry of the results: missing answers and evaluations replaced by placeholders. */
  function ResultQuestionOf(e: QuestionEntry): (r: ResultQuestion)
    ensures r.question == e.originalQuestion
    ensures IsTruthyString(e.candidateAnswer) ==> r.candidateAnswer == e.candidateAnswer.value
    ensures !IsTruthyString(e.candidateAnswer) ==> r.candidateAnswer == NotAnswered
    ensures e.aiEvaluation.Some? ==> r.aiEvaluation == e.aiEvaluation.value
    ensures e.aiEvaluation.None? ==> r.aiEvaluation == NotEvaluated
  {
    ResultQuestion(
      e.originalQuestion,
      if IsTruthyString(e.candidateAnswer) then e.candidateAnswer.value else NotAnswered,
      if e.aiEvaluation.Some? then e.aiEvaluation.value else NotEvaluated)
  }

  /**
   * The results of a session not yet answered show every question with "Not
   * answered" and the empty evaluation its entry was saved with; the "Not
   * evaluated" placeholder never appears for a saved entry.
   */
  lemma NewEntriesShowEmptyEvaluation(inputs: seq<QuestionInput>, qs: seq<QuestionEntry>)
    requires NewEntries(inputs) == Some(qs)
    ensures forall i :: 0 <= i < |qs| ==>
              && ResultQuestionOf(qs[i]) == ResultQuestion(inputs[i].question.value, NotAnswered, EmptyEvaluation)
              && ResultQuestionOf(qs[i]).aiEvaluation != NotEvaluated
  {
  }

  /**
   * The results projection: the stored overall score when it is truthy, the live
   * score otherwise; the completion flag as backfilled from `completedAt`.
   */
  function ResultsOf(iv: Interview): (r: ResultsView)
    ensures r.totalQuestions == |iv.questions| && r.totalQuestionsAnswered <= r.totalQuestions
    ensures r.totalQuestionsAnswered == |AnsweredQuestions(iv.questions)|
    ensures r.totalQuestionsAnswered == 0 <==> forall i :: 0 <= i < |iv.questions| ==> !IsAnswered(iv.questions[i])
    ensures r.overallScore == if IsTruthyNumber(iv.overallScore) then iv.overallScore.value
                              else LiveOverallScore(iv.questions)
    ensures r.isCompleted <==> iv.isCompleted || iv.completedAt.Some?
    ensures r.jobRole == iv.jobRole && r.completedAt == iv.completedAt
    ensures |r.questions| == |iv.questions|
    ensures forall i :: 0 <= i < |iv.questions| ==>
              && r.questions[i].question == iv.questions[i].originalQuestion
              && r.questions[i].candidateAnswer != ""
              && (IsTruthyString(iv.questions[i].candidateAnswer) ==>
                    r.questions[i].candidateAnswer == iv.questions[i].candidateAnswer.value)
              && (!IsTruthyString(iv.questions[i].candidateAnswer) ==> r.questions[i].candidateAnswer == NotAnswered)
              && (iv.questions[i].aiEvaluation.None? ==> r.questions[i].aiEvaluation == NotEvaluated)
              && (iv.questions[i].aiEvaluation.Some? ==>
                    r.questions[i].aiEvaluation == iv.questions[i].aiEvaluation.value)
  {
    var answered := AnsweredQuestions(iv.questions);
    assert answered == [] <==> forall i :: 0 <= i < |iv.questions| ==> !IsAnswered(iv.questions[i]) by {
      if answered != [] {
        assert answered[0] in iv.questions;
      }
    }
    ResultsView(
      iv.jobRole,
      iv.completedAt,
      if IsTruthyNumber(iv.overallScore) then iv.overallScore.value else LiveOverallScore(iv.questions),
      iv.isCompleted || iv.completedAt.Some?,
      |answered|,
      |iv.questions|,
      seq(|iv.questions|, i requires 0 <= i < |iv.questions| => ResultQuestionOf(iv.questions[i])))
  }

  /** The results read's write: set `isCompleted` when `completedAt` is set and the flag is not. */
  function Backfill(iv: Interview): (r: Interview)
    ensures r.isCompleted <==> iv.isCompleted || iv.completedAt.Some?
    ensures r == iv.(isCompleted := r.isCompleted)
  {
    if iv.completedAt.Some? && !iv.isCompleted then iv.(isCompleted := true) else iv
  }

  /** The backfill is idempotent, and invisible in the results it accompanies. */
  lemma BackfillIsIdempotent(iv: Interview)
    ensures Backfill(Backfill(iv)) == Backfill(iv)
    ensures ResultsOf(Backfill(iv)) == ResultsOf(iv)
  {
  }

  // ---------------------------------------------------------------------------
  // Completion

  /**
   * The document after completion: the average of the answered scores persisted
   * together with the completion time, the flag and both counts; a 400 when no
   * entry is answered.
   */
  function Complete(iv: Interview, overallFeedback: Option<string>, now: Time): (r: Result<Interview, HttpError>)
    ensures r.Failure? <==> forall i :: 0 <= i < |iv.questions| ==> !IsAnswered(iv.questions[i])
    ensures r.Failure? ==> r.error == NothingAnswered
    ensures r.Success? ==>
              && r.value.overallScore == Some(LiveOverallScore(iv.questions))
              && r.value.isCompleted
              && r.value.completedAt == Some(now)
              && r.value.overallFeedback == overallFeedback
              && r.value.totalQuestionsAnswered == Some(|AnsweredQuestions(iv.questions)|)
              && r.value.totalQuestions == Some(|iv.questions|)
    ensures r.Success? ==>
              && r.value.questions == iv.questions && r.value.userId == iv.userId
              && r.value.jobRole == iv.jobRole && r.value.jobDescription == iv.jobDescription
              && r.value.createdAt == iv.createdAt
  {
    var answered := AnsweredQuestions(iv.questions);
    if |answered| == 0 then
      assert forall i :: 0 <= i < |iv.questions| ==> !IsAnswered(iv.questions[i]) by {
        forall i | 0 <= i < |iv.questions| ensures !IsAnswered(iv.questions[i]) {
          assert iv.questions[i] in iv.questions;
        }
      }
      Failure(NothingAnswered)
    else
      assert answered[0] in iv.questions;
      Success(iv.(overallScore := Some(LiveOverallScore(iv.questions)),
                  overallFeedback := overallFeedback,
                  completedAt := Some(now),
                  isCompleted := true,
                  totalQuestionsAnswered := Some(|answered|),
                  totalQuestions := Some(|iv.questions|)))
  }

  /** Reading the results right after completion shows the score just persisted, and the session as completed. */
  lemma CompletionThenResults(iv: Interview, overallFeedback: Option<string>, now: Time)
    requires Complete(iv, overallFeedback, now).Success?
    ensures var c := Complete(iv, overallFeedback, now).value;
            && ResultsOf(c).overallScore == c.overallScore.value
            && ResultsOf(c).isCompleted
            && ResultsOf(c).totalQuestionsAnswered == c.totalQuestionsAnswered.value
            && ResultsOf(c).totalQuestions == c.totalQuestions.value
  {
  }

  /** Once a truthy overall score is stored, later answers no longer move the score the results report. */
  lemma StoredScoreOutlivesLaterAnswers(c: Interview, index: nat, transcript: string, evaluation: AiEvaluation, now: Time)
    requires index < |c.questions|
    requires IsTruthyNumber(c.overallScore)
    ensures ResultsOf(WithAnswer(c, index, transcript, evaluation, now)).overallScore == c.overallScore.value
  {
  }

  /** The example of three questions, two of them scored 6 and 8 and one left unanswered. */
  lemma ThreeQuestionsTwoAnswered(iv: Interview, e6: AiEvaluation, e8: AiEvaluation,
                                  t0: string, t1: string, n0: Time, n1: Time,
                                  overallFeedback: Option<string>, now: Time)
    requires |iv.questions| == 3
    requires forall i :: 0 <= i < 3 ==> Unanswered(iv.questions[i])
    requires e6.score == Some(6.0) && e8.score == Some(8.0)
    ensures var answered := WithAnswer(WithAnswer(iv, 0, t0, e6, n0), 1, t1, e8, n1);
            var c := Complete(answered, overallFeedback, now);
            && c.Success?
            && c.value.overallScore == Some(7.0)
            && c.value.totalQuestionsAnswered == Some(2)
            && c.value.totalQuestions == Some(3)
            && c.value.isCompleted
  {
    var qs := WithAnswer(WithAnswer(iv, 0, t0, e6, n0), 1, t1, e8, n1).questions;
    assert AnsweredQuestions(qs) == [qs[0], qs[1]] by {
      assert qs == [qs[0]] + [qs[1]] + [qs[2]];
      assert !IsAnswered(qs[2]);
      AnsweredAppend([qs[0]] + [qs[1]], [qs[2]]);
      AnsweredAppend([qs[0]], [qs[1]]);
    }
    MeanOfTwo(qs, qs[0], qs[1]);
    assert IsAnswered(qs[0]);
  }

  lemma MeanOfTwo(qs: seq<QuestionEntry>, a: QuestionEntry, b: QuestionEntry)
    requires AnsweredQuestions(qs) == [a, b]
    requires ScoreOrZero(a) == 6.0 && ScoreOrZero(b) == 8.0
    ensures LiveOverallScore(qs) == 7.0
  {
    assert TotalScore([b]) == 8.0 by {
      assert [b][1..] == [];
    }
    assert TotalScore([a, b]) == 14.0 by {
      assert [a, b][1..] == [b];
    }
  }

  // ---------------------------------------------------------------------------
  // Listing

  /** One element of the session list; `score` is 'Not completed' when the stored score is falsy. */
  function SummaryOf(id: InterviewId, iv: Interview): (r: Summary)
    ensures r.score == NotCompleted <==> !IsTruthyNumber(iv.overallScore)
    ensures r.score.Score? ==> Some(r.score.value) == iv.overallScore && r.score.value != 0.0
    ensures && r.id == id && r.jobRole == iv.jobRole && r.date == iv.createdAt
            && r.completedAt == iv.completedAt && r.isCompleted == iv.isCompleted
  {
    Summary(id, iv.jobRole, iv.createdAt, iv.completedAt,
            if IsTruthyNumber(iv.overallScore) then Score(iv.overallScore.value) else NotCompleted,
            iv.isCompleted)
  }

  /** The ids below `n` of the sessions owned by `userId`, in increasing order. */
  function OwnedIds(records: map<InterviewId, Interview>, n: nat, userId: UserId): (r: seq<InterviewId>)
    ensures forall k :: 0 <= k < |r| ==> r[k] < n && r[k] in records && records[r[k]].userId == userId
    ensures forall id :: id < n && id in records && records[id].userId == userId ==> id in r
    ensures forall j, k :: 0 <= j < k < |r| ==> r[j] < r[k]
  {
    if n == 0 then []
    else
      var prior := OwnedIds(records, n - 1, userId);
      if n - 1 in records && records[n - 1].userId == userId then prior + [n - 1] else prior
  }

  predicate AllIn(ids: seq<InterviewId>, records: map<InterviewId, Interview>) {
    forall k :: 0 <= k < |ids| ==> ids[k] in records
  }

  /** `ids` are ordered by `createdAt`, newest first. */
  predicate NewestFirst(ids: seq<InterviewId>, records: map<InterviewId, Interview>)
    requires AllIn(ids, records)
  {
    forall j, k :: 0 <= j < k < |ids| ==> records[ids[j]].createdAt >= records[ids[k]].createdAt
  }

  function InsertNewestFirst(id: InterviewId, sorted: seq<InterviewId>, records: map<InterviewId, Interview>)
    : (r: seq<InterviewId>)
    requires id in records && AllIn(sorted, records) && NewestFirst(sorted, records)
    ensures AllIn(r, records) && NewestFirst(r, records)
    ensures multiset(r) == multiset(sorted) + multiset{id}
    decreases |sorted|
  {
    if sorted == [] || records[id].createdAt >= records[sorted[0]].createdAt then
      [id] + sorted
    else
      var rest := InsertNewestFirst(id, sorted[1..], records);
      assert sorted == [sorted[0]] + sorted[1..];
      NoneNewerThanHead(sorted[0], id, sorted[1..], rest, records);
      ConsNewestFirst(sorted[0], rest, records);
      [sorted[0]] + rest
  }

  /** Putting in front an id at least as new as every id of a newest-first list keeps it newest-first. */
  lemma ConsNewestFirst(head: InterviewId, rest: seq<InterviewId>, records: map<InterviewId, Interview>)
    requires head in records && AllIn(rest, records) && NewestFirst(rest, records)
    requires forall k :: 0 <= k < |rest| ==> records[head].createdAt >= records[rest[k]].createdAt
    ensures AllIn([head] + rest, records) && NewestFirst([head] + rest, records)
  {
    var r := [head] + rest;
    forall j, k | 0 <= j < k < |r|
      ensures records[r[j]].createdAt >= records[r[k]].createdAt
    {
      assert r[k] == rest[k - 1];
      if j > 0 {
        assert r[j] == rest[j - 1];
      }
    }
  }

  /** Every id of a permutation of `tail` plus `id` is no newer than `head`, when none of those is. */
  lemma NoneNewerThanHead(head: InterviewId, id: InterviewId, tail: seq<InterviewId>, rest: seq<InterviewId>,
                          records: map<InterviewId, Interview>)
    requires head in records && id in records && AllIn(tail, records) && AllIn(rest, records)
    requires records[head].createdAt >= records[id].createdAt
    requires forall k :: 0 <= k < |tail| ==> records[head].createdAt >= records[tail[k]].createdAt
    requires multiset(rest) == multiset(tail) + multiset{id}
    ensures forall k :: 0 <= k < |rest| ==> records[head].createdAt >= records[rest[k]].createdAt
  {
    forall k | 0 <= k < |rest|
      ensures records[head].createdAt >= records[rest[k]].createdAt
    {
      assert rest[k] in multiset(rest);
      if rest[k] != id {
        assert rest[k] in multiset(tail);
        var m :| 0 <= m < |tail| && tail[m] == rest[k];
      }
    }
  }

  /** `ids` sorted by `createdAt`, newest first. */
  function SortNewestFirst(ids: seq<InterviewId>, records: map<InterviewId, Interview>): (r: seq<InterviewId>)
    requires AllIn(ids, records)
    ensures AllIn(r, records) && NewestFirst(r, records)
    ensures multiset(r) == multiset(ids)
    decreases |ids|
  {
    if ids == [] then []
    else
      assert ids == [ids[0]] + ids[1..];
      InsertNewestFirst(ids[0], SortNewestFirst(ids[1..], records), records)
  }

  function Summaries(ids: seq<InterviewId>, records: map<InterviewId, Interview>): (r: seq<Summary>)
    requires AllIn(ids, records)
    ensures |r| == |ids|
    ensures forall k :: 0 <= k < |ids| ==> r[k] == SummaryOf(ids[k], records[ids[k]])
    decreases |ids|
  {
    if ids == [] then [] else [SummaryOf(ids[0], records[ids[0]])] + Summaries(ids[1..], records)
  }

  function ListedIds(items: seq<Summary>): (r: seq<InterviewId>)
    ensures |r| == |items| && forall k :: 0 <= k < |items| ==> r[k] == items[k].id
  {
    seq(|items|, k requires 0 <= k < |items| => items[k].id)
  }

  /** A session whose `createdAt` is later than that of every other session of its owner is listed first. */
  lemma {:induction false} StrictlyNewestSortsFirst(ids: seq<InterviewId>, records: map<InterviewId, Interview>, newest: InterviewId)
    requires AllIn(ids, records)
    requires newest in ids
    requires forall k :: 0 <= k < |ids| && ids[k] != newest ==> records[ids[k]].createdAt < records[newest].createdAt
    ensures SortNewestFirst(ids, records) != [] && SortNewestFirst(ids, records)[0] == newest
  {
    var s := SortNewestFirst(ids, records);
    assert newest in multiset(ids);
    assert newest in s;
    var k :| 0 <= k < |s| && s[k] == newest;
    assert s[0] in multiset(s);
    assert s[0] in ids;
  }

  /** The summaries of the sorted owned ids are the caller's sessions, newest first. */
  lemma ListingFacts(records: map<InterviewId, Interview>, owned: seq<InterviewId>, ids: seq<InterviewId>,
                     items: seq<Summary>, userId: UserId)
    requires AllIn(owned, records)
    requires forall k :: 0 <= k < |owned| ==> records[owned[k]].userId == userId
    requires ids == SortNewestFirst(owned, records)
    requires items == Summaries(ids, records)
    ensures ListedIds(items) == ids
    ensures forall k :: 0 <= k < |items| ==>
              && items[k].id in records
              && records[items[k].id].userId == userId
              && items[k] == SummaryOf(items[k].id, records[items[k].id])
    ensures forall j, k :: 0 <= j < k < |items| ==> items[j].date >= items[k].date
  {
    forall k | 0 <= k < |ids| ensures records[ids[k]].userId == userId {
      assert ids[k] in multiset(owned);
      var m :| 0 <= m < |owned| && owned[m] == ids[k];
    }
  }

  // ---------------------------------------------------------------------------
  // The collection

  class InterviewStore {
    /** The interview documents by `_id`. */
    var records: map<InterviewId, Interview>
    /** The next `_id` to hand out. */
    var nextId: nat

    ghost predicate Valid()
      reads this
    {
      forall id :: id in records ==> id < nextId && Conforms(records[id])
    }

    constructor ()
      ensures Valid() && records == map[] && nextId == 0
    {
      records := map[];
      nextId := 0;
    }

    /**
     * Creates a session: 400 when a required field is missing or falsy, 404 when the
     * caller is not a known user, 500 when the document fails validation; nothing
     * is stored in any of these cases.
     */
    method CreateInterview(userId: UserId, users: set<UserId>, body: CreateBody, now: Time)
      returns (r: Result<Created, HttpError>)
      requires Valid()
      modifies this
      ensures Valid()
      ensures (!IsTruthyString(body.jobRole) || !IsTruthyString(body.jobDescription) || body.questions.None?)
              ==> r == Failure(MissingFields)
      ensures (IsTruthyString(body.jobRole) && IsTruthyString(body.jobDescription) && body.questions.Some? &&
               userId !in users) ==> r == Failure(UserNotFound)
      ensures (IsTruthyString(body.jobRole) && IsTruthyString(body.jobDescription) && body.questions.Some? &&
               userId in users && NewEntries(body.questions.value).None?) ==> r == Failure(CreateFailed)
      ensures r.Success? <==> && IsTruthyString(body.jobRole) && IsTruthyString(body.jobDescription)
                              && body.questions.Some? && userId in users
                              && NewEntries(body.questions.value).Some?
      ensures r.Failure? ==> records == old(records) && nextId == old(nextId)
      ensures r.Success? ==>
                && IsTruthyString(body.jobRole) && IsTruthyString(body.jobDescription) && body.questions.Some?
                && NewEntries(body.questions.value).Some?
                && r.value == Created(old(nextId), |body.questions.value|)
                && nextId == old(nextId) + 1
                && records == old(records)[old(nextId) :=
                     Interview(userId, body.jobRole.value, body.jobDescription.value,
                               NewEntries(body.questions.value).value, now,
                               None, None, None, false, None, None)]
    {
      if !IsTruthyString(body.jobRole) || !IsTruthyString(body.jobDescription) || body.questions.None? {
        return Failure(MissingFields);
      }
      if userId !in users {
        return Failure(UserNotFound);
      }
      var entries := NewEntries(body.questions.value);
      var doc := if entries.Some? then NewInterview(userId, body.jobRole.value, body.jobDescription.value, entries.value, now)
                 else None;
      if doc.None? {
        return Failure(CreateFailed);
      }
      var id := nextId;
      records := records[id := doc.value];
      nextId := nextId + 1;
      r := Success(Created(id, |doc.value.questions|));
    }

    /**
     * Records a transcript and its evaluation at one index; 404, with nothing
     * changed, when the session or the index does not exist. No ownership check.
     */
    method UpdateInterviewQuestion(id: InterviewId, index: int, transcript: string, evaluation: AiEvaluation, now: Time)
      returns (r: Result<QuestionEntry, HttpError>)
      requires Valid()
      modifies this
      ensures Valid() && nextId == old(nextId)
      ensures r.Success? <==> id in old(records) && 0 <= index < |old(records)[id].questions|
      ensures r.Failure? ==> r.error == RecordOrQuestionNotFound && records == old(records)
      ensures r.Success? ==>
                && records == old(records)[id := WithAnswer(old(records)[id], index, transcript, evaluation, now)]
                && r.value == records[id].questions[index]
    {
      if id !in records || !(0 <= index < |records[id].questions|) {
        return Failure(RecordOrQuestionNotFound);
      }
      var updated := WithAnswer(records[id], index, transcript, evaluation, now);
      records := records[id := updated];
      r := Success(updated.questions[index]);
    }

    /** The question projection of one session; 404 when it does not exist. */
    function GetInterviewQuestions(id: InterviewId): (r: Result<QuestionsView, HttpError>)
      reads this
      ensures r.Failure? <==> id !in records
      ensures r.Failure? ==> r.error == InterviewNotFound
      ensures r.Success? ==> |r.value.questions| == |records[id].questions| && r.value == QuestionsOf(records[id])
    {
      if id in records then Success(QuestionsOf(records[id])) else Failure(InterviewNotFound)
    }

    /**
     * The results of one session for its owner: 404 when it does not exist, 403
     * for any other caller; otherwise the results projection, after backfilling
     * the completion flag.
     */
    method GetInterviewResults(id: InterviewId, callerId: UserId) returns (r: Result<ResultsView, HttpError>)
      requires Valid()
      modifies this
      ensures Valid() && nextId == old(nextId)
      ensures id !in old(records) ==> r == Failure(InterviewNotFound) && records == old(records)
      ensures id in old(records) && old(records)[id].userId != callerId ==>
                r == Failure(NotAuthorized) && records == old(records)
      ensures id in old(records) && old(records)[id].userId == callerId ==>
                && r == Success(ResultsOf(old(records)[id]))
                && records == old(records)[id := Backfill(old(records)[id])]
    {
      if id !in records {
        return Failure(InterviewNotFound);
      }
      var interview := records[id];
      if interview.userId != callerId {
        return Failure(NotAuthorized);
      }
      var view := ResultsOf(interview);
      if interview.completedAt.Some? && !interview.isCompleted {
        records := records[id := interview.(isCompleted := true)];
      }
      r := Success(view);
    }

    /** The caller's sessions, newest first. */
    function GetUserInterviews(userId: UserId): (r: Listing)
      reads this
      ensures r.message == if r.interviews == [] then "No interviews found for this user"
                           else "Interviews retrieved successfully"
      ensures forall k :: 0 <= k < |r.interviews| ==>
                && r.interviews[k].id in records
                && records[r.interviews[k].id].userId == userId
                && r.interviews[k] == SummaryOf(r.interviews[k].id, records[r.interviews[k].id])
      ensures forall j, k :: 0 <= j < k < |r.interviews| ==> r.interviews[j].date >= r.interviews[k].date
      ensures multiset(ListedIds(r.interviews)) == multiset(OwnedIds(records, nextId, userId))
    {
      var owned := OwnedIds(records, nextId, userId);
      var ids := SortNewestFirst(owned, records);
      var items := Summaries(ids, records);
      ListingFacts(records, owned, ids, items, userId);
      if items == [] then Listing("No interviews found for this user", [])
      else Listing("Interviews retrieved successfully", items)
    }

    /**
     * Completes a session: 404 when it does not exist, 400 with nothing changed when
     * no entry is answered; otherwise persists the completion. No ownership check.
     */
    method CompleteInterview(id: InterviewId, overallFeedback: Option<string>, now: Time)
      returns (r: Result<Completion, HttpError>)
      requires Valid()
      modifies this
      ensures Valid() && nextId == old(nextId)
      ensures id !in old(records) ==> r == Failure(InterviewNotFound) && records == old(records)
      ensures id in old(records) && Complete(old(records)[id], overallFeedback, now).Failure? ==>
                r == Failure(NothingAnswered) && records == old(records)
      ensures id in old(records) && Complete(old(records)[id], overallFeedback, now).Success? ==>
                var c := Complete(old(records)[id], overallFeedback, now).value;
                && records == old(records)[id := c]
                && r == Success(Completion(c.overallScore.value, now, true,
                                           c.totalQuestionsAnswered.value, c.totalQuestions.value))
    {
      if id !in records {
        return Failure(InterviewNotFound);
      }
      var outcome := Complete(records[id], overallFeedback, now);
      if outcome.Failure? {
        return Failure(outcome.error);
      }
      var c := outcome.value;
      records := records[id := c];
      r := Success(Completion(c.overallScore.value, now, true, c.totalQuestionsAnswered.value, c.totalQuestions.value));
    }
  }

  /** When one session of a user was created strictly after all their others, the list shows it first. */
  lemma NewestCreatedIsListedFirst(s: InterviewStore, userId: UserId, newest: InterviewId)
    requires s.Valid()
    requires newest in s.records && s.records[newest].userId == userId
    requires forall id :: id in s.records && s.records[id].userId == userId && id != newest ==>
               s.records[id].createdAt < s.records[newest].createdAt
    ensures s.GetUserInterviews(userId).interviews != []
    ensures s.GetUserInterviews(userId).interviews[0].id == newest
  {
    var owned := OwnedIds(s.records, s.nextId, userId);
    StrictlyNewestSortsFirst(owned, s.records, newest);
    var ids := SortNewestFirst(owned, s.records);
    assert Summaries(ids, s.records)[0] == SummaryOf(newest, s.records[newest]);
  }
}
