/**
 * The shape of a stored interview document: `QuestionSchema` and `InterviewSchema`.
 * Optional schema paths are `Option`s; the `required: true` String paths are plain
 * strings that the save-time validation below keeps non-empty.
 */
module InterviewModel {
  import opened Wrappers
  import opened Js

  /** A `Date`, as milliseconds since the epoch. */
  type Time = nat

  /** A user's ObjectId, as the string the controllers compare it with. */
  type UserId = string

  /** An interview's `_id`; the store hands them out in creation order. */
  type InterviewId = nat

  /** The `aiEvaluation` sub-object of a question entry; every path of it is optional. */
  datatype AiEvaluation = AiEvaluation(
    score: Option<real>,
    feedback: Option<string>,
    strengths: seq<string>,
    improvements: seq<string>)

  /** One element of `questions`. */
  datatype QuestionEntry = QuestionEntry(
    originalQuestion: string,
    correctAnswer: string,
    candidateAnswer: Option<string>,
    audioTranscript: Option<string>,
    aiEvaluation: Option<AiEvaluation>,
    answeredAt: Option<Time>)

  /**
   * One interview session. The last three fields are read and written by the
   * controller (`isCompleted` by the results backfill and by completion, the two
   * counts by completion) but InterviewSchema does NOT declare them; they are kept
   * here as the controller intends them. An absent `isCompleted` reads as `false`.
   */
  datatype Interview = Interview(
    userId: UserId,
    jobRole: string,
    jobDescription: string,
    questions: seq<QuestionEntry>,
    createdAt: Time,
    completedAt: Option<Time>,
    overallScore: Option<real>,
    overallFeedback: Option<string>,
    isCompleted: bool,
    totalQuestionsAnswered: Option<nat>,
    totalQuestions: Option<nat>)

  /**
   * The `aiEvaluation` every saved entry starts with: it is a nested path, so it is
   * always an object, and its two array paths default to empty arrays.
   */
  const EmptyEvaluation := AiEvaluation(None, None, [], [])

  /** No answer, transcript, evaluation score or answer time has been recorded on the entry. */
  predicate Unanswered(e: QuestionEntry) {
    && e.candidateAnswer.None? && e.audioTranscript.None? && e.answeredAt.None?
    && (e.aiEvaluation.None? || e.aiEvaluation.value.score.None?)
  }

  /** The entry passes the schema's `required` validators. */
  predicate EntryConforms(e: QuestionEntry) {
    e.originalQuestion != "" && e.correctAnswer != ""
  }

  /** The document passes the schema's `required` validators. */
  predicate Conforms(iv: Interview) {
    && iv.jobRole != ""
    && iv.jobDescription != ""
    && forall i :: 0 <= i < |iv.questions| ==> EntryConforms(iv.questions[i])
  }

  /**
   * A new question sub-document built from `{originalQuestion, correctAnswer}`, as
   * validated on save: both paths are required Strings, so an absent or empty one
   * is rejected. The answer, transcript and answer time start out absent, and
   * `aiEvaluation` starts as `EmptyEvaluation`.
   */
  function NewEntry(originalQuestion: Option<string>, correctAnswer: Option<string>): (r: Option<QuestionEntry>)
    ensures r.Some? <==> IsTruthyString(originalQuestion) && IsTruthyString(correctAnswer)
    ensures r.Some? ==> EntryConforms(r.value) && Unanswered(r.value)
    ensures r.Some? ==> r.value.aiEvaluation == Some(EmptyEvaluation)
    ensures r.Some? ==> r.value.originalQuestion == originalQuestion.value && r.value.correctAnswer == correctAnswer.value
  {
    if IsTruthyString(originalQuestion) && IsTruthyString(correctAnswer) then
      Some(QuestionEntry(originalQuestion.value, correctAnswer.value, None, None, Some(EmptyEvaluation), None))
    else
      None
  }

  /**
   * A new interview document as validated on save: `jobRole` and `jobDescription`
   * are required, `createdAt` defaults to the creation time, and `completedAt`,
   * `overallScore` and `overallFeedback` start out absent.
   */
  function NewInterview(userId: UserId, jobRole: string, jobDescription: string,
                        questions: seq<QuestionEntry>, now: Time): (r: Option<Interview>)
    ensures r.Some? <==> jobRole != "" && jobDescription != "" &&
                         forall i :: 0 <= i < |questions| ==> EntryConforms(questions[i])
    ensures r.Some? ==> Conforms(r.value)
    ensures r.Some? ==> && r.value.userId == userId && r.value.jobRole == jobRole
                        && r.value.jobDescription == jobDescription && r.value.questions == questions
                        && r.value.createdAt == now
    ensures r.Some? ==> && r.value.completedAt.None? && r.value.overallScore.None?
                        && r.value.overallFeedback.None? && !r.value.isCompleted
                        && r.value.totalQuestionsAnswered.None? && r.value.totalQuestions.None?
  {
    var iv := Interview(userId, jobRole, jobDescription, questions, now, None, None, None, false, None, None);
    if Conforms(iv) then Some(iv) else None
  }
}
