/**
 * The helpers of the history page: the colour of a score badge, whether a listed
 * session can be opened, and the date text of a session that has no date. Their
 * inputs are the session summaries the listing returns.
 */
module InterviewHistory {
  import opened Wrappers
  import opened Js
  import opened InterviewModel
  import opened InterviewController
  import opened InterviewProperties

  /** A score as the page receives it: a number, NaN, or a value of another type ('Not completed', absent). */
  datatype ScoreValue = Number(value: real) | NaN | NotANumber

  /** A listed session's `score`, as the page receives it. */
  function ScoreValueOf(s: ListedScore): ScoreValue {
    match s
    case Score(v) => Number(v)
    case NotCompleted => NotANumber
  }

  datatype ScoreColor = Gray | Green | Yellow | Red {
    function ClassName(): string {
      match this
      case Gray => "bg-gray-400"
      case Green => "bg-green-500"
      case Yellow => "bg-yellow-500"
      case Red => "bg-red-500"
    }

    /** The order of the colours along the score scale; gray is off the scale. */
    function Rank(): int {
      match this
      case Gray => -1
      case Red => 0
      case Yellow => 1
      case Green => 2
    }
  }

  /** The badge colour: gray for anything but a number, then green from 8, yellow from 6, red below. */
  function GetScoreColor(score: ScoreValue): (r: ScoreColor)
    ensures r.ClassName() == "bg-gray-400" <==> !score.Number?
    ensures score.Number? ==> && (r.ClassName() == "bg-green-500" <==> score.value >= 8.0)
                              && (r.ClassName() == "bg-yellow-500" <==> 6.0 <= score.value < 8.0)
                              && (r.ClassName() == "bg-red-500" <==> score.value < 6.0)
  {
    if !score.Number? then Gray
    else if score.value >= 8.0 then Green
    else if score.value >= 6.0 then Yellow
    else Red
  }

  /** A higher score never gets a colour lower on the scale. */
  lemma ScoreColorIsMonotone(a: real, b: real)
    requires a <= b
    ensures GetScoreColor(Number(a)).Rank() <= GetScoreColor(Number(b)).Rank()
    ensures GetScoreColor(Number(a)).Rank() >= 0
  {
  }

  /**
   * Whether the details of a listed session can be opened: it is completed, or
   * has a completion date, or its score is anything but 'Not completed'. A
   * missing entry cannot be opened.
   */
  function IsInterviewViewable(interview: Option<Summary>): (r: bool)
    ensures interview.Some? && (interview.value.isCompleted || interview.value.completedAt.Some?) ==> r
  {
    interview.Some? && (interview.value.isCompleted || interview.value.completedAt.Some? ||
                        interview.value.score != NotCompleted)
  }

  /** A listed session is closed exactly when it is neither completed nor dated and its score is 'Not completed'. */
  lemma NotViewableExactly(s: Summary)
    ensures !IsInterviewViewable(Some(s)) <==> !s.isCompleted && s.completedAt.None? && s.score == NotCompleted
  {
  }

  /** A session just created is listed as closed, with a gray badge. */
  lemma NewSessionIsClosed(id: InterviewId, userId: UserId, jobRole: string, jobDescription: string,
                           questions: seq<QuestionEntry>, now: Time)
    requires NewInterview(userId, jobRole, jobDescription, questions, now).Some?
    ensures var s := SummaryOf(id, NewInterview(userId, jobRole, jobDescription, questions, now).value);
            && !IsInterviewViewable(Some(s))
            && GetScoreColor(ScoreValueOf(s.score)) == Gray
  {
  }

  /**
   * A session completed with evaluations scored from 1 to 10 is listed as
   * openable, with a coloured badge.
   */
  lemma CompletedSessionIsOpen(iv: Interview, overallFeedback: Option<string>, now: Time, id: InterviewId)
    requires forall e :: e in iv.questions && IsAnswered(e) ==> 1.0 <= ScoreOrZero(e) <= 10.0
    requires Complete(iv, overallFeedback, now).Success?
    ensures var s := SummaryOf(id, Complete(iv, overallFeedback, now).value);
            && IsInterviewViewable(Some(s))
            && GetScoreColor(ScoreValueOf(s.score)) != Gray
  {
    CompletedScoreIsShown(iv, overallFeedback, now, id);
  }

  /**
   * The text for a date: 'Not completed' when it is absent or empty; otherwise
   * its formatting, or the date text itself when formatting throws (`format`
   * gives `None`).
   */
  function FormatDate(dateString: Option<string>, format: string -> Option<string>): (r: string)
    ensures !IsTruthyString(dateString) ==> r == "Not completed"
    ensures IsTruthyString(dateString) && format(dateString.value).Some? ==> r == format(dateString.value).value
    ensures IsTruthyString(dateString) && format(dateString.value).None? ==> r == dateString.value
  {
    if !IsTruthyString(dateString) then "Not completed"
    else match format(dateString.value)
      case Some(text) => text
      case None => dateString.value
  }
}
