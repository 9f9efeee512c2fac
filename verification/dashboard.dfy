/**
 * The dashboard page's interview state: starting a session (with the generated
 * questions, the questions fetched for a stored session id, or the built-in
 * fallback list), moving between questions, and what a completed session does to
 * the page. The two requests completion makes and the question fetch are
 * parameters: their outcome, or `None` when a request fails.
 */
module Dashboard {
  import opened Wrappers
  import opened Js

  /** The tabs of the page: "setup", "interview" and "history". */
  datatype Tab = SetupTab | InterviewTab | HistoryTab

  /** A question on the client, with its model answer. */
  datatype ClientQuestion = ClientQuestion(question: string, answer: string)

  /** The questions a session starts with when none were generated or fetched. */
  const FallbackQuestions: seq<ClientQuestion> := [
    ClientQuestion("Tell me about your experience with React.js?",
                   "A strong answer would discuss specific React projects, components built, state management approaches used, and any performance optimizations implemented."),
    ClientQuestion("How do you handle state management in large applications?",
                   "A good answer would compare approaches like Redux, Context API, and React Query, discussing tradeoffs and when to use each approach."),
    ClientQuestion("Describe a challenging project you worked on and how you overcame obstacles.",
                   "A strong answer would describe a specific project, the technical challenges faced, the problem-solving approach, and the successful outcome."),
    ClientQuestion("How do you stay updated with the latest frontend technologies?",
                   "A good answer would mention specific resources like blogs, podcasts, conferences, and how the candidate applies new knowledge in practice."),
    ClientQuestion("What's your approach to writing clean, maintainable code?",
                   "A strong answer would discuss principles like DRY, SOLID, code reviews, testing strategies, and documentation practices.")
  ]

  /** What a navigation request does. */
  datatype Move = Back | Forward | Finish | Stay

  /** The move for `direction` at `index` in a list of `count` questions. */
  function NextMove(direction: string, index: int, count: nat): (r: Move)
    ensures r == Back <==> direction == "previous" && index > 0
    ensures r == Forward <==> direction == "next" && index < count - 1
    ensures r == Finish <==> direction == "next" && index >= count - 1
  {
    if direction == "previous" && index > 0 then Back
    else if direction == "next" && index < count - 1 then Forward
    else if direction == "next" && index >= count - 1 then Finish
    else Stay
  }

  /** The index after a move. */
  function Target(m: Move, index: int): int {
    match m
    case Back => index - 1
    case Forward => index + 1
    case _ => index
  }

  /**
   * From a valid index, every move lands on a valid index, and completion is
   * reached only from the last question.
   */
  lemma MoveStaysInRange(direction: string, index: int, count: nat)
    requires 0 <= index < count
    ensures 0 <= Target(NextMove(direction, index, count), index) < count
    ensures NextMove(direction, index, count) == Finish ==> index == count - 1
    ensures NextMove(direction, index, count) == Stay ==> direction != "next"
  {
  }

  /** Going forward and then back returns to the same question. */
  lemma ForwardThenBack(index: int, count: nat)
    requires 0 <= index < count - 1
    ensures Target(NextMove("next", index, count), index) == index + 1
    ensures Target(NextMove("previous", index + 1, count), index + 1) == index
  {
  }

  /** The message shown after completion; `toFixed1` is `Number.prototype.toFixed(1)`. */
  function CompletionFeedback(overallScore: real, toFixed1: real -> string): (r: string)
    ensures overallScore != 0.0 ==> r == "Interview completed! Overall score: " + toFixed1(overallScore) + "/10"
    ensures overallScore == 0.0 ==> r == "Interview completed! Thank you for participating."
  {
    if overallScore != 0.0 then "Interview completed! Overall score: " + toFixed1(overallScore) + "/10"
    else "Interview completed! Thank you for participating."
  }

  class DashboardPage {
    var questions: seq<ClientQuestion>
    var currentQuestion: string
    var currentQuestionIndex: int
    var feedback: string
    var isInterviewStarted: bool
    var currentTab: Tab
    var isInterviewLocked: bool
    /** The `currentInterviewId` entry of local storage. */
    var storedInterviewId: Option<string>

    /** The index points into the list, and the shown question is the one it points at. */
    ghost predicate Valid()
      reads this
    {
      if questions == [] then currentQuestionIndex == 0
      else 0 <= currentQuestionIndex < |questions| && currentQuestion == questions[currentQuestionIndex].question
    }

    /** The page as first rendered; local storage may still hold a session id. */
    constructor (storedInterviewId: Option<string>)
      ensures Valid()
      ensures && questions == [] && currentQuestion == "" && currentQuestionIndex == 0 && feedback == ""
              && !isInterviewStarted && currentTab == SetupTab && !isInterviewLocked
              && this.storedInterviewId == storedInterviewId
    {
      questions := [];
      currentQuestion := "";
      currentQuestionIndex := 0;
      feedback := "";
      isInterviewStarted := false;
      currentTab := SetupTab;
      isInterviewLocked := false;
      this.storedInterviewId := storedInterviewId;
    }

    /**
     * Starts a session. A non-empty generated list is shown from its first
     * question, on the locked interview tab, and a truthy `interviewId` is
     * stored. Otherwise, with a stored id, the questions `fetched` for it are
     * shown when there are any; in every other case the fallback list is.
     */
    method HandleStartInterview(generated: Option<seq<ClientQuestion>>, interviewId: Option<string>,
                                fetched: Option<seq<ClientQuestion>>)
      requires Valid()
      modifies this
      ensures Valid()
      ensures feedback == old(feedback) && isInterviewStarted && currentQuestionIndex == 0
      ensures generated.Some? && generated.value != [] ==>
                && questions == generated.value
                && currentQuestion == generated.value[0].question
                && currentTab == InterviewTab && isInterviewLocked
                && storedInterviewId == (if IsTruthyString(interviewId) then interviewId else old(storedInterviewId))
      ensures !(generated.Some? && generated.value != []) ==>
                && currentTab == old(currentTab) && isInterviewLocked == old(isInterviewLocked)
                && storedInterviewId == old(storedInterviewId)
      ensures && !(generated.Some? && generated.value != [])
              && IsTruthyString(old(storedInterviewId)) && fetched.Some? && fetched.value != [] ==>
                questions == fetched.value && currentQuestion == fetched.value[0].question
      ensures && !(generated.Some? && generated.value != [])
              && !(IsTruthyString(old(storedInterviewId)) && fetched.Some? && fetched.value != []) ==>
                questions == FallbackQuestions && currentQuestion == FallbackQuestions[0].question
    {
      if generated.Some? && |generated.value| > 0 {
        questions := generated.value;
        currentQuestion := generated.value[0].question;
        isInterviewStarted := true;
        currentQuestionIndex := 0;
        currentTab := InterviewTab;
        isInterviewLocked := true;
        if IsTruthyString(interviewId) {
          storedInterviewId := interviewId;
        }
        return;
      }
      if IsTruthyString(storedInterviewId) {
        // An empty list makes reading its first question throw, which ends in the fallback.
        if fetched.Some? && fetched.value != [] {
          questions := fetched.value;
          currentQuestion := fetched.value[0].question;
          isInterviewStarted := true;
          currentQuestionIndex := 0;
          return;
        }
      }
      questions := FallbackQuestions;
      currentQuestion := FallbackQuestions[0].question;
      isInterviewStarted := true;
      currentQuestionIndex := 0;
    }

    /**
     * Ends the stored session: when a session id is stored and both requests
     * succeed, shows the completion message, forgets the id, ends and unlocks the
     * interview and shows the history tab; otherwise changes nothing.
     * `overallScore` is the score the results request returns.
     */
    method CompleteInterview(overallScore: Option<real>, toFixed1: real -> string)
      requires Valid()
      modifies this
      ensures Valid()
      ensures && questions == old(questions) && currentQuestionIndex == old(currentQuestionIndex)
              && currentQuestion == old(currentQuestion)
      ensures !IsTruthyString(old(storedInterviewId)) || overallScore.None? ==>
                && feedback == old(feedback) && storedInterviewId == old(storedInterviewId)
                && isInterviewStarted == old(isInterviewStarted) && isInterviewLocked == old(isInterviewLocked)
                && currentTab == old(currentTab)
      ensures IsTruthyString(old(storedInterviewId)) && overallScore.Some? ==>
                && feedback == CompletionFeedback(overallScore.value, toFixed1)
                && storedInterviewId == None && !isInterviewStarted && !isInterviewLocked
                && currentTab == HistoryTab
    {
      if IsTruthyString(storedInterviewId) {
        if overallScore.Some? {
          feedback := CompletionFeedback(overallScore.value, toFixed1);
          storedInterviewId := None;
          isInterviewStarted := false;
          isInterviewLocked := false;
          currentTab := HistoryTab;
        }
      }
    }

    /**
     * Moves to the previous or the next question, clearing the feedback, or, at
     * the last question going forward, completes the session.
     */
    method HandleNextQuestion(direction: string, overallScore: Option<real>, toFixed1: real -> string)
      requires Valid()
      modifies this
      ensures Valid()
      ensures questions == old(questions)
      ensures NextMove(direction, old(currentQuestionIndex), |old(questions)|) in {Back, Forward} ==>
                && currentQuestionIndex == Target(NextMove(direction, old(currentQuestionIndex), |old(questions)|),
                                                  old(currentQuestionIndex))
                && currentQuestion == questions[currentQuestionIndex].question
                && feedback == ""
                && isInterviewStarted == old(isInterviewStarted) && isInterviewLocked == old(isInterviewLocked)
                && currentTab == old(currentTab) && storedInterviewId == old(storedInterviewId)
      ensures NextMove(direction, old(currentQuestionIndex), |old(questions)|) == Stay ==>
                && currentQuestionIndex == old(currentQuestionIndex) && currentQuestion == old(currentQuestion)
                && feedback == old(feedback) && isInterviewStarted == old(isInterviewStarted)
                && isInterviewLocked == old(isInterviewLocked) && currentTab == old(currentTab)
                && storedInterviewId == old(storedInterviewId)
      ensures NextMove(direction, old(currentQuestionIndex), |old(questions)|) == Finish ==>
                && currentQuestionIndex == old(currentQuestionIndex) && currentQuestion == old(currentQuestion)
                && (IsTruthyString(old(storedInterviewId)) && overallScore.Some? ==>
                      && feedback == CompletionFeedback(overallScore.value, toFixed1)
                      && storedInterviewId == None && !isInterviewStarted && !isInterviewLocked
                      && currentTab == HistoryTab)
                && (!IsTruthyString(old(storedInterviewId)) || overallScore.None? ==>
                      && feedback == old(feedback) && storedInterviewId == old(storedInterviewId)
                      && isInterviewStarted == old(isInterviewStarted)
                      && isInterviewLocked == old(isInterviewLocked) && currentTab == old(currentTab))
    {
      if direction == "previous" && currentQuestionIndex > 0 {
        currentQuestionIndex := currentQuestionIndex - 1;
        currentQuestion := questions[currentQuestionIndex].question;
        feedback := "";
      } else if direction == "next" && currentQuestionIndex < |questions| - 1 {
        currentQuestionIndex := currentQuestionIndex + 1;
        currentQuestion := questions[currentQuestionIndex].question;
        feedback := "";
      } else if direction == "next" && currentQuestionIndex >= |questions| - 1 {
        CompleteInterview(overallScore, toFixed1);
      }
    }
  }
}
