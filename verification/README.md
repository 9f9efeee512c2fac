# InterviewAi interview lifecycle, in Dafny

This project models the interview-session lifecycle of InterviewAi, a mock-interview web application. It covers:

- **Backend.** The Express controller that creates a session from generated question/answer pairs, records a transcribed answer and its AI evaluation at one question index, and projects a session's questions and results. It also completes a session by persisting the average of its answered scores, and lists a user's sessions newest first. The model includes the Mongoose schema of a session document and the `isAuthenticated` middleware, which picks the JWT from a cookie or from a `Bearer` header.
- **Frontend.** The dashboard's question-navigation state machine, with session start and completion. The history page's helpers: the score-badge colour, whether a session can be opened, and the date text.

The modules are:

- `Wrappers`: `Option` and `Result`.
- `Js`: JavaScript truthiness of strings and numbers.
- `InterviewModel`: the session document and its save-time `required` validation.
- `InterviewController`: the pure record operations, the scoring rule, and the class `InterviewStore`, which owns the collection of documents and whose methods update it in place.
- `InterviewProperties`: bounds on the overall score.
- `AuthMiddleware`: token choice, the decision, and the class `Exchange` for the request and response.
- `Dashboard`: the class `DashboardPage` for the page's state.
- `InterviewHistory`: the history-page helpers.

Modelling choices:

- Scores are `real` and averages are exact division.
- Times are `nat` timestamps passed in as parameters.
- Document ids come from a counter.
- `jwt.verify`, the user lookup, `toFixed(1)`, date formatting and the client's HTTP requests are parameters.

## Model

| member | source | states |
|---|---|---|
| InterviewModel.NewEntry | backend/db/models/interviewModel.js:3-15 | a question entry is saved only when `originalQuestion` and `correctAnswer` are both present and non-empty (both directions). It then carries exactly those two texts. The answer, transcript and answer time start absent. `aiEvaluation`, a nested path, starts as an object with no score or feedback and empty `strengths` and `improvements` |
| InterviewModel.NewInterview | backend/db/models/interviewModel.js:17-26 | a session document is saved iff `jobRole` and `jobDescription` are non-empty and every entry conforms. It keeps owner, role, description and questions as given, `createdAt` is the creation time, and completion time, score, feedback, flag and counts start absent or false |
| InterviewController.NewEntries | backend/controllers/interviewController.js:36-44 | the input `{question, answer}` list becomes entries in the same order and length, `originalQuestion = question` and `correctAnswer = answer`, all unanswered and each with the empty default `aiEvaluation`. Validation fails iff some input lacks a truthy question or answer |
| InterviewController.NewEntriesShowEmptyEvaluation | backend/controllers/interviewController.js:178-182 | in the results of a session whose entries were just created, each question shows "Not answered" and the empty default evaluation. The `{score: 0, feedback: "Not evaluated"}` fallback does not show for such an entry |
| InterviewController.IsAnswered | backend/controllers/interviewController.js:157 | an entry never answered, and an entry whose evaluation is scored exactly 0, do not count as answered |
| InterviewController.ScoreOrZero | backend/controllers/interviewController.js:159 | an entry's score reads as non-zero iff it is answered, and then it is its evaluation's score. Any other entry reads as 0 |
| InterviewController.AnsweredQuestions | backend/controllers/interviewController.js:157 | the answered list holds exactly the entries whose evaluation score is truthy, and is no longer than the question list |
| InterviewController.AnsweredCounts | backend/controllers/interviewController.js:157 | the answered list keeps every copy of each answered entry and no copy of any other, so its length is the number of answered entries |
| InterviewController.AnsweredAppend | backend/controllers/interviewController.js:157 | the answered filter distributes over concatenation |
| InterviewController.TotalScore | backend/controllers/interviewController.js:158-160 | the reduce-sum of `score \|\| 0` over the answered list. It has no contract of its own; `TotalScoreAppend`, `UnansweredAddNothing` and the `InterviewProperties` bounds state its rule |
| InterviewController.TotalScoreAppend | backend/controllers/interviewController.js:158-160 | the score sum distributes over concatenation |
| InterviewController.UnansweredAddNothing | backend/controllers/interviewController.js:158-160 | in the sum `TotalScore`, entries without a truthy score add 0 |
| InterviewController.LiveOverallScore | backend/controllers/interviewController.js:161-163 | the live score is 0 when nothing is answered, and otherwise the sum of the answered scores divided by their count |
| InterviewController.UnansweredEntryIsIgnored | backend/controllers/interviewController.js:157-163 | an entry without a truthy score changes neither the answered count nor the live average |
| InterviewController.ZeroScoreIsExcluded | backend/controllers/interviewController.js:157-163 | an evaluation scored exactly 0 is left out of the average instead of pulling it down |
| InterviewController.WithAnswer | backend/controllers/interviewController.js:79-84 | recording an answer sets the transcript and candidate answer to the same text, and replaces the evaluation and answer time at that index. The question texts at that index, every other entry and every session field stay as they were |
| InterviewController.AnswerOverwrites | backend/controllers/interviewController.js:79-84 | a second submission at the same index leaves the same document as the second submission alone |
| InterviewController.AnsweringCountsOnce | backend/controllers/interviewController.js:79-84 | answering an unanswered entry with a truthy score raises the answered count by exactly one |
| InterviewController.QuestionsOf | backend/controllers/interviewController.js:120-127 | the question projection keeps role and description and maps each entry, in order, to `{question: originalQuestion, correctAnswer}` |
| InterviewController.AnswersDoNotChangeQuestions | backend/controllers/interviewController.js:123-126 | recording an answer never changes the question projection |
| InterviewController.ResultQuestionOf | backend/controllers/interviewController.js:178-182 | a result entry shows the question, the candidate answer or "Not answered" when that is falsy, and the evaluation or `{score: 0, feedback: "Not evaluated"}` when it is absent |
| InterviewController.ResultsOf | backend/controllers/interviewController.js:157-182 | `totalQuestions` is the entry count. `totalQuestionsAnswered` is the number of answered entries: no greater than the total, and 0 iff no entry is answered. The score is the stored one when truthy, else the live average. The session is completed iff the flag or `completedAt` is set. Each entry shows its question, its answer or "Not answered", and its evaluation or `{score: 0, feedback: "Not evaluated"}` |
| InterviewController.Backfill | backend/controllers/interviewController.js:166-169 | after the results read the flag is set iff it was set or `completedAt` is, and nothing else changes |
| InterviewController.BackfillIsIdempotent | backend/controllers/interviewController.js:166-169 | backfilling twice is backfilling once, and the backfill does not change the results it accompanies |
| InterviewController.Complete | backend/controllers/interviewController.js:244-266 | completion fails with 400 "At least one question must be answered…" iff no entry is answered. Otherwise it persists the live average, the feedback, the completion time, the flag, and the answered and total counts, with questions, owner, role, description and creation time kept |
| InterviewController.CompletionThenResults | backend/controllers/interviewController.js:174-177 | reading the results after completion reports the persisted score and counts and a completed session |
| InterviewController.StoredScoreOutlivesLaterAnswers | backend/controllers/interviewController.js:174 | once a truthy score is stored, later answers no longer change the reported score |
| InterviewController.ThreeQuestionsTwoAnswered | backend/controllers/interviewController.js:244-265 | three questions, two answered with scores 6 and 8, complete with score 7, 2 answered and 3 in total |
| InterviewController.MeanOfTwo | backend/controllers/interviewController.js:158-163 | the live average of two answered entries scored 6 and 8 is 7 |
| InterviewController.SummaryOf | backend/controllers/interviewController.js:212-219 | a listed session's score is 'Not completed' iff its stored score is falsy, and otherwise the stored, non-zero score. Id, role, creation date, completion date and flag are copied |
| InterviewController.OwnedIds | backend/controllers/interviewController.js:199 | the ids listed for a user are exactly the stored ids of that user's sessions, in increasing order |
| InterviewController.InsertNewestFirst | backend/controllers/interviewController.js:200 | inserting into a newest-first list keeps it newest first and adds exactly that id |
| InterviewController.NoneNewerThanHead | backend/controllers/interviewController.js:200 | when no id of a list, and not the inserted id, is newer than a head id, no id of any permutation of their union is newer than it |
| InterviewController.ConsNewestFirst | backend/controllers/interviewController.js:200 | an id at least as new as every id of a newest-first list can be put in front and the list stays newest-first |
| InterviewController.SortNewestFirst | backend/controllers/interviewController.js:200 | the sorted list is ordered by `createdAt` descending and is a permutation of its input |
| InterviewController.Summaries | backend/controllers/interviewController.js:212-219 | the listing maps each id, in order, to its summary |
| InterviewController.ListedIds | backend/controllers/interviewController.js:213 | the ids of a listing, in order |
| InterviewController.StrictlyNewestSortsFirst | backend/controllers/interviewController.js:200 | a session created strictly after all the others sorts first |
| InterviewController.ListingFacts | backend/controllers/interviewController.js:199-219 | the listing of a user's sorted sessions contains only that user's sessions, each as its summary, with dates descending |
| InterviewController.NewestCreatedIsListedFirst | backend/controllers/interviewController.js:199-200 | the session a user created last, strictly, is the first in their list |
| InterviewController.InterviewStore.constructor | backend/db/models/interviewModel.js:28 | the collection starts empty |
| InterviewController.InterviewStore.CreateInterview | backend/controllers/interviewController.js:4-61 | 400 "Missing required fields" when role, description or questions is falsy or absent. 404 "User not found" for an unknown user. 500 "Failed to create interview" when validation fails. Nothing is stored on any failure. Otherwise exactly one new document with the mapped questions is stored under a fresh id, and the response carries that id and the input length. The schema invariant is kept |
| InterviewController.InterviewStore.UpdateInterviewQuestion | backend/controllers/interviewController.js:64-98 | succeeds iff the session exists and the index is in range. On failure: 404 with nothing changed. On success: only that session is replaced by `WithAnswer` and the updated entry is returned. There is no ownership check |
| InterviewController.InterviewStore.GetInterviewQuestions | backend/controllers/interviewController.js:109-127 | 404 "Interview not found" iff the session does not exist, otherwise its question projection |
| InterviewController.InterviewStore.GetInterviewResults | backend/controllers/interviewController.js:138-182 | 404 for a missing session and 403 "You are not authorized…" for a caller who is not the owner, both changing nothing. Otherwise the results projection of the stored document, with only the completion flag backfilled |
| InterviewController.InterviewStore.GetUserInterviews | backend/controllers/interviewController.js:194-220 | the caller's sessions (exactly those, as a multiset of ids) as summaries with dates descending. The message is "No interviews found for this user" iff the list is empty |
| InterviewController.InterviewStore.CompleteInterview | backend/controllers/interviewController.js:230-277 | 404 for a missing session and 400 when nothing is answered, both changing nothing. Otherwise the session is replaced by `Complete`, and the response carries its score, time, flag and counts. There is no ownership check |
| InterviewProperties.TotalScoreAtLeast | backend/controllers/interviewController.js:158-160 | a lower bound on every answered score bounds the sum from below by count times bound |
| InterviewProperties.TotalScoreAtMost | backend/controllers/interviewController.js:158-160 | an upper bound on every answered score bounds the sum from above by count times bound |
| InterviewProperties.TotalScoreWithin | backend/controllers/interviewController.js:158-160 | both bounds on the sum together |
| InterviewProperties.AnsweredScoresWithin | backend/controllers/interviewController.js:157 | a bound on the answered entries' scores holds at every index of the answered list |
| InterviewProperties.DivisionBounds | backend/controllers/interviewController.js:161-163 | arithmetic helper, a proof step of `MeanWithin`: dividing a sum between n·lo and n·hi by n > 0 lands in [lo, hi] |
| InterviewProperties.MeanWithin | backend/controllers/interviewController.js:158-163 | the mean of scores that all lie in [lo, hi] lies in [lo, hi] |
| InterviewProperties.LiveScoreTimesCount | backend/controllers/interviewController.js:161-163 | with some entry answered, the live score times the answered count is the sum of the answered scores |
| InterviewProperties.DivisionUndone | backend/controllers/interviewController.js:162 | arithmetic helper, a proof step of `LiveScoreTimesCount`: a quotient times its positive divisor gives back the dividend |
| InterviewProperties.AverageWithinBounds | backend/controllers/interviewController.js:157-163 | when some entry is answered and every answered score lies in [lo, hi], the live average lies in [lo, hi] |
| InterviewProperties.CompletedScoreIsShown | backend/controllers/interviewController.js:217 | with evaluations scored 1 to 10, the persisted score lies in [1, 10]. It is truthy, so the listing shows it rather than 'Not completed' |
| AuthMiddleware.SelectToken | backend/middleware/isAuthenticated.js:6-14 | a truthy cookie is used as is. Any other token is the header minus a leading `Bearer `. A truthy token is found iff the cookie is truthy or the header starts with `Bearer ` and has more after it |
| AuthMiddleware.BearerTokenIsSelected | backend/middleware/isAuthenticated.js:9-14 | without a cookie, the header `Bearer t` yields exactly `t` |
| AuthMiddleware.OtherSchemesAreIgnored | backend/middleware/isAuthenticated.js:11 | a header not starting with `Bearer ` is never used |
| AuthMiddleware.Decide | backend/middleware/isAuthenticated.js:16-31 | 401 "User not authenticated" iff there is no truthy token. 401 "Invalid Token" iff verification of the token throws. Otherwise the request proceeds with the `userid` of the verified payload |
| AuthMiddleware.CookieOverridesHeader | backend/middleware/isAuthenticated.js:6-9 | with a truthy cookie the Authorization header has no effect on the outcome |
| AuthMiddleware.Exchange.constructor | backend/middleware/isAuthenticated.js:3 | a request starts with no `req.id`, no call to `next` and no response |
| AuthMiddleware.Exchange.IsAuthenticated | backend/middleware/isAuthenticated.js:3-33 | on a 401 the response is sent and neither `req.id` nor `next` is touched. On success `req.id` is the payload's `userid`, `next` is called exactly once and nothing is sent |
| Dashboard.NextMove | frontend/src/pages/Dashboard.jsx:179-196 | back iff 'previous' at an index above 0. Forward iff 'next' before the last question. Finish iff 'next' at or past the last question. Otherwise nothing happens |
| Dashboard.MoveStaysInRange | frontend/src/pages/Dashboard.jsx:179-196 | from a valid index every move lands on a valid index, completion is reached only from the last question, and only a direction other than 'next' can do nothing |
| Dashboard.ForwardThenBack | frontend/src/pages/Dashboard.jsx:180-191 | 'next' then 'previous' returns to the same question |
| Dashboard.CompletionFeedback | frontend/src/pages/Dashboard.jsx:210-216 | the completion message shows the score to one decimal out of 10 when the score is non-zero, and thanks the candidate otherwise |
| Dashboard.DashboardPage.constructor | frontend/src/pages/Dashboard.jsx:21-29 | the page starts on the setup tab, with no questions, index 0, empty texts, not started and unlocked |
| Dashboard.DashboardPage.HandleStartInterview | frontend/src/pages/Dashboard.jsx:94-177 | a non-empty generated list is shown from its first question on the locked interview tab, and a truthy id is stored. Otherwise the questions fetched for a stored id are shown if there are any, and else the five fallback questions. Either way the session is started at index 0, and the index invariant is kept |
| Dashboard.DashboardPage.CompleteInterview | frontend/src/pages/Dashboard.jsx:198-232 | with a stored id and both requests successful: the completion message, the stored id cleared, the interview ended and unlocked, and the history tab shown. Otherwise nothing changes. The questions never change |
| Dashboard.DashboardPage.HandleNextQuestion | frontend/src/pages/Dashboard.jsx:179-196 | a back or forward move changes the index by one, shows that question and clears the feedback. Finish leaves the index and completes. Any other request changes nothing. `0 <= index < count` is kept for a non-empty list |
| InterviewHistory.GetScoreColor | frontend/src/pages/InterviewHistory.jsx:81-86 | the class is "bg-gray-400" iff the score is not a number or is NaN. For a number: "bg-green-500" iff at least 8, "bg-yellow-500" iff in [6, 8), "bg-red-500" iff below 6 |
| InterviewHistory.ScoreColorIsMonotone | frontend/src/pages/InterviewHistory.jsx:83-85 | a higher score never gets a lower colour, and a number is never gray |
| InterviewHistory.IsInterviewViewable | frontend/src/pages/InterviewHistory.jsx:89-93 | a listed session that is completed or has a completion date can be opened |
| InterviewHistory.NotViewableExactly | frontend/src/pages/InterviewHistory.jsx:92 | a listed session cannot be opened iff it is not completed, has no completion date and its score is 'Not completed' |
| InterviewHistory.NewSessionIsClosed | frontend/src/pages/InterviewHistory.jsx:92 | a freshly created session is listed as closed with a gray badge |
| InterviewHistory.CompletedSessionIsOpen | frontend/src/pages/InterviewHistory.jsx:82-92 | a session completed with evaluations scored 1 to 10 is listed as openable with a coloured badge |
| InterviewHistory.FormatDate | frontend/src/pages/InterviewHistory.jsx:71-79 | "Not completed" for an absent or empty date. Otherwise the formatted date when formatting succeeds, and the date text itself when it throws |

## Left out

- Mongoose behaviour beyond `required` validation is not modelled:
  - strict mode would drop `isCompleted`, `totalQuestionsAnswered` and `totalQuestions`, which the schema does not declare, so the model keeps them as the controller intends;
  - ObjectId casting errors (a malformed id gives 500 in the source, "not found" in the model);
  - `$exists` on a non-numeric index path;
  - `$set` with an absent transcript or evaluation.
- A `questions` field sent as a JSON string, and parsed on the server, is not modelled. The body carries the list itself.
- Concurrency is not modelled: last-writer-wins races between requests, React's batching of state updates, and the async gaps in the dashboard.
- `Date.now()` and `new Date()` are timestamp parameters. `toFixed(1)` and the date-fns formatting are function parameters.
- NaN scores are left out of the backend: scores are reals. NaN appears only as a `ScoreValue` case of the badge colour.
- The listing's order among sessions with equal `createdAt` is left out: the model sorts stably by id, and Mongo leaves that order unspecified.
- InterviewController.InterviewStore.CreateInterview: the user lookup is the parameter `users`, a set of known ids. The 500 on a failed save covers only validation failures.
- AuthMiddleware.Decide: a payload without `userid` proceeds with `req.id` absent, as in the source. What the next handler then does is not modelled.
- Dashboard.DashboardPage.HandleStartInterview: the fetched questions arrive as `{question, correctAnswer}`. The model keeps one `ClientQuestion` shape, with the model answer in `answer`.
- The `checkAuth` effect, the logout and feedback handlers, and the toasts of the dashboard are left out. So are `handleExport`, `fetchUserInterviews` and `handleViewDetails` of the history page, and the HTTP helpers in `lib/api.js`. All of these are I/O.
- `overallFeedback` is stored as given. The client's default text 'Interview completed successfully' is not part of this model.

Where the code and its documentation differ, the model follows the code:

- `!questions` lets an empty list through, so a session with no questions can be created.
- A score of 0 does not count as answered.
