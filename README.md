# AI Career Mentor — a Dafny model of its reply handling and interview session

AI Career Mentor has three parts:

- `main.py` is a Streamlit app that calls Gemini directly.
- `backend.py` is a Flask service that wraps the same model calls.
- `app.py` is a second Streamlit app that talks to that service over HTTP.

Around the model calls sits a small amount of real logic:

- **Reply normalisation.** The raw text of the model is cleaned before and after `json.loads`. This covers Markdown fence removal for job suggestions, question extraction with a line-by-line fallback, and the zero-score record used when an evaluation reply is not JSON.
- **The Mock Interview session.** The page keeps three session fields: `mi_questions`, `mi_idx` and `mi_results`. They change on four buttons: start, submit, skip/next and finish.
- **Input guards.** Blank roles, blank answers, blank reminder fields and unparsable reminder times are caught before any work is done.

This project models that logic in Dafny and proves what the code promises about it. The external services are parameters of the operations that use them:

| Service | Parameter | Type |
|---|---|---|
| Gemini model | `Model` | a function from a request to a reply or an exception message; the request names the program whose prompt is sent, since the two programs word some prompts differently |
| `json.loads` | `Loads` | a function from text to a value or a decode error |
| `datetime.fromisoformat` | `FromIso` | a function from text to an optional timestamp |
| HTTP call seen from `app.py` | `Option<HttpResponse>` | `None` when the backend was unreachable |

Every lemma therefore holds whatever those services do.

The modules:

- **`Base`**: `Option` and `Result`.
- **`Text`**: the Python string operations the code relies on. These are `strip()`, `strip(chars)`, `startswith`, `split`, `join`, `replace(old, "")` and `splitlines()`, each proved against an independent characterisation.
- **`Json`**: decoded JSON values and Python's operations on them. These are `d.get`, with the last duplicate member winning, plus `in`, truthiness and iteration, including the `TypeError` cases.
- **`Services`**: the model request and reply, HTTP responses and timestamps.
- **`Parsing`**: the code that `main.py` and `backend.py` share line for line. This is the job fence strip, the jobs payload, the error record and the evaluation fallback.
- **`Session`**: the interview state as pure transitions (`Step`, `Run`) with their invariants, plus the class `InterviewSession` whose methods update the three fields in place.
- **`Standalone`**: `main.py`'s helpers and its Mock Interview buttons.
- **`Backend`**: the four `backend.py` routes that hold logic.
- **`Client`**: `app.py`'s Mock Interview buttons, the transcript choice and the Notifier guard. It also holds lemmas that connect the client to the backend routes.

## Model

| member | source | states |
|---|---|---|
| Text.Strip | main.py:144 | `str.strip()` leaves no whitespace at either end. The result is empty exactly when the text is all whitespace. Stripped text is left unchanged. |
| Text.StripIn | main.py:170 | `strip(chars)` is empty exactly when every character is in the set. Neither end of a non-empty result is in the set. Text without such ends is unchanged. |
| Text.StripInIsTrimmed | main.py:170 | The result of `strip(chars)` is a slice of the input with only set characters cut from each end. |
| Text.TrimmedOfUnique | main.py:170 | That slice is unique: any string trimmed that way is `StripIn`. |
| Text.StripKeepsPrefix | main.py:164 | Trimming text that begins with a part whose ends are not whitespace keeps that part at the front. |
| Text.Find | main.py:164 | A reported index is an occurrence of the pattern. |
| Text.FindFirst | main.py:164 | The reported occurrence is the leftmost one, and none is reported only when there is none. |
| Text.Split | main.py:164 | `split(sep)` has at least one part. Text starting with the separator gives an empty first part. |
| Text.JoinSplit | main.py:164 | Joining the parts of a split with the same separator gives the text back. |
| Text.SplitCharJoin | main.py:170 | Parts that do not contain a character `c` are split back out of their join on `c`. |
| Text.EraseIsJoinOfSplit | main.py:166 | The left-to-right scan for `replace(old, "")` equals `"".join(s.split(old))`, which Python's `replace` agrees with for a non-empty `old`. |
| Text.EraseNoChar | main.py:166 | Erasing a pattern whose first character does not occur changes nothing. |
| Text.EraseAbsent | main.py:166 | Erasing a pattern that does not occur changes nothing. |
| Text.SplitLines | backend.py:181 | `splitlines()` gives lines without any line boundary character. |
| Text.SplitLinesOfJoin | backend.py:181 | Lines without boundaries, joined by "\n" with a non-empty last line, split back into the same lines. |
| Json.Get | app.py:227 | `d.get(key)` is `None` exactly when no member has the name. Otherwise it is the value of the last member with that name. |
| Json.Keys | main.py:171 | Iterating a dict gives each member name once, and only those names, in the order of their first occurrence. |
| Json.Iterate | main.py:171 | Iteration raises `'T' object is not iterable` exactly for numbers, booleans and null. It yields the list's items, the string's characters, or the dict's names. The error message is `'T' object is not iterable`, with `T` the value's Python type name. |
| Json.Contains | main.py:327 | `"error" in v` raises for numbers, booleans and null. On a dict it tests the names, on a list the elements. |
| Json.ContainsSubstring | main.py:355 | On a string, `in` is the substring test. |
| Parsing.DropLeadingFence | main.py:145 | The anchored `^```(json)?` removes "```json" when present, else "```", else nothing. |
| Parsing.DropTrailingFence | main.py:146 | `` ```$ `` removes a final fence, or the fence before a final "\n", and nothing else. |
| Parsing.JobText | main.py:144-146 | The text handed to the parser is stripped. |
| Parsing.JobTextJsonFenced | main.py:144-146 | A reply that is "```json" + body + "```" after stripping is parsed as the stripped body. |
| Parsing.JobTextBareFenced | main.py:144-146 | The same holds for a bare "```" fence, unless the body itself begins with `json`. |
| Parsing.JobTextUnfenced | main.py:144-146 | Text with no fence at either end is only stripped. |
| Parsing.JobsPayload | main.py:147-150 | The result is `{"jobs": ...}` holding the decoded value. On a decode error it holds instead an error with the message and the untrimmed reply as `raw_response`. |
| Parsing.ErrorRecord | main.py:178 | `{"error": msg}` has the message under "error", so `"error" in` it is true. |
| Parsing.FallbackEvaluation | main.py:196-201 | The record has clarity, confidence and score 0, the raw reply as feedback, and no "error" member. |
| Parsing.ParseEvaluation | main.py:193-201 | The result is the decoded reply, or the fallback record when decoding fails. |
| Session.Initial | main.py:315-320 | Existing keys keep their values. A missing `mi_questions` becomes `[]`, a missing `mi_idx` becomes `0` and a missing `mi_results` becomes `[]`. With all three missing, the state has the index in range. |
| Session.StepKeepsIndexInRange | main.py:358-371 | Every button keeps `mi_idx` on a question, or at 0 when there are none. |
| Session.RunKeepsIndexInRange | main.py:337-339 | After any sequence of presses, `mi_questions[mi_idx]` can be read whenever the list is non-empty. |
| Session.AnswerAppendsOne | main.py:358-363 | A submit appends exactly one result and keeps the earlier ones. The index advances exactly when `idx + 1 < len`. |
| Session.LastQuestionStays | main.py:360-366 | At the last question, neither a submit nor a skip moves the index. |
| Session.SkipsClamp | main.py:366 | `n` skips give `min(idx + n, len - 1)` and change nothing else. |
| Session.AnswersRecord | main.py:358-363 | Successive submits record the results in order, and the index ends at `min(idx + k, len - 1)`. |
| Session.AnswersFromStart | main.py:332-334 | After a start, `k` submits leave exactly those `k` results. |
| Session.ResultsOutgrowQuestions | main.py:358-363 | Two submits on a one-question list give two results. The results can outnumber the questions, which the history listing at main.py:376 then indexes past. |
| Session.ResultsAppendOnly | main.py:358 | Without start or finish, results are only ever appended to, and the questions do not change. |
| Session.InterviewSession.Restore | app.py:209-214 | The fields after the page's initialisation are `Initial` of the stored keys. |
| Session.InterviewSession.Start | app.py:230-232 | A non-empty list replaces the questions, with idx 0 and no results. An empty list changes nothing. |
| Session.InterviewSession.Submit | app.py:271-275 | The result is appended, and `mi_idx` is incremented when a next question exists. |
| Session.InterviewSession.Skip | app.py:281 | `mi_idx = min(idx + 1, len - 1)`. |
| Session.InterviewSession.Finish | app.py:285-287 | All three fields are reset. |
| Session.InterviewSession.Current | app.py:239 | Returns the question on screen. |
| Standalone.QuestionText | main.py:163-166 | The text handed to the parser is stripped. |
| Standalone.QuestionTextPlain | main.py:163-166 | A reply without backticks is only stripped. |
| Standalone.QuestionTextFenced | main.py:164 | A reply opening with a fence keeps only the text up to the second fence. |
| Standalone.QuestionTextKeepsJsonTag | main.py:164-166 | A reply opening with "```json" keeps `json` at the front of the parsed text. |
| Standalone.CleanLine | main.py:170 | A fallback line is the `strip()` of the slice left after cutting the characters `-`, `•` and space from both ends. It is stripped. A line with no bullet or whitespace at its ends is kept as is. |
| Standalone.BulletCut | main.py:170 | A question written as "- q", or as "• q " with a trailing space, comes out as exactly `q`. |
| Standalone.CleanLines | main.py:170 | There is at most one entry per line, each one stripped. |
| Standalone.CleanLinesOfClean | main.py:170 | Clean lines all come through unchanged and in order. |
| Standalone.KeepQuestions | main.py:171 | The filter keeps only non-blank strings that come from the list. |
| Standalone.KeepQuestionsAppend | main.py:171 | The filter keeps the list's order. |
| Standalone.KeepQuestionsOfStrings | main.py:171 | Non-blank strings all pass the filter, in order. |
| Standalone.MockInterview | main.py:153-174 | A blank role gives "Role required" without calling the model. A model exception gives its message. A decoded number, boolean or null gives the `TypeError` message. A decoded list, string or dict gives the non-blank strings among its items, characters or names, in order. A reply that does not decode gives the non-blank entries of the line fallback over the de-fenced text. Every returned question is a non-blank string. |
| Standalone.MainQuestionsFromArray | main.py:167-171 | A reply that decodes to a list of non-blank strings gives exactly those strings, in order. |
| Standalone.MainQuestionsFromLines | main.py:168-171 | A plain reply of clean lines that does not decode gives exactly those lines, in order. |
| Standalone.MainQuestionsFromBullets | main.py:168-171 | A reply of "- q" lines that does not decode gives exactly the questions `q`, in order, with the bullets cut. |
| Standalone.LineFallbackOfClean | main.py:170 | The line fallback returns clean lines joined by "\n" unchanged. |
| Standalone.JsonTagBecomesFirstQuestion | main.py:164-171 | When "```json\n…" fails to decode, the tag line "json" becomes the first question. |
| Standalone.EvaluateAnswer | main.py:176-204 | A blank transcript gives "No answer provided". A model exception gives its message. A reply that does not decode gives the fallback record. A decoded reply is returned as is. |
| Standalone.JobSuggestor | main.py:120-150 | The model's exception escapes, with its message. Otherwise the result is the jobs payload of the reply. |
| Standalone.StartOutcome | main.py:321-336 | A start happens exactly for a non-blank role whose generation gives a non-empty list, and then with that list. |
| Standalone.SubmitOutcome | main.py:349-363 | A result is recorded exactly for a non-blank answer whose evaluation has no "error" member. |
| Standalone.UnparsedReplyIsRecorded | main.py:354-358 | A reply that does not decode is recorded as the zero-score record. |
| Standalone.FailedEvaluationRecordsNothing | main.py:355-356 | A model exception records nothing. |
| Standalone.PressStart | main.py:321-336 | The session becomes `Started(qs)` when a start is decided, and is unchanged otherwise. |
| Standalone.PressSubmit | main.py:349-363 | The session becomes `Answered(s, res)` when a result is recorded, and is unchanged otherwise. |
| Backend.JobSuggestorRoute | backend.py:113-154 | The model's exception escapes, with its message. Otherwise the status is 200 and the body is the jobs payload. The prompt holds the profile, "" when it is missing and "None" when it is `null`. |
| Backend.JobSuggestorAgrees | backend.py:140-154 | The route and `main.py`'s helper give the same jobs for the same profile. |
| Backend.NullProfileShownAsNone | backend.py:116-118 | A `null` profile is sent to the model as the text "None". |
| Backend.StrippedLines | backend.py:181 | There is at most one entry per line, each stripped and non-blank. |
| Backend.StrippedLinesAppend | backend.py:181 | The comprehension keeps the lines' order. |
| Backend.StrippedLinesOfStripped | backend.py:181 | Stripped, non-blank lines all come through unchanged. |
| Backend.GeneratedQuestions | backend.py:171-190 | A reply opening with "[" gives the decoded value, or the three canned questions when decoding fails. Other text gives stripped, non-blank lines, at most one per line. A model exception gives the canned questions. |
| Backend.MockInterviewRoute | backend.py:157-192 | The status is always 200, with the single member `questions`. An empty or missing role gives `[]`. |
| Backend.EmptyRoleIgnoresModel | backend.py:162-163 | An empty role's response does not depend on the model or the parser. |
| Backend.BlankRoleReachesModel | backend.py:162-163 | A whitespace-only role is not rejected: it reaches the model, and a failing model gives three questions. |
| Backend.BadArrayGivesCanned | backend.py:177-190 | A "[" reply that does not decode gives the three canned questions, each naming the role. |
| Backend.LinesRoundTrip | backend.py:174-181 | Plain lines joined by "\n" come back one question per line, in order. |
| Backend.FenceLinesKept | backend.py:174-181 | No fence is removed: "```json" and "```" lines become questions of their own. |
| Backend.EvaluateRoute | backend.py:194-232 | A `null` transcript makes `strip()` raise, and the exception escapes the view. Otherwise a blank transcript gives 400 "No answer provided". Status 200 happens exactly when the model answers, with the decoded or fallback body. A model exception gives 500 with its message. |
| Backend.EvaluateAgrees | backend.py:201-230 | When the model gives the same reply to both programs' prompts, the route's body equals `main.py`'s `evaluate_answer` with an empty resume. |
| Backend.NullFieldsShownAsNone | backend.py:197-209 | A `null` question or resume text is sent to the model as "None". A missing one is sent as "". |
| Backend.UnparsedReplyScoresZero | backend.py:220-230 | A reply that does not decode gives 200 with score 0 and the reply as feedback. |
| Backend.SetReminderRoute | backend.py:234-252 | A missing or empty field gives 400 "Missing parameters". An unparsable time gives 400 echoing it. Status 200 happens exactly when all fields are present and the time parses, and the message then names the time and the address. |
| Client.StartDecision | app.py:216-234 | A start happens exactly for a non-blank role with a 200 object response whose `questions` is a non-empty list, and then with that list. |
| Client.SubmitDecision | app.py:254-277 | A result is recorded exactly for a non-blank answer with a 200 response, and it is the body. |
| Client.PressStart | app.py:216-234 | The session is `Started(qs)` on a start decision and unchanged otherwise. |
| Client.PressSubmit | app.py:254-277 | The session is `Answered(s, res)` on a recorded result and unchanged otherwise. |
| Client.CannedQuestionsStart | app.py:221-232 | When the model fails, the backend's three canned questions start the interview. |
| Client.LinesStart | app.py:221-232 | Plain reply lines become the session's questions through the backend and the page. |
| Client.SubmitRecordsEvaluation | app.py:257-271 | The page's request never makes the route raise. A result is recorded exactly when the answer is not blank and the backend's model answered. |
| Client.DisplayedTranscript | app.py:312-313 | The shown text is `transcript` if truthy, else `text` if truthy, else "". There is nothing without a 200 object response. |
| Client.NotifierRequest | app.py:327-338 | No request is sent exactly when the text or the address is blank. Otherwise the request carries both and the time. |
| Client.NotifierNeverMissing | app.py:328-339 | A request the page sends is never refused as "Missing parameters", and it is scheduled exactly when the time parses. |

## Left out

- **User interface.** Page layout, CSS, the sidebar, spinners, messages, Markdown rendering and download buttons are presentation only. This includes the history listing after the buttons. `Session.ResultsOutgrowQuestions` shows the state in which that listing indexes past the question list.
- **Gemini.** The calls, the prompt wording and the model name are left out. Each request keeps only the fields the prompt interpolates.
- **Other services.** Speech recognition, PDF reading and the `career_advice`, `resume_eval`, `speech_to_text` and `home` routes are thin wrappers around those services.
- **`json.loads` and `datetime.fromisoformat`.** Both are parameters: their grammars are not modelled. The `jsonify` and `resp.json()` round trip is taken to return the same value.
- **`print` on the question path.** The exception report in `backend.py` is output only.
- **Scheduling and mail.** `reminder_checker` with its daemon thread, `BackgroundScheduler.add_job`, `send_email` and `schedule_email_reminder` are left out: they are threads, wall-clock polling and SMTP I/O. `SetReminderRoute` stops at the confirmation.
- **The clock.** `app.py` combines today's date with the chosen time. The resulting ISO text is the parameter `iso` of `Client.NotifierRequest`.
- **Non-string request fields.** Request fields that are JSON but neither strings nor `null` are not modelled, nor is a request body that is not an object. `/job_suggestor` and `/mock/evaluate` tell a missing field from a `null` one. `/mock_interview` and `/set_reminder` treat the two alike, so there a field is `None` for both.
- **Non-string `current_question` in `app.py`.** Only its text reaches the backend.
- **Exceptions thrown while HTTP responses are built.** `safe_post_json` catches the exception of an unreachable backend, and that case is modelled as `None`. Exceptions raised while the response is built, and the `resp.text` shown in error messages, are left out.
- **Floating point.** The progress-bar fraction is float arithmetic used only for display. JSON numbers are `Int` or `Float` with a `real` value: NaN and infinities are not modelled.
- **Job rendering.** The rendering of job suggestions and the facial-expression stub are left out.
- Backend.StrippedLines: does not state that an entry contains no line boundary, nor which line each entry came from. `Backend.LinesRoundTrip` pins the result down for plain lines.
- Backend.GeneratedQuestions: on the line path it states the shape of the list (stripped, non-blank strings, at most one per line) rather than the exact list. The exact list is stated by `Backend.LinesRoundTrip` and `Backend.FenceLinesKept` for plain lines.
- Standalone.CleanLines: states the bound and that each entry is stripped, not which line each came from. `Standalone.CleanLinesOfClean` gives the exact result for clean lines.
